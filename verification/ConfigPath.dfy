// Paths of configurations: what a request may name (internal/api/configs.go),
// and what a grant on a path reaches (internal/rbac/rbac.go).

module ConfigPath {
  import opened Prelude
  import opened Text
  import opened AccessModel
  import opened Rbac

  const SLASH: set<char> := {'/'}

  function Segments(path: string): seq<string> { Split(path, '/') }

  predicate Proper(segment: string) { segment != "" && segment != "." && segment != ".." }

  // The path a request names, or none if it is refused.
  function Clean(p: string): Option<string> {
    var path := Trim(p, SLASH);
    if path == "" then None
    else if forall i :: 0 <= i < |Segments(path)| ==> Proper(Segments(path)[i]) then Some(path)
    else None
  }

  predicate Covers(grant: string, path: string) {
    || grant == "*"
    || var g, p := Trim(grant, SLASH), Trim(path, SLASH);
       g == p || HasPrefix(p, g + "/")
  }

  // An accepted path is as it is sent on: trimmed, and accepted again unchanged.
  lemma CleanIsFinal(p: string)
    requires Clean(p).Some?
    ensures var q := Clean(p).value; Trim(q, SLASH) == q && Clean(q) == Some(q)
  {
    TrimEnds(p, SLASH);
    TrimOfTrimmed(Trim(p, SLASH), SLASH);
  }

  // A path is accepted exactly if something is left of it between slashes, none of it
  // empty, "." or "..", and that is what it is sent on as.
  lemma CleanRefuses(p: string, path: string)
    ensures Clean(p) == Some(path) <==>
      && path != "" && (exists before, after :: Around(p, before, path, after, {'/'}))
      && forall segment | segment in Segments(path) :: segment != "" && segment != "." && segment != ".."
  {
    var before, after := TrimParts(p, SLASH);
    forall x, y | Around(p, x, path, y, {'/'}) ensures path == Trim(p, SLASH) { TrimOf(x, path, y, SLASH); }
    assert forall segment :: Proper(segment) <==> segment != "" && segment != "." && segment != "..";
    var segments := Segments(path);
    assert (forall i :: 0 <= i < |segments| ==> Proper(segments[i])) <==> forall segment | segment in segments :: Proper(segment);
  }

  lemma Reassociate<T>(a: seq<T>, b: seq<T>, c: seq<T>)
    ensures (a + b) + c == a + (b + c)
  {
  }

  lemma {:induction false} SplitOfConcat(a: string, b: string, sep: char)
    ensures Split(a + [sep] + b, sep) == Split(a, sep) + Split(b, sep)
  {
    var s := a + [sep] + b;
    if a == "" {
      assert s[1..] == b;
    } else {
      SplitOfConcat(a[1..], b, sep);
      assert s[1..] == a[1..] + [sep] + b;
      var rest, more := Split(a[1..], sep), Split(b, sep);
      assert (rest + more)[1..] == rest[1..] + more;
      if a[0] == sep {
        Reassociate([""], rest, more);
      } else {
        Reassociate([[a[0]] + rest[0]], rest[1..], more);
      }
    }
  }

  lemma {:induction false} JoinOfConcat(a: seq<string>, b: seq<string>, sep: char)
    requires |a| > 0 && |b| > 0
    ensures Join(a + b, sep) == Join(a, sep) + [sep] + Join(b, sep)
  {
    assert (a + b)[1..] == a[1..] + b;
    if |a| > 1 {
      JoinOfConcat(a[1..], b, sep);
    } else {
      assert a[1..] + b == b;
    }
  }

  // One path is another, or continues it after a slash, exactly when its
  // segments start with the other's.
  lemma PrefixBySegments(g: string, p: string)
    ensures g == p || HasPrefix(p, g + "/") <==> Segments(g) <= Segments(p)
  {
    if HasPrefix(p, g + "/") {
      var rest := p[|g| + 1..];
      assert p == g + ['/'] + rest;
      SplitOfConcat(g, rest, '/');
    }
    if Segments(g) <= Segments(p) {
      JoinOfSplit(g, '/');
      JoinOfSplit(p, '/');
      var rest := Segments(p)[|Segments(g)|..];
      assert Segments(p) == Segments(g) + rest;
      if rest == [] {
        assert Segments(g) == Segments(p);
      } else {
        JoinOfConcat(Segments(g), rest, '/');
        assert p == g + "/" + Join(rest, '/');
      }
    }
  }

  predicate Reaches(g: ConfigGrant, path: string, op: string) {
    Covers(g.path, path) && HasOp(g.operations, op)
  }

  ghost predicate MayOn(model: Roles, held: seq<string>, path: string, op: string) {
    exists role, g :: role in held && role in model && g in model[role].configs && Reaches(g, path, op)
  }

  method AllowedConfig(model: Roles, held: seq<string>, path: string, op: string) returns (allowed: bool)
    ensures allowed <==> MayOn(model, held, path, op)
  {
    for i := 0 to |held|
      invariant !MayOn(model, held[..i], path, op)
    {
      if held[i] !in model { continue; }
      var grants := model[held[i]].configs;
      for j := 0 to |grants|
        invariant forall g :: g in grants[..j] ==> !Reaches(g, path, op)
      {
        if !Covers(grants[j].path, path) { continue; }
        var has := FindOp(grants[j].operations, op);
        if has {
          assert grants[j] in grants && held[i] in held && Reaches(grants[j], path, op);
          return true;
        }
      }
      assert grants[..|grants|] == grants;
    }
    assert held[..|held|] == held;
    return false;
  }

  predicate ReachesBySegments(g: ConfigGrant, path: string, op: string) {
    ("*" in g.operations || op in g.operations) && (g.path == "*" || Segments(Trim(g.path, SLASH)) <= Segments(path))
  }

  // On a path that a request may name, a role allows the operation exactly when
  // it grants it on "*" or on a path whose segments the request's begin with.
  // A grant on abs does not reach abs-plus.
  lemma GrantsGoBySegments(model: Roles, held: seq<string>, p: string, op: string)
    requires Clean(p).Some?
    ensures var path := Clean(p).value;
      MayOn(model, held, path, op) <==>
      exists role, g :: role in held && role in model && g in model[role].configs && ReachesBySegments(g, path, op)
  {
    CleanIsFinal(p);
    var path := Clean(p).value;
    forall g: ConfigGrant ensures Reaches(g, path, op) <==> ReachesBySegments(g, path, op) {
      PrefixBySegments(Trim(g.path, SLASH), path);
    }
  }
}
