// Which roles allow what (internal/rbac/rbac.go), and what that lets a caller
// see of the audit trail (internal/api/audit.go).

module Rbac {
  import opened Prelude
  import opened AccessModel
  import opened Sorting
  import opened AuditLog

  const AUDIT_READ := "audit-read"

  type Roles = map<string, RoleSpec>

  // ---- What is granted ----

  predicate HasOp(ops: seq<string>, op: string) { "*" in ops || op in ops }

  // One of the roles held grants op on the namespaces written as ns.
  ghost predicate Grants(model: Roles, held: seq<string>, ns: string, op: string) {
    exists role, g :: role in held && role in model && g in model[role].namespaces && g.namespace == ns && HasOp(g.operations, op)
  }

  ghost predicate MayIn(model: Roles, held: seq<string>, ns: string, op: string) {
    Grants(model, held, "*", op) || Grants(model, held, ns, op)
  }

  ghost predicate MayGlobally(model: Roles, held: seq<string>, op: string) {
    exists role :: role in held && role in model && HasOp(model[role].global, op)
  }

  // Every way of being allowed: a role that is held and there is, a grant of it on the
  // namespace or on all, and the operation in it or all.
  lemma WhoMay(model: Roles, held: seq<string>, ns: string, op: string)
    ensures MayIn(model, held, ns, op) <==>
      exists role, g: NamespaceGrant, granted ::
        role in held && role in model && g in model[role].namespaces && granted in g.operations
        && g.namespace in {"*", ns} && granted in {"*", op}
    ensures MayGlobally(model, held, op) <==>
      exists role, granted :: role in held && role in model && granted in model[role].global && granted in {"*", op}
  {
    forall ops: seq<string> ensures HasOp(ops, op) <==> exists granted :: granted in ops && granted in {"*", op} {}
  }

  method FindOp(ops: seq<string>, op: string) returns (found: bool)
    ensures found <==> HasOp(ops, op)
  {
    for i := 0 to |ops|
      invariant !HasOp(ops[..i], op)
    {
      if ops[i] == "*" || ops[i] == op { return true; }
    }
    return false;
  }

  method Allowed(model: Roles, held: seq<string>, ns: string, op: string) returns (allowed: bool)
    ensures allowed <==> MayIn(model, held, ns, op)
  {
    for i := 0 to |held|
      invariant !MayIn(model, held[..i], ns, op)
    {
      if held[i] !in model { continue; }
      var grants := model[held[i]].namespaces;
      for j := 0 to |grants|
        invariant forall g :: g in grants[..j] && (g.namespace == "*" || g.namespace == ns) ==> !HasOp(g.operations, op)
      {
        if grants[j].namespace != "*" && grants[j].namespace != ns { continue; }
        var has := FindOp(grants[j].operations, op);
        if has {
          assert grants[j] in grants && held[i] in held;
          return true;
        }
      }
      assert grants[..|grants|] == grants;
    }
    assert held[..|held|] == held;
    return false;
  }

  method AllowedGlobal(model: Roles, held: seq<string>, op: string) returns (allowed: bool)
    ensures allowed <==> MayGlobally(model, held, op)
  {
    for i := 0 to |held|
      invariant !MayGlobally(model, held[..i], op)
    {
      if held[i] !in model { continue; }
      var has := FindOp(model[held[i]].global, op);
      if has {
        assert held[i] in held;
        return true;
      }
    }
    assert held[..|held|] == held;
    return false;
  }

  // ---- Where an operation is granted ----

  ghost predicate IsGranted(model: Roles, held: seq<string>, op: string, names: set<string>) {
    forall ns :: ns in names <==> Grants(model, held, ns, op)
  }

  ghost function Granted(model: Roles, held: seq<string>, op: string): (names: set<string>)
    ensures IsGranted(model, held, op, names)
  {
    var names := set role, g | role in held && role in model && g in model[role].namespaces && HasOp(g.operations, op) :: g.namespace;
    names
  }

  method NamespacesForOp(model: Roles, held: seq<string>, op: string) returns (names: seq<string>)
    ensures names == if Grants(model, held, "*", op) then ["*"] else Listing(Granted(model, held, op))
  {
    var found: set<string> := {};
    for i := 0 to |held|
      invariant IsGranted(model, held[..i], op, found) && "*" !in found
    {
      ghost var above := found;
      assert forall role :: role in held[..i + 1] <==> role in held[..i] || role == held[i];
      if held[i] !in model { continue; }
      var grants := model[held[i]].namespaces;
      for j := 0 to |grants|
        invariant forall ns :: ns in found <==> ns in above || exists g :: g in grants[..j] && g.namespace == ns && HasOp(g.operations, op)
        invariant "*" !in found
      {
        assert forall g :: g in grants[..j + 1] <==> g in grants[..j] || g == grants[j];
        var has := FindOp(grants[j].operations, op);
        if !has { continue; }
        if grants[j].namespace == "*" {
          assert grants[j] in grants && held[i] in held;
          return ["*"];
        }
        found := found + {grants[j].namespace};
      }
      assert grants[..|grants|] == grants;
    }
    assert held[..|held|] == held;
    assert found == Granted(model, held, op);
    names := SortedKeys(found);
  }

  method SortedKeys(found: set<string>) returns (out: seq<string>)
    ensures out == Listing(found)
  {
    var todo := found;
    out := [];
    while todo != {}
      invariant todo <= found && Distinct(out) && forall x :: x in out <==> x in found - todo
      decreases |todo|
    {
      var k :| k in todo;
      assert k !in out;
      todo := todo - {k};
      out := out + [k];
    }
    SortDistinct(out);
    out := SortStrings(out);
    IncreasingUnique(out, Listing(found));
  }

  // ---- What a caller may see ----

  ghost function ScopeOf(model: Roles, held: seq<string>): Scope {
    var all := Grants(model, held, "*", AUDIT_READ);
    Scope(if all then [] else Listing(Granted(model, held, AUDIT_READ)), all, MayGlobally(model, held, AUDIT_READ))
  }

  method AuditScope(model: Roles, user: Option<seq<string>>) returns (sc: Scope)
    ensures sc == if user.None? then Scope([], false, false) else ScopeOf(model, user.value)
  {
    if user.None? { return Scope([], false, false); }
    var held := user.value;
    var global := AllowedGlobal(model, held, AUDIT_READ);
    sc := Scope([], false, global);
    var names := NamespacesForOp(model, held, AUDIT_READ);
    for i := 0 to |names|
      invariant !sc.all && sc.global == global && sc.namespaces == names[..i] && "*" !in names[..i]
    {
      if names[i] == "*" {
        sc := sc.(all := true, namespaces := []);
        break;
      }
      sc := sc.(namespaces := sc.namespaces + [names[i]]);
    }
    assert !sc.all ==> names[..|names|] == names;
  }

  // The trail shows exactly what the access model allows: an entry of a namespace
  // to those who may read it there, an entry of none to those who may globally.
  lemma TrailShowsWhatIsAllowed(model: Roles, held: seq<string>, e: Entry)
    ensures Admits(ScopeOf(model, held), Want("", "", ""), e) <==>
      if e.namespace == "" || e.namespace == "-" then MayGlobally(model, held, AUDIT_READ)
      else MayIn(model, held, e.namespace, AUDIT_READ)
  {
    var names := Granted(model, held, AUDIT_READ);
    assert e.namespace in Listing(names) <==> Grants(model, held, e.namespace, AUDIT_READ);
  }

  ghost predicate SameGrants(a: RoleSpec, b: RoleSpec) {
    && (forall g :: g in a.namespaces <==> g in b.namespaces)
    && (forall op :: op in a.global <==> op in b.global)
  }

  // Neither the order nor the repetition of roles and grants matters.
  lemma ScopeIgnoresOrder(model: Roles, held: seq<string>, model': Roles, held': seq<string>)
    requires forall role :: role in held <==> role in held'
    requires model.Keys == model'.Keys && forall role :: role in model ==> SameGrants(model[role], model'[role])
    ensures ScopeOf(model, held) == ScopeOf(model', held')
  {
    forall ns, op ensures Grants(model, held, ns, op) <==> Grants(model', held', ns, op) {
      SameReach(model, held, model', held', ns, op);
      SameReach(model', held', model, held, ns, op);
    }
    assert Granted(model, held, AUDIT_READ) == Granted(model', held', AUDIT_READ);
    SameGlobal(model, held, model', held', AUDIT_READ);
    SameGlobal(model', held', model, held, AUDIT_READ);
  }

  lemma SameReach(model: Roles, held: seq<string>, model': Roles, held': seq<string>, ns: string, op: string)
    requires forall role :: role in held <==> role in held'
    requires model.Keys == model'.Keys && forall role :: role in model ==> SameGrants(model[role], model'[role])
    ensures Grants(model, held, ns, op) ==> Grants(model', held', ns, op)
  {
    if Grants(model, held, ns, op) {
      var role, g :| role in held && role in model && g in model[role].namespaces && g.namespace == ns && HasOp(g.operations, op);
      assert SameGrants(model[role], model'[role]);
      assert g in model'[role].namespaces;
    }
  }

  lemma SameGlobal(model: Roles, held: seq<string>, model': Roles, held': seq<string>, op: string)
    requires forall role :: role in held <==> role in held'
    requires model.Keys == model'.Keys && forall role :: role in model ==> SameGrants(model[role], model'[role])
    ensures MayGlobally(model, held, op) ==> MayGlobally(model', held', op)
  {
    if MayGlobally(model, held, op) {
      var role :| role in held && role in model && HasOp(model[role].global, op);
      assert SameGrants(model[role], model'[role]);
    }
  }
}
