// Strings cut at a separator and put together again: lines at a newline, paths
// at a slash, image tags at a dash.

module Text {

  function Split(s: string, sep: char): (parts: seq<string>)
    ensures |parts| > 0
  {
    if s == "" then [""]
    else
      var rest := Split(s[1..], sep);
      if s[0] == sep then [""] + rest else [[s[0]] + rest[0]] + rest[1..]
  }

  function Join(parts: seq<string>, sep: char): string
    requires |parts| > 0
  {
    if |parts| == 1 then parts[0] else parts[0] + [sep] + Join(parts[1..], sep)
  }

  ghost predicate Free(parts: seq<string>, sep: char) {
    forall i :: 0 <= i < |parts| ==> sep !in parts[i]
  }

  lemma {:induction false} JoinOfSplit(s: string, sep: char)
    ensures Join(Split(s, sep), sep) == s
  {
    if s != "" {
      var rest := Split(s[1..], sep);
      JoinOfSplit(s[1..], sep);
      if s[0] == sep {
        assert ([""] + rest)[1..] == rest;
      } else if |rest| > 1 {
        assert ([[s[0]] + rest[0]] + rest[1..])[1..] == rest[1..];
      }
    }
  }

  lemma {:induction false} SplitIsFree(s: string, sep: char)
    ensures Free(Split(s, sep), sep)
  {
    if s != "" {
      SplitIsFree(s[1..], sep);
    }
  }

  lemma {:induction false} SplitOfFree(s: string, sep: char)
    requires sep !in s
    ensures Split(s, sep) == [s]
  {
    if s != "" {
      SplitOfFree(s[1..], sep);
      assert [s[0]] + s[1..] == s;
    }
  }

  // A part without separators, then one, then anything.
  lemma {:induction false} SplitAtFirst(head: string, tail: string, sep: char)
    requires sep !in head
    ensures Split(head + [sep] + tail, sep) == [head] + Split(tail, sep)
  {
    var s := head + [sep] + tail;
    if head == "" {
      assert s[1..] == tail;
    } else {
      assert s[1..] == head[1..] + [sep] + tail;
      SplitAtFirst(head[1..], tail, sep);
      assert [head[0]] + head[1..] == head;
    }
  }

  lemma SplitInjective(s: string, t: string, sep: char)
    ensures Split(s, sep) == Split(t, sep) <==> s == t
  {
    JoinOfSplit(s, sep);
    JoinOfSplit(t, sep);
  }

  // strings.TrimRight with a set of characters.
  function TrimRight(s: string, cut: set<char>): string {
    if s != "" && s[|s| - 1] in cut then TrimRight(s[..|s| - 1], cut) else s
  }

  // strings.Trim with a set of characters.
  function Trim(s: string, cut: set<char>): string {
    if s != "" && s[0] in cut then Trim(s[1..], cut) else TrimRight(s, cut)
  }

  lemma {:induction false} TrimRightEnds(s: string, cut: set<char>)
    ensures var t := TrimRight(s, cut); t <= s && (t != "" ==> t[|t| - 1] !in cut)
  {
    if s != "" && s[|s| - 1] in cut {
      TrimRightEnds(s[..|s| - 1], cut);
    }
  }

  lemma {:induction false} TrimEnds(s: string, cut: set<char>)
    ensures var t := Trim(s, cut); t != "" ==> t[0] !in cut && t[|t| - 1] !in cut
  {
    if s != "" && s[0] in cut {
      TrimEnds(s[1..], cut);
    } else {
      TrimRightEnds(s, cut);
    }
  }

  lemma TrimOfTrimmed(s: string, cut: set<char>)
    requires s != "" ==> s[0] !in cut && s[|s| - 1] !in cut
    ensures Trim(s, cut) == s
  {
  }

  ghost predicate Only(s: string, chars: set<char>) { forall i :: 0 <= i < |s| ==> s[i] in chars }

  // s is the core with nothing but what may be cut before and after it.
  ghost predicate Around(s: string, before: string, core: string, after: string, cut: set<char>) {
    && s == before + core + after && Only(before, cut) && Only(after, cut)
    && (core != "" ==> core[0] !in cut && core[|core| - 1] !in cut)
  }

  lemma {:induction false} TrimRightOf(core: string, after: string, cut: set<char>)
    requires Only(after, cut)
    ensures TrimRight(core + after, cut) == TrimRight(core, cut)
  {
    if after == "" {
      assert core + after == core;
    } else {
      var n := |after| - 1;
      assert (core + after)[..|core + after| - 1] == core + after[..n];
      TrimRightOf(core, after[..n], cut);
    }
  }

  lemma {:induction false} TrimRightParts(s: string, cut: set<char>) returns (after: string)
    ensures s == TrimRight(s, cut) + after && Only(after, cut)
  {
    after := "";
    if s != "" && s[|s| - 1] in cut {
      var n := |s| - 1;
      var rest := TrimRightParts(s[..n], cut);
      after := rest + [s[n]];
      assert s == s[..n] + [s[n]];
    }
  }

  lemma {:induction false} TrimOf(before: string, core: string, after: string, cut: set<char>)
    requires Around(before + core + after, before, core, after, cut)
    ensures Trim(before + core + after, cut) == core
  {
    var s := before + core + after;
    if before != "" {
      assert s[1..] == before[1..] + core + after;
      TrimOf(before[1..], core, after, cut);
    } else if core == "" && after != "" {
      assert s[1..] == "" + core + after[1..];
      TrimOf("", core, after[1..], cut);
    } else {
      assert s == core + after;
      TrimRightOf(core, after, cut);
    }
  }

  lemma {:induction false} TrimParts(s: string, cut: set<char>) returns (before: string, after: string)
    ensures Around(s, before, Trim(s, cut), after, cut)
  {
    if s != "" && s[0] in cut {
      var rest;
      rest, after := TrimParts(s[1..], cut);
      before := [s[0]] + rest;
      assert s == [s[0]] + s[1..];
    } else {
      before := "";
      after := TrimRightParts(s, cut);
    }
    TrimEnds(s, cut);
  }

  // strings.HasPrefix.
  predicate HasPrefix(s: string, prefix: string) {
    prefix <= s
  }
}
