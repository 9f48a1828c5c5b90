// Entries of the audit trail, who may see them, and the order they are shown in
// (internal/auditlog/auditlog.go).

module AuditLog {
  import opened AccessModel

  datatype Entry = Entry(time: Time, user: string, environment: string, namespace: string, operation: string,
                         target: string, allowed: bool, success: bool, error: string)

  datatype Scope = Scope(namespaces: seq<string>, all: bool, global: bool)
  {
    predicate Empty() { !all && !global && |namespaces| == 0 }
  }

  // What the reader asked to see; an empty string asks for nothing in particular.
  datatype Want = Want(operation: string, user: string, text: string)

  // to and since at NEVER are not given.
  datatype Filter = Filter(want: Want, to: Time, since: Time, limit: int)

  // ---- What is shown ----

  predicate OccursAt(needle: string, hay: string, i: nat) {
    i + |needle| <= |hay| && hay[i..i + |needle|] == needle
  }

  predicate Occurs(needle: string, hay: string) {
    exists i :: 0 <= i <= |hay| && OccursAt(needle, hay, i)
  }

  predicate InScope(namespace: string, sc: Scope) {
    if namespace == "" || namespace == "-" then sc.global else sc.all || namespace in sc.namespaces
  }

  // Where the text asked for is looked for.
  function Haystack(e: Entry): string {
    e.user + " " + e.namespace + " " + e.operation + " " + e.target + " " + e.error
  }

  predicate Matches(e: Entry, w: Want) {
    && (w.operation == "" || e.operation == w.operation)
    && (w.user == "" || Occurs(ToLower(w.user), ToLower(e.user)))
    && (w.text == "" || Occurs(ToLower(w.text), ToLower(Haystack(e))))
  }

  predicate Admits(sc: Scope, w: Want, e: Entry) {
    InScope(e.namespace, sc) && Matches(e, w)
  }

  method Keep(e: Entry, sc: Scope, w: Want) returns (keep: bool)
    ensures keep <==> Admits(sc, w, e)
  {
    if e.namespace == "" || e.namespace == "-" {
      if !sc.global { return false; }
    } else if !sc.all {
      var found := false;
      for i := 0 to |sc.namespaces|
        invariant found <==> e.namespace in sc.namespaces[..i]
      {
        if sc.namespaces[i] == e.namespace { found := true; break; }
      }
      if !found { return false; }
    }
    if w.operation != "" && e.operation != w.operation { return false; }
    if w.user != "" && !Occurs(ToLower(w.user), ToLower(e.user)) { return false; }
    if w.text != "" {
      var hay := Haystack(e);
      if !Occurs(ToLower(w.text), ToLower(hay)) { return false; }
    }
    return true;
  }

  ghost predicate Reads(needle: string, hay: string, i: nat) {
    i + |needle| <= |hay| && forall k :: 0 <= k < |needle| ==> SameLetter(needle[k], hay[i + k])
  }

  // Somewhere in it, in capitals or not.
  ghost predicate Mentions(hay: string, needle: string) { exists i :: Reads(needle, hay, i) }

  lemma ReadsIffOccurs(needle: string, hay: string, i: nat)
    ensures OccursAt(ToLower(needle), ToLower(hay), i) <==> Reads(needle, hay, i)
  {
    LowerEach(needle);
    LowerEach(hay);
    if i + |needle| <= |hay| {
      forall k | 0 <= k < |needle| ensures Lower(needle[k]) == Lower(hay[i + k]) <==> SameLetter(needle[k], hay[i + k]) {
        LowerSame(needle[k], hay[i + k]);
      }
      var part, low := ToLower(hay)[i..i + |needle|], ToLower(needle);
      assert part == low <==> forall k :: 0 <= k < |low| ==> low[k] == part[k];
    }
  }

  lemma MentionsIffOccurs(needle: string, hay: string)
    ensures Occurs(ToLower(needle), ToLower(hay)) <==> Mentions(hay, needle)
  {
    LowerEach(hay);
    forall i: nat ensures OccursAt(ToLower(needle), ToLower(hay), i) <==> Reads(needle, hay, i) {
      ReadsIffOccurs(needle, hay, i);
    }
  }

  lemma MentionsWithin(a: string, hay: string, c: string, needle: string)
    requires Mentions(hay, needle)
    ensures Mentions(a + hay + c, needle)
  {
    var i :| Reads(needle, hay, i);
    assert Reads(needle, a + hay + c, |a| + i);
  }

  // What is admitted: the operation asked for, a user whose name mentions the one asked
  // for, and a line that mentions the text asked for,
  lemma AdmitsWhatIsWanted(sc: Scope, w: Want, e: Entry)
    ensures Admits(sc, w, e) <==>
      && (if e.namespace in {"", "-"} then sc.global else sc.all || e.namespace in sc.namespaces)
      && (w.operation != "" ==> e.operation == w.operation)
      && Mentions(e.user, w.user) && Mentions(Haystack(e), w.text)
  {
    hide Mentions, Haystack, Occurs;
    MentionsIffOccurs(w.user, e.user);
    MentionsIffOccurs(w.text, Haystack(e));
    MentionsNothing(e.user);
    MentionsNothing(Haystack(e));
  }

  // which it does if any field of it does.
  lemma AnyFieldCounts(e: Entry, text: string)
    ensures (Mentions(e.user, text) || Mentions(e.namespace, text) || Mentions(e.operation, text)
             || Mentions(e.target, text) || Mentions(e.error, text)) ==> Mentions(Haystack(e), text)
  {
    hide Mentions;
    var ns, op := e.user + " ", e.user + " " + e.namespace + " ";
    var target, error := op + e.operation + " ", op + e.operation + " " + e.target + " ";
    assert Mentions(e.user, text) ==> Mentions(Haystack(e), text) by {
      FieldMentions(e, "", e.user, " " + e.namespace + " " + e.operation + " " + e.target + " " + e.error, text);
    }
    assert Mentions(e.namespace, text) ==> Mentions(Haystack(e), text) by {
      FieldMentions(e, ns, e.namespace, " " + e.operation + " " + e.target + " " + e.error, text);
    }
    FieldMentions(e, op, e.operation, " " + e.target + " " + e.error, text);
    FieldMentions(e, target, e.target, " " + e.error, text);
    FieldMentions(e, error, e.error, "", text);
  }

  lemma MentionsNothing(hay: string)
    ensures Mentions(hay, "")
  {
    assert Reads("", hay, 0);
  }

  lemma FieldMentions(e: Entry, before: string, field: string, after: string, text: string)
    requires Haystack(e) == before + field + after
    ensures Mentions(field, text) ==> Mentions(Haystack(e), text)
  {
    if Mentions(field, text) { MentionsWithin(before, field, after, text); }
  }

  // ---- Newest first ----

  function Slot(e: Entry, es: seq<Entry>): seq<Entry> {
    if es == [] || es[|es| - 1].time >= e.time then es + [e]
    else Slot(e, es[..|es| - 1]) + [es[|es| - 1]]
  }

  // sort.SliceStable: each entry after all that are as new.
  function NewestFirst(es: seq<Entry>): seq<Entry> {
    if es == [] then [] else Slot(es[|es| - 1], NewestFirst(es[..|es| - 1]))
  }

  ghost predicate Descending(es: seq<Entry>) {
    forall i, j :: 0 <= i < j < |es| ==> es[i].time >= es[j].time
  }

  function At(es: seq<Entry>, t: Time): seq<Entry> {
    if es == [] then []
    else At(es[..|es| - 1], t) + if es[|es| - 1].time == t then [es[|es| - 1]] else []
  }

  lemma AtPush(es: seq<Entry>, e: Entry, t: Time)
    ensures At(es + [e], t) == At(es, t) + if e.time == t then [e] else []
  {
    assert (es + [e])[..|es|] == es;
  }

  lemma {:induction false} SlotHolds(e: Entry, es: seq<Entry>)
    ensures multiset(Slot(e, es)) == multiset(es) + multiset{e} && |Slot(e, es)| == |es| + 1
  {
    if es != [] && es[|es| - 1].time < e.time {
      var n := |es| - 1;
      SlotHolds(e, es[..n]);
      assert es == es[..n] + [es[n]];
    }
  }

  lemma {:induction false} SlotSorts(e: Entry, es: seq<Entry>)
    requires Descending(es)
    ensures Descending(Slot(e, es))
  {
    if es != [] && es[|es| - 1].time < e.time {
      var n := |es| - 1;
      SlotSorts(e, es[..n]);
      SlotHolds(e, es[..n]);
      var low := Slot(e, es[..n]);
      forall i | 0 <= i < |low| ensures low[i].time >= es[n].time {
        assert low[i] in multiset(low);
        if low[i] != e { assert low[i] in es[..n]; }
      }
    }
  }

  lemma {:induction false} SlotIsStable(e: Entry, es: seq<Entry>, t: Time)
    ensures At(Slot(e, es), t) == At(es, t) + if e.time == t then [e] else []
  {
    if es == [] || es[|es| - 1].time >= e.time {
      AtPush(es, e, t);
    } else {
      var n := |es| - 1;
      var low := Slot(e, es[..n]);
      SlotIsStable(e, es[..n], t);
      AtPush(low, es[n], t);
      if e.time == t {
        assert At(low, t) + [] == At(low, t) && At(es[..n], t) + [] == At(es[..n], t);
      } else {
        assert At(low, t) == At(es[..n], t);
      }
    }
  }

  lemma {:induction false} NewestFirstHolds(es: seq<Entry>)
    ensures multiset(NewestFirst(es)) == multiset(es)
  {
    if es != [] {
      var n := |es| - 1;
      NewestFirstHolds(es[..n]);
      SlotHolds(es[n], NewestFirst(es[..n]));
      assert es == es[..n] + [es[n]];
    }
  }

  lemma {:induction false} NewestFirstDescends(es: seq<Entry>)
    ensures Descending(NewestFirst(es))
  {
    if es != [] {
      var n := |es| - 1;
      NewestFirstDescends(es[..n]);
      SlotSorts(es[n], NewestFirst(es[..n]));
    }
  }

  // The same entries, newest first, and those of the same moment as they came.
  lemma NewestFirstSorts(es: seq<Entry>)
    ensures Descending(NewestFirst(es)) && multiset(NewestFirst(es)) == multiset(es) && |NewestFirst(es)| == |es|
  {
    NewestFirstHolds(es);
    NewestFirstDescends(es);
    assert |NewestFirst(es)| == |multiset(NewestFirst(es))| == |es|;
  }

  lemma {:induction false} NewestFirstIsStable(es: seq<Entry>, t: Time)
    ensures At(NewestFirst(es), t) == At(es, t)
  {
    if es != [] {
      var n := |es| - 1;
      NewestFirstIsStable(es[..n], t);
      SlotIsStable(es[n], NewestFirst(es[..n]), t);
    }
  }
}
