// Where every recorded change comes from, and which calls are recorded.
//
// A run says which change each call asked for, under the id the call had. What is
// committed, pending or left over is never anything else; and as long as every
// save is heard of, what is committed is what was acknowledged.

module Provenance {
  import opened Folds
  import opened Protocol
  import opened StoreRuns

  // Step a is call id, asking for the change.
  ghost predicate Asks<M, C>(w: World<M, C>, a: Action<M, C>, id: CallId, change: C) {
    Enabled(w, a) && a.Call? && id == CallId(a.r, w.replicas[a.r].calls) && change == a.change
  }

  // Somewhere in the run, call id asked for the change.
  ghost predicate AskedIn<M, C>(w: World<M, C>, run: seq<Action<M, C>>, id: CallId, change: C)
    decreases |run|
  {
    run != [] && Enabled(w, run[0])
    && (Asks(w, run[0], id, change) || AskedIn(After(w, run[0]), run[1..], id, change))
  }

  // ---- Nothing is recorded that was not asked for ----

  ghost predicate AllKnown<C>(cs: seq<Stamped<C>>, known: (CallId, C) -> bool) {
    forall i :: 0 <= i < |cs| ==> known(cs[i].id, cs[i].change)
  }

  ghost predicate Genuine<M, C>(w: World<M, C>, known: (CallId, C) -> bool) {
    && AllKnown(AllChanges(w.history), known)
    && forall r :: 0 <= r < |w.replicas| ==> GenuineReplica(w.replicas[r], known)
  }

  ghost predicate GenuineReplica<M, C>(x: Replica<M, C>, known: (CallId, C) -> bool) {
    Up(x) ==> AllKnown(x.residue, known) && AllKnown(Pending(x), known)
  }

  // The replica that takes the step.
  lemma OwnStepGenuine<M(!new), C(!new)>(w: World<M, C>, a: Action<M, C>, x: Replica<M, C>, known: (CallId, C) -> bool)
    requires Enabled(w, a) && !Outside(a) && x == w.replicas[a.r] && GenuineReplica(x, known)
    requires x.phase.Creating? ==> x.residue == []
    requires a.Call? ==> known(CallId(a.r, x.calls), a.change)
    ensures GenuineReplica(After(w, a).replicas[a.r], known)
  {
    assert Pending(x) != [] ==> Pending(x)[0] == x.phase.call;
  }

  lemma SaveGenuine<M(!new), C(!new)>(w: World<M, C>, r: nat, version: Version, told: bool, known: (CallId, C) -> bool)
    requires Enabled(w, Save(r, version, told)) && Genuine(w, known)
    ensures AllKnown(AllChanges(After(w, Save(r, version, told)).history), known)
  {
    var x := w.replicas[r];
    assert GenuineReplica(x, known) && Pending(x)[0] == x.phase.call;
    CommitGrows(w.history, Commit(x.model, version, Written(x.residue + [x.phase.call])));
  }

  lemma QuietHistory<M(!new), C(!new)>(w: World<M, C>, a: Action<M, C>)
    requires Enabled(w, a) && !a.Save?
    ensures AllChanges(After(w, a).history) == AllChanges(w.history) && After(w, a).acked == w.acked
    ensures !a.SaveFails? ==> After(w, a).unsaved == w.unsaved
  {
    var h := After(w, a).history;
    if h != w.history { CommitGrows(w.history, h[|h| - 1]); }
  }

  lemma CreatingHoldsNothing<M(!new), C(!new)>(w: World<M, C>)
    requires Inv(w)
    ensures forall r :: 0 <= r < |w.replicas| && w.replicas[r].phase.Creating? ==> w.replicas[r].residue == []
  {
    forall r | 0 <= r < |w.replicas| && w.replicas[r].phase.Creating? ensures w.replicas[r].residue == [] {
      assert ReplicaInv(w, r);
    }
  }

  lemma StepGenuine<M(!new), C(!new)>(w: World<M, C>, a: Action<M, C>, known: (CallId, C) -> bool)
    requires Inv(w) && Enabled(w, a) && Genuine(w, known)
    requires a.Call? ==> known(CallId(a.r, w.replicas[a.r].calls), a.change)
    ensures Genuine(After(w, a), known)
  {
    CreatingHoldsNothing(w);
    hide Inv;
    if a.Save? { SaveGenuine(w, a.r, a.version, a.told, known); } else { QuietHistory(w, a); }
    var w' := After(w, a);
    forall r: nat | r < |w'.replicas| ensures GenuineReplica(w'.replicas[r], known) {
      assert GenuineReplica(w.replicas[r], known);
      if !Outside(a) && a.r == r { OwnStepGenuine(w, a, w.replicas[r], known); } else { OthersStep(w, r, a); }
    }
  }

  // Whatever holds of every change asked for holds of every change recorded.
  lemma {:induction false} RunGenuine<M(!new), C(!new)>(w: World<M, C>, run: seq<Action<M, C>>, known: (CallId, C) -> bool)
    requires Inv(w) && Legal(w, run) && Genuine(w, known)
    requires forall id, change :: AskedIn(w, run, id, change) ==> known(id, change)
    ensures Genuine(End(w, run), known)
    decreases |run|
  {
    hide Inv, Genuine;
    if run != [] {
      var a := run[0];
      if a.Call? { assert Asks(w, a, CallId(a.r, w.replicas[a.r].calls), a.change); }
      StepGenuine(w, a, known);
      StepKeepsInv(w, a);
      forall id, change | AskedIn(After(w, a), run[1..], id, change) ensures known(id, change) {
        assert AskedIn(w, run, id, change);
      }
      RunGenuine(After(w, a), run[1..], known);
    }
  }

  ghost function AskedBy<M, C>(w: World<M, C>, run: seq<Action<M, C>>): (CallId, C) -> bool {
    (id: CallId, change: C) => AskedIn(w, run, id, change)
  }

  lemma AllWasAskedFor<M(!new), C(!new)>(w0: World<M, C>, run: seq<Action<M, C>>, w: World<M, C>)
    requires Reaches(w0, run, w)
    ensures Genuine(w, AskedBy(w0, run))
  {
    hide Inv;
    InitialInv(w0);
    NothingYet(w0);
    RunGenuine(w0, run, AskedBy(w0, run));
  }

  // Every change in the committed history was asked for by the call whose id it
  // has: nothing is stored that nobody asked for, nor under another call's name.
  lemma EveryChangeWasAskedFor<M(!new), C(!new)>(w0: World<M, C>, run: seq<Action<M, C>>, w: World<M, C>)
    requires Reaches(w0, run, w)
    ensures var cs := AllChanges(w.history);
      forall i :: 0 <= i < |cs| ==> AskedIn(w0, run, cs[i].id, cs[i].change)
  {
    hide Reaches;
    AllWasAskedFor(w0, run, w);
    var cs := AllChanges(w.history);
    forall i | 0 <= i < |cs| ensures AskedIn(w0, run, cs[i].id, cs[i].change) {
      assert AskedBy(w0, run)(cs[i].id, cs[i].change);
    }
  }

  // So was everything left over or pending in a replica's memory.
  lemma MemoryWasAskedFor<M(!new), C(!new)>(w0: World<M, C>, run: seq<Action<M, C>>, w: World<M, C>, r: nat, i: nat)
    requires Reaches(w0, run, w) && r < |w.replicas| && Up(w.replicas[r]) && i < |Unsaved(w.replicas[r])|
    ensures var c := Unsaved(w.replicas[r])[i]; AskedIn(w0, run, c.id, c.change)
  {
    hide Reaches;
    AllWasAskedFor(w0, run, w);
    var x, known := w.replicas[r], AskedBy(w0, run);
    assert GenuineReplica(x, known);
    var c := Unsaved(x)[i];
    assert c == if i < |x.residue| then x.residue[i] else Pending(x)[i - |x.residue|];
    assert known(c.id, c.change);
  }

  // What memory holds on top of the document it was read from.
  function Unsaved<M, C>(x: Replica<M, C>): seq<Stamped<C>> { x.residue + Pending(x) }

  lemma NothingYet<M(!new), C(!new)>(w0: World<M, C>)
    requires Initial(w0)
    ensures AllChanges(w0.history) == []
  {
    assert |w0.history| == 1 ==> Between(w0.history, 0, 0) == [];
  }

  // ---- An id is one call ----

  lemma {:induction false} AskedLater<M(!new), C(!new)>(w: World<M, C>, run: seq<Action<M, C>>, id: CallId, change: C)
    requires AskedIn(w, run, id, change)
    ensures id.replica < |w.replicas| && w.replicas[id.replica].calls <= id.serial
    decreases |run|
  {
    if !Asks(w, run[0], id, change) {
      AskedLater(After(w, run[0]), run[1..], id, change);
      StepGrows(w, run[0]);
    }
  }

  // No two calls have the same id, so an id says what was asked.
  lemma {:induction false} AskedOnce<M(!new), C(!new)>(w: World<M, C>, run: seq<Action<M, C>>, id: CallId, c: C, d: C)
    requires AskedIn(w, run, id, c) && AskedIn(w, run, id, d)
    ensures c == d
    decreases |run|
  {
    var w', rest := After(w, run[0]), run[1..];
    if Asks(w, run[0], id, c) && !Asks(w, run[0], id, d) {
      AskedLater(w', rest, id, d);
    } else if Asks(w, run[0], id, d) && !Asks(w, run[0], id, c) {
      AskedLater(w', rest, id, c);
    } else if !Asks(w, run[0], id, c) {
      AskedOnce(w', rest, id, c, d);
    }
  }

  // ---- No lost update ----

  // Commit k is the save that answered the call, whose change is the last in it:
  // the one asked for, made on top of the document stored just before.
  ghost predicate Carries<M, C>(w: World<M, C>, k: nat, id: CallId, change: C) {
    && Answers(w.history, k, id) && Commits(w.kit, w.history, k)
    && var cs := ChangesOf(w.history[k].origin);
    cs[|cs| - 1].change == change
  }

  // A call that was told it succeeded has exactly one commit, and that commit is
  // the change it asked for, made to the document stored just before it, together
  // with any earlier change of the same replica whose save had failed.
  lemma AcknowledgedOnce<M(!new), C(!new)>(w0: World<M, C>, run: seq<Action<M, C>>, w: World<M, C>, id: CallId)
    returns (k: nat, change: C)
    requires Reaches(w0, run, w) && id in w.acked
    ensures Carries(w, k, id, change)
    ensures AskedIn(w0, run, id, change) && forall d :: AskedIn(w0, run, id, d) ==> d == change
    ensures forall l: nat :: Answers(w.history, l, id) ==> l == k
  {
    assert Reachable(w);
    AnsweredOnce(w, id);
    k :| Answers(w.history, k, id) && Commits(w.kit, w.history, k);
    var cs := ChangesOf(w.history[k].origin);
    change := cs[|cs| - 1].change;
    EveryChangeWasAskedFor(w0, run, w);
    var i := LastChangeAt(w.history, k);
    assert AllChanges(w.history)[i] == cs[|cs| - 1];
    forall d | AskedIn(w0, run, id, d) ensures d == change { AskedOnce(w0, run, id, d, change); }
  }

  // ---- What is recorded is what was acknowledged ----

  // No save is lost on the way, and no answer to one.
  ghost predicate Heard<M, C>(run: seq<Action<M, C>>) {
    forall i :: 0 <= i < |run| ==> !run[i].SaveFails? && (run[i].Save? ==> run[i].told)
  }

  ghost predicate AllAcked<M, C>(w: World<M, C>) {
    !w.unsaved && forall i :: 0 <= i < |AllChanges(w.history)| ==> AllChanges(w.history)[i].id in w.acked
  }

  lemma CurrentHoldsNothing<M(!new), C(!new)>(w: World<M, C>, r: nat)
    requires Inv(w) && !w.unsaved && r < |w.replicas| && w.replicas[r].phase.Saving?
    requires w.replicas[r].version == StoredVersion(w)
    ensures w.replicas[r].residue == []
  {
    assert ReplicaInv(w, r);
    CurrentByVersion(w, w.replicas[r]);
  }

  lemma StepAcked<M(!new), C(!new)>(w: World<M, C>, a: Action<M, C>)
    requires Inv(w) && Enabled(w, a) && AllAcked(w) && !a.SaveFails? && (a.Save? ==> a.told)
    ensures AllAcked(After(w, a))
  {
    if a.Save? { CurrentHoldsNothing(w, a.r); }
    hide Inv;
    if a.Save? {
      var x := w.replicas[a.r];
      CommitGrows(w.history, Commit(x.model, a.version, Written(x.residue + [x.phase.call])));
    } else {
      QuietHistory(w, a);
    }
  }

  lemma {:induction false} RunAcked<M(!new), C(!new)>(w: World<M, C>, run: seq<Action<M, C>>)
    requires Inv(w) && Legal(w, run) && AllAcked(w) && Heard(run)
    ensures AllAcked(End(w, run))
    decreases |run|
  {
    hide Inv, AllAcked;
    if run != [] {
      assert !run[0].SaveFails? && (run[0].Save? ==> run[0].told);
      StepAcked(w, run[0]);
      StepKeepsInv(w, run[0]);
      RunAcked(After(w, run[0]), run[1..]);
    }
  }

  // As long as every save is heard of, the committed changes are exactly those of
  // the acknowledged calls, each of them once.
  lemma RecordedIsAcknowledged<M(!new), C(!new)>(w0: World<M, C>, run: seq<Action<M, C>>, w: World<M, C>)
    requires Reaches(w0, run, w) && Heard(run)
    ensures forall id :: Committed(w.history, id) <==> id in w.acked
    ensures DistinctIds(AllChanges(w.history))
  {
    hide Inv;
    InitialInv(w0);
    NothingYet(w0);
    RunAcked(w0, run);
    assert Reachable(w);
    EveryCallAtMostOnce(w);
    forall id | id in w.acked ensures Committed(w.history, id) {
      AnsweredOnce(w, id);
      var k: nat :| Answers(w.history, k, id);
      var i := LastChangeAt(w.history, k);
    }
  }

  // A recorded change is one that was asked for, and acknowledged if every save
  // was heard of.
  ghost predicate Accounted<M, C>(w0: World<M, C>, run: seq<Action<M, C>>, w: World<M, C>, c: Stamped<C>) {
    AskedIn(w0, run, c.id, c.change) && (Heard(run) ==> c.id in w.acked)
  }

  // The committed history is a sequential fold: between two stored documents, with
  // nothing from outside in between, the later is the earlier with changes made to
  // it in order, each the change some call asked for; and of acknowledged calls
  // only, as long as every save was heard of.
  lemma CommittedHistoryIsAFold<M(!new), C(!new)>(w0: World<M, C>, run: seq<Action<M, C>>, w: World<M, C>, i: nat, j: nat)
    requires Reaches(w0, run, w) && i <= j < |w.history|
    requires forall k :: i < k <= j ==> !FromOutside(w.history[k].origin)
    ensures var cs := Between(w.history, i + 1, j + 1);
      && Leads(w.kit, w.history[i].content, cs, w.history[j].content)
      && forall n :: 0 <= n < |cs| ==> Accounted(w0, run, w, cs[n])
  {
    assert Reachable(w);
    HistoryIsAFold(w, i, j);
    var cs := Between(w.history, i + 1, j + 1);
    forall n | 0 <= n < |cs| ensures Accounted(w0, run, w, cs[n]) {
      var m := PartOfAll(w.history, i + 1, j + 1, n);
      AllAccounted(w0, run, w, m);
    }
  }

  lemma AllAccounted<M(!new), C(!new)>(w0: World<M, C>, run: seq<Action<M, C>>, w: World<M, C>, m: nat)
    requires Reaches(w0, run, w) && m < |AllChanges(w.history)|
    ensures Accounted(w0, run, w, AllChanges(w.history)[m])
  {
    EveryChangeWasAskedFor(w0, run, w);
    if Heard(run) {
      RecordedIsAcknowledged(w0, run, w);
      assert Made(AllChanges(w.history), AllChanges(w.history)[m].id);
    }
  }

  lemma {:induction false} PartOfAll<M(!new), C(!new)>(h: seq<Commit<M, C>>, i: nat, n: nat, p: nat) returns (m: nat)
    requires n <= |h| && p < |Between(h, i, n)|
    ensures m < |AllChanges(h)| && AllChanges(h)[m] == Between(h, i, n)[p]
    decreases n
  {
    var above := Between(h, i, n - 1);
    if p < |above| {
      m := PartOfAll(h, i, n - 1, p);
    } else {
      m := |Between(h, 0, n - 1)| + (p - |above|);
      BetweenGrows(h, n, |h|);
      assert Between(h, 0, n)[m] == AllChanges(h)[m];
    }
  }
}
