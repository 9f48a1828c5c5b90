// What becomes of a change whose call was told that it failed, and of a document
// that was deleted.

module Failures {
  import opened AccessModel
  import opened Folds
  import opened Protocol
  import opened StoreRuns
  import opened Provenance

  // ---- A change that can never be stored ----

  // Call id is over and not committed, and if its change is still in memory, then
  // on top of a version that is no longer the stored one.
  ghost predicate Forfeited<M, C>(w: World<M, C>, id: CallId) {
    && id.replica < |w.replicas| && !Committed(w.history, id)
    && ForfeitedAt(w, w.replicas[id.replica], id)
  }

  ghost predicate ForfeitedAt<M, C>(w: World<M, C>, x: Replica<M, C>, id: CallId) {
    && id.serial < x.calls
    && (Up(x) ==>
          && x.base < |w.history|
          && (Pending(x) != [] ==> x.phase.call.id != id)
          && (Made(x.residue, id) ==> !Current(w, x)))
  }

  // Its own replica cannot save it any more, and forgets it on the next read.
  lemma OwnStepLoses<M(!new), C(!new)>(w: World<M, C>, a: Action<M, C>, x: Replica<M, C>, id: CallId)
    requires Enabled(w, a) && !Outside(a) && a.r == id.replica && x == w.replicas[a.r] && ForfeitedAt(w, x, id)
    requires x.phase.Creating? ==> x.residue == []
    ensures ForfeitedAt(After(w, a), After(w, a).replicas[id.replica], id)
  {
    hide Committed;
    if Pending(x) != [] { MadeJoin(x.residue, [x.phase.call], id); }
  }

  lemma SaveLoses<M(!new), C(!new)>(w: World<M, C>, r: nat, x: Replica<M, C>, version: Version, id: CallId)
    requires x.phase.Saving? && Current(w, x) && !Committed(w.history, id)
    requires id.replica == r ==> ForfeitedAt(w, x, id)
    requires OwnCalls(x.residue + Pending(x), r, x.calls)
    ensures !Committed(w.history + [Commit(x.model, version, Written(x.residue + [x.phase.call]))], id)
  {
    var cs := x.residue + [x.phase.call];
    assert cs == x.residue + Pending(x);
    if id.replica == r { MadeJoin(x.residue, [x.phase.call], id); }
    CommitGrows(w.history, Commit(x.model, version, Written(cs)));
  }

  lemma SavingNow<M(!new), C(!new)>(w: World<M, C>, r: nat)
    requires Inv(w) && r < |w.replicas| && w.replicas[r].phase.Saving? && w.replicas[r].version == StoredVersion(w)
    ensures var x := w.replicas[r]; Current(w, x) && OwnCalls(x.residue + Pending(x), r, x.calls)
  {
    assert ReplicaInv(w, r);
    CurrentByVersion(w, w.replicas[r]);
  }

  lemma StepLoses<M(!new), C(!new)>(w: World<M, C>, a: Action<M, C>, id: CallId)
    requires Inv(w) && Forfeited(w, id) && Enabled(w, a)
    ensures Forfeited(After(w, a), id)
  {
    CreatingHoldsNothing(w);
    if a.Save? { SavingNow(w, a.r); }
    hide Inv, ForfeitedAt, Committed;
    if a.Save? { SaveLoses(w, a.r, w.replicas[a.r], a.version, id); } else { QuietLoses(w, a, id); }
    if !Outside(a) && a.r == id.replica {
      OwnStepLoses(w, a, w.replicas[a.r], id);
    } else {
      OthersStep(w, id.replica, a);
      StaysForfeited(w, After(w, a), w.replicas[id.replica], id);
    }
  }

  lemma StaysForfeited<M(!new), C(!new)>(w: World<M, C>, w': World<M, C>, x: Replica<M, C>, id: CallId)
    requires ForfeitedAt(w, x, id) && w.history <= w'.history
    ensures ForfeitedAt(w', x, id)
  {
  }

  lemma QuietLoses<M(!new), C(!new)>(w: World<M, C>, a: Action<M, C>, id: CallId)
    requires Enabled(w, a) && !a.Save? && !Committed(w.history, id)
    ensures !Committed(After(w, a).history, id)
  {
    var h := After(w, a).history;
    if h != w.history { CommitGrows(w.history, h[|h| - 1]); }
  }

  lemma {:induction false} ForfeitedForGood<M(!new), C(!new)>(w: World<M, C>, id: CallId, run: seq<Action<M, C>>)
    requires Inv(w) && Forfeited(w, id) && Legal(w, run)
    ensures Forfeited(End(w, run), id)
    decreases |run|
  {
    hide Inv, Forfeited;
    if run != [] {
      StepLoses(w, run[0], id);
      StepKeepsInv(w, run[0]);
      ForfeitedForGood(After(w, run[0]), id, run[1..]);
    }
  }

  // ---- Which failures leave it so ----

  lemma GaveUpLoses<M(!new), C(!new)>(w: World<M, C>, r: nat)
    requires Inv(w) && r < |w.replicas| && Pending(w.replicas[r]) != [] && !Current(w, w.replicas[r])
    ensures Forfeited(Put(w, r, GaveUp(w.replicas[r])), w.replicas[r].phase.call.id)
  {
    assert ReplicaInv(w, r);
    OwnPending(w, r, w.replicas[r]);
  }

  // A call that gives up on the fifth conflict, or because the store could not be
  // read again, is never stored, whatever happens afterwards.
  lemma ConflictingIsNeverStored<M(!new), C(!new)>(w: World<M, C>, a: Action<M, C>, run: seq<Action<M, C>>)
    requires Inv(w) && Enabled(w, a) && Legal(After(w, a), run)
    requires a.ReloadFails? || (a.Conflict? && w.replicas[a.r].phase.attempt + 1 >= MAX_WRITE_ATTEMPTS)
    ensures !Committed(End(After(w, a), run).history, w.replicas[a.r].phase.call.id)
  {
    assert ReplicaInv(w, a.r);
    CurrentByVersion(w, w.replicas[a.r]);
    GaveUpLoses(w, a.r);
    StepKeepsInv(w, a);
    ForfeitedForGood(After(w, a), w.replicas[a.r].phase.call.id, run);
  }

  // A save that failed on a version already superseded is lost like those.
  lemma FailedLateIsNeverStored<M(!new), C(!new)>(w: World<M, C>, r: nat, run: seq<Action<M, C>>)
    requires Inv(w) && Enabled(w, SaveFails(r)) && Legal(After(w, SaveFails(r)), run)
    requires w.replicas[r].version != StoredVersion(w)
    ensures !Committed(End(After(w, SaveFails(r)), run).history, w.replicas[r].phase.call.id)
  {
    assert ReplicaInv(w, r);
    CurrentByVersion(w, w.replicas[r]);
    var w1 := w.(unsaved := true);
    RelaxUnsaved(w);
    GaveUpLoses(w1, r);
    StepKeepsInv(w, SaveFails(r));
    ForfeitedForGood(After(w, SaveFails(r)), w.replicas[r].phase.call.id, run);
  }

  // ---- The failure that can surface ----

  // A save failed while its version was still the stored one. The next call of
  // that replica which has something to write stores both changes.
  lemma FailedRidesAlong<M(!new), C(!new)>(w: World<M, C>, r: nat, c: C, now: Instant, version: Version)
    returns (run: seq<Action<M, C>>)
    requires Inv(w) && Enabled(w, SaveFails(r)) && w.replicas[r].version == StoredVersion(w)
    requires forall m :: w.kit.apply(c, now, m).outcome == Write
    requires Fresh(w, version)
    ensures run == [Call(r, c, now), Save(r, version, true)] && Legal(After(w, SaveFails(r)), run)
    ensures var x, w' := w.replicas[r], End(After(w, SaveFails(r)), run);
      && w'.history != [] && w'.history == w.history + [Stored(w')]
      && ChangesOf(Stored(w').origin) == x.residue + [x.phase.call, Stamped(CallId(r, x.calls), c, now)]
      && Committed(w'.history, x.phase.call.id)
  {
    var w1 := After(w, SaveFails(r));
    var w2 := After(w1, Call(r, c, now));
    var save := Action.Save(r, version, true);
    var w3 := After(w2, save);
    run := [Call(r, c, now), save];
    OneStepRuns(w1, run[0]);
    OneStepRuns(w2, save);
    RunsJoin(w1, [run[0]], [save]);
    assert run == [run[0]] + [save];
    var x, call := w.replicas[r], Stamped(CallId(r, w.replicas[r].calls), c, now);
    assert x.residue + [x.phase.call] + [call] == x.residue + [x.phase.call, call];
    CommitGrows(w.history, Stored(w3));
    assert ChangesOf(Stored(w3).origin)[|x.residue|].id == x.phase.call.id;
  }

  lemma {:induction false} AboveAll<M(!new), C(!new)>(h: seq<Commit<M, C>>) returns (v: Version)
    ensures v != NONE && forall k :: 0 <= k < |h| ==> h[k].version < v
  {
    if h == [] {
      v := 1;
    } else {
      var n := |h| - 1;
      v := AboveAll(h[..n]);
      v := if h[n].version < v then v else h[n].version + 1;
      assert forall k :: 0 <= k < n ==> h[k] == h[..n][k];
    }
  }

  // A call in progress that ends without its caller being told that it succeeded.
  ghost predicate EndsUntold<M, C>(w: World<M, C>, a: Action<M, C>) {
    && Enabled(w, a) && !Outside(a) && Pending(w.replicas[a.r]) != []
    && (a.SaveFails? || a.ReloadFails? || a.Crash? || (a.Save? && !a.told)
        || (a.Conflict? && w.replicas[a.r].phase.attempt + 1 >= MAX_WRITE_ATTEMPTS))
  }

  ghost predicate MaySurface<M(!new), C(!new)>(w: World<M, C>, id: CallId) {
    exists run :: Legal(w, run) && Committed(End(w, run).history, id)
  }

  // Which of those changes can be stored nevertheless: exactly the one whose save
  // had landed unheard, and the one whose save failed on a version that was still
  // the stored one, provided that there is any change that always has to be written.
  lemma UntoldMaySurfaceIff<M(!new), C(!new)>(w: World<M, C>, a: Action<M, C>, c: C, now: Instant)
    requires Inv(w) && EndsUntold(w, a)
    requires forall m :: w.kit.apply(c, now, m).outcome == Write
    ensures MaySurface(After(w, a), w.replicas[a.r].phase.call.id) <==>
            a.Save? || (a.SaveFails? && w.replicas[a.r].version == StoredVersion(w))
  {
    var x, w1 := w.replicas[a.r], After(w, a);
    var id := x.phase.call.id;
    if a.Save? {
      LandedUnheard(w, a.r, a.version, id);
      assert Legal(w1, []) && End(w1, []) == w1;
    } else if a.SaveFails? && x.version == StoredVersion(w) {
      var version := AboveAll(w.history);
      var run := FailedRidesAlong(w, a.r, c, now, version);
    } else {
      forall run | Legal(w1, run) ensures !Committed(End(w1, run).history, id) {
        if a.SaveFails? {
          FailedLateIsNeverStored(w, a.r, run);
        } else if a.Crash? {
          CrashedIsNeverStored(w, a.r, run);
        } else {
          ConflictingIsNeverStored(w, a, run);
        }
      }
    }
  }

  lemma LandedUnheard<M(!new), C(!new)>(w: World<M, C>, r: nat, version: Version, id: CallId)
    requires Enabled(w, Save(r, version, false)) && id == w.replicas[r].phase.call.id
    ensures Committed(After(w, Save(r, version, false)).history, id)
  {
    var x := w.replicas[r];
    var cs := x.residue + [x.phase.call];
    CommitGrows(w.history, Commit(x.model, version, Written(cs)));
    assert cs[|x.residue|].id == id;
  }

  // What a replica has not saved when it goes down is gone.
  lemma CrashedIsNeverStored<M(!new), C(!new)>(w: World<M, C>, r: nat, run: seq<Action<M, C>>)
    requires Inv(w) && Enabled(w, Crash(r)) && Pending(w.replicas[r]) != [] && Legal(After(w, Crash(r)), run)
    ensures !Committed(End(After(w, Crash(r)), run).history, w.replicas[r].phase.call.id)
  {
    assert ReplicaInv(w, r);
    OwnPending(w, r, w.replicas[r]);
    StepKeepsInv(w, Crash(r));
    ForfeitedForGood(After(w, Crash(r)), w.replicas[r].phase.call.id, run);
  }

  // ---- A deleted document ----

  lemma AbsentRefuses<M(!new), C(!new)>(w: World<M, C>, r: nat)
    requires Inv(w) && Absent(w) && r < |w.replicas|
    ensures w.replicas[r].phase.Saving? ==> w.replicas[r].version != StoredVersion(w)
    ensures w.replicas[r].phase.Creating? ==> w.replicas[r].model == w.kit.empty
  {
    assert ReplicaInv(w, r);
    if w.replicas[r].phase.Saving? { CurrentByVersion(w, w.replicas[r]); }
  }

  // While there is no document, no replica that is up can store anything. Only one
  // that starts, or somebody from outside, brings a document back, and the one a
  // starting replica brings is the empty one.
  lemma DeletedIsNotWrittenBack<M(!new), C(!new)>(w: World<M, C>, a: Action<M, C>)
    requires Inv(w) && Absent(w) && Enabled(w, a)
    ensures Absent(After(w, a)) <==> !(a.Create? || a.Edit?)
    ensures !a.Create? && !a.Edit? ==> After(w, a).history == w.history
    ensures a.Create? ==> Stored(After(w, a)).content == w.kit.empty
  {
    if !Outside(a) { AbsentRefuses(w, a.r); }
    hide Inv;
  }

  // A call that has something to write while there is no document finds its save
  // refused and then nothing to reload, so it ends in an error: its change is
  // among those that are never stored.
  lemma CallOnAbsentFails<M(!new), C(!new)>(w: World<M, C>, r: nat)
    requires Inv(w) && Absent(w) && r < |w.replicas|
    ensures w.replicas[r].phase.Saving? ==> Enabled(w, Conflict(r)) && forall v, told :: !Enabled(w, Save(r, v, told))
    ensures w.replicas[r].phase.Reloading? ==> Enabled(w, ReloadFails(r)) && forall now :: !Enabled(w, Reload(r, now))
  {
    AbsentRefuses(w, r);
    hide Inv;
  }
}
