// The backend that keeps the access model in one Kubernetes Secret
// (internal/store/secret.go): every write names the version it is based on, and
// the API server refuses it if that is not the one stored.
//
// The world of the protocol rides along as ghost state. `Valid` says that what is
// stored is the last commit of its history, and every method says which of the
// protocol's steps the caller's replica took.

module SecretStore {
  import opened Prelude
  import opened AccessModel
  import opened Encoding
  import opened Changes
  import opened Protocol
  import opened StoreRuns

  type Shared = World<Model, Change>

  datatype Secret = Secret(data: File, resourceVersion: Version)

  datatype LoadResult = NotExist | Read(data: File, version: Version) | Unreadable
  datatype SaveResult = SavedAs(version: Version) | ErrConflict | Unsaved

  ghost predicate Steps(w: Shared, a: Action<Model, Change>, w': Shared) {
    Enabled(w, a) && w' == After(w, a)
  }

  // Steps of anybody but this replica.
  ghost predicate OthersRan(w: Shared, run: seq<Action<Model, Change>>, w': Shared, me: nat) {
    RunsBy(w, run, w') && forall i :: 0 <= i < |run| ==> Outside(run[i]) || run[i].r != me
  }

  // What the others may have done while this replica was not looking: anything.
  ghost predicate Meanwhile(w: Shared, w': Shared, me: nat) { exists run :: OthersRan(w, run, w', me) }

  lemma {:induction false} OthersLeaveItAlone(w: Shared, run: seq<Action<Model, Change>>, me: nat)
    requires Legal(w, run) && me < |w.replicas|
    requires forall i :: 0 <= i < |run| ==> Outside(run[i]) || run[i].r != me
    ensures var w' := End(w, run); |w'.replicas| == |w.replicas| && w'.replicas[me] == w.replicas[me]
    decreases |run|
  {
    if run != [] {
      assert Outside(run[0]) || run[0].r != me;
      OthersStep(w, me, run[0]);
      OthersLeaveItAlone(After(w, run[0]), run[1..], me);
    }
  }

  // Whatever they did, this replica is where it was and the history has only grown.
  lemma MeanwhileGrows(w: Shared, w': Shared, me: nat)
    requires Meanwhile(w, w', me) && me < |w.replicas|
    ensures Runs(w, w') && Grown(w, w') && w'.replicas[me] == w.replicas[me]
  {
    var run :| OthersRan(w, run, w', me);
    OthersLeaveItAlone(w, run, me);
    RunGrows(w, run);
  }

  // The version a save is based on is the one stored: none, for one that creates.
  ghost predicate Matches(w: Shared, me: nat)
    requires me < |w.replicas|
  {
    if w.replicas[me].phase.Creating? then Absent(w) else w.replicas[me].version == StoredVersion(w)
  }

  // What the caller is told, by whether the versions match and the request gets through.
  ghost predicate ToldOf(matches: bool, fate: Fate, r: SaveResult) {
    && (r.SavedAs? <==> matches && fate.Answered?)
    && (r.ErrConflict? <==> !matches && !fate.Lost?)
    && (r.Unsaved? <==> fate.Lost? || (matches && fate.Unheard?))
  }

  // How one write request may end, by what the replica was doing.
  ghost predicate SaveEnds(w: Shared, me: nat, r: SaveResult, w': Shared)
    requires me < |w.replicas|
  {
    if w.replicas[me].phase.Creating? then
      && (r.SavedAs? ==> Steps(w, Create(me, r.version), w'))
      && (r.ErrConflict? ==> !Absent(w) && Steps(w, CreateFails(me), w'))
      && (!r.SavedAs? ==> |w'.replicas| == |w.replicas| && w'.replicas[me].phase.Down?)
    else
      && (r.SavedAs? ==> Steps(w, Save(me, r.version, true), w'))
      && (r.ErrConflict? ==> Steps(w, Conflict(me), w'))
      && (r.Unsaved? ==> Steps(w, SaveFails(me), w') || exists v :: Steps(w, Save(me, v, false), w'))
  }

  // The secret holds the last commit of the history, and every version in it
  // came from the counter.
  ghost predicate Backs(w: Shared, secret: Option<Secret>, revision: nat) {
    && Reachable(w) && Inv(w) && w.kit == Access()
    && (secret.None? <==> Absent(w))
    && (secret.Some? ==> HoldsCommit(secret.value, Stored(w)))
    && forall k :: 0 <= k < |w.history| ==> w.history[k].version <= revision
  }

  ghost predicate HoldsCommit(s: Secret, c: Commit<Model, Change>) {
    Decode(s.data) == c.content && s.resourceVersion == c.version
  }

  lemma QuietStep(w: Shared, a: Action<Model, Change>, secret: Option<Secret>, revision: nat)
    requires Backs(w, secret, revision) && Enabled(w, a) && !Outside(a) && !a.Save? && !a.Create?
    ensures Backs(After(w, a), secret, revision)
  {
    hide Inv, Reachable;
    StepKeepsInv(w, a);
    StepReaches(w, a);
    assert After(w, a).history == w.history && After(w, a).kit == w.kit;
  }

  lemma WritingStep(w: Shared, a: Action<Model, Change>, data: File, secret: Option<Secret>, revision: nat)
    requires Backs(w, secret, revision) && Enabled(w, a) && (a.Save? || a.Create?) && a.version == revision + 1
    requires Decode(data) == w.replicas[a.r].model
    ensures Backs(After(w, a), Some(Secret(data, revision + 1)), revision + 1)
  {
    hide Inv, Reachable;
    StepKeepsInv(w, a);
    StepReaches(w, a);
    var w' := After(w, a);
    assert w'.kit == w.kit && w'.history[..|w.history|] == w.history;
    forall k | 0 <= k < |w'.history| ensures w'.history[k].version <= revision + 1 {
      if k < |w.history| { assert w'.history[k] == w.history[k]; }
    }
  }

  lemma StepReaches(w: Shared, a: Action<Model, Change>)
    requires Reachable(w) && Enabled(w, a)
    ensures Runs(w, After(w, a)) && Reachable(After(w, a))
  {
    OneStepRuns(w, a);
    ReachableOn(w, After(w, a));
  }

  // What the comparison of versions decides, for a replica about to save.
  lemma Comparing(w: Shared, me: nat, secret: Option<Secret>, revision: nat)
    requires Backs(w, secret, revision) && me < |w.replicas|
    requires w.replicas[me].phase.Saving? || w.replicas[me].phase.Creating?
    ensures Fresh(w, revision + 1)
    ensures w.replicas[me].phase.Creating? <==> w.replicas[me].version == NONE
    ensures secret.Some? ==> StoredVersion(w) == secret.value.resourceVersion
    ensures secret.None? && w.replicas[me].phase.Saving? ==> w.replicas[me].version != StoredVersion(w)
  {
    assert ReplicaInv(w, me);
    if w.replicas[me].phase.Saving? { CurrentByVersion(w, w.replicas[me]); }
  }

  class SecretBackend {
    var secret: Option<Secret>
    // The API server's counter, which every stored version comes from.
    var revision: nat

    ghost var world: Shared
    // Requests made so far.
    ghost var saves: nat
    ghost var loads: nat
    // What the last save was told.
    ghost var told: SaveResult

    ghost predicate Valid() reads this { Backs(world, secret, revision) }

    // A call is made, or a stored document is delivered by the watch: steps that
    // ask nothing of the backend.
    ghost method Note(a: Action<Model, Change>)
      requires Valid() && Enabled(world, a) && (a.Call? || a.Deliver?)
      modifies this`world
      ensures Valid() && Steps(old(world), a, world) && Runs(old(world), world)
    {
      Take(a);
    }

    // Anything other replicas, a watch or a hand on kubectl can do, between two
    // requests of this replica.
    method Others(ghost me: nat)
      requires Valid() && me < |world.replicas|
      modifies this
      ensures Valid() && Meanwhile(old(world), world, me)
      ensures saves == old(saves) && loads == old(loads) && told == old(told)
    {
      assert OthersRan(world, [], world, me);
    }

    // A replica starting up reads what is stored, or learns that nothing is, if it
    // is answered.
    method LoadAtStart(ghost me: nat, heard: bool) returns (r: LoadResult)
      requires Valid() && me < |world.replicas| && world.replicas[me].phase.Down?
      modifies this`world, this`loads
      ensures Valid() && loads == old(loads) + 1 && Runs(old(world), world)
      ensures r.Read? ==> Steps(old(world), Start(me), world) && Decode(r.data) == Stored(old(world)).content
                          && r.version == Stored(old(world)).version
      ensures r.NotExist? ==> Steps(old(world), StartEmpty(me), world)
      ensures r.Unreadable? ==> world == old(world)
      ensures (r.Unreadable? <==> !heard) && (r.NotExist? <==> heard && Absent(old(world)))
    {
      loads := loads + 1;
      RunsNowhere(world);
      if !heard {
        r := Unreadable;
      } else if secret.None? {
        r := NotExist;
        Take(StartEmpty(me));
      } else {
        r := Read(secret.value.data, secret.value.resourceVersion);
        Take(Start(me));
      }
    }

    // A replica in the middle of a write reads what has been stored since. The
    // change it is making is run again on that, at `now`.
    method LoadAgain(ghost me: nat, heard: bool, ghost now: Instant) returns (r: LoadResult)
      requires Valid() && me < |world.replicas| && world.replicas[me].phase.Reloading?
      modifies this`world, this`loads
      ensures Valid() && loads == old(loads) + 1 && Runs(old(world), world)
      ensures r.Read? ==> Steps(old(world), Reload(me, now), world) && Decode(r.data) == Stored(old(world)).content
                          && r.version == Stored(old(world)).version
      ensures !r.Read? ==> Steps(old(world), ReloadFails(me), world)
      ensures r.Read? <==> heard && !Absent(old(world))
    {
      loads := loads + 1;
      if !heard || secret.None? {
        r := if heard then NotExist else Unreadable;
        Take(ReloadFails(me));
      } else {
        r := Read(secret.value.data, secret.value.resourceVersion);
        Take(Reload(me, now));
      }
    }

    // The document is written if the version it is based on is the one stored:
    // none at all, for a replica that found nothing and creates it.
    method Save(data: File, version: Version, fate: Fate, ghost me: nat) returns (r: SaveResult)
      requires Valid() && me < |world.replicas|
      requires world.replicas[me].phase.Saving? || world.replicas[me].phase.Creating?
      requires Decode(data) == world.replicas[me].model && version == world.replicas[me].version
      modifies this
      ensures Valid() && saves == old(saves) + 1 && loads == old(loads)
      ensures SaveEnds(old(world), me, r, world) && Runs(old(world), world)
      ensures ToldOf(Matches(old(world), me), fate, r) && told == r
      ensures old(world).replicas[me].phase.Saving? && fate.Lost? ==> Steps(old(world), SaveFails(me), world)
    {
      hide Inv, Reachable, Runs;
      saves := saves + 1;
      Comparing(world, me, secret, revision);
      ghost var saving := world.replicas[me].phase.Saving?;
      if fate.Lost? {
        r := Unsaved;
        Take(if saving then SaveFails(me) else CreateFails(me));
      } else if version == NONE && secret.Some? {
        // Another replica created it first.
        r := ErrConflict;
        Take(CreateFails(me));
      } else if version != NONE && (secret.None? || secret.value.resourceVersion != version) {
        r := ErrConflict;
        Take(Conflict(me));
      } else {
        r := Land(data, me, fate);
      }
      told := r;
    }

    method Land(data: File, ghost me: nat, fate: Fate) returns (r: SaveResult)
      requires Valid() && me < |world.replicas| && !fate.Lost?
      requires world.replicas[me].phase.Saving? || world.replicas[me].phase.Creating?
      requires Decode(data) == world.replicas[me].model
      requires if secret.None? then world.replicas[me].phase.Creating? else world.replicas[me].version == StoredVersion(world)
      requires secret.Some? ==> world.replicas[me].phase.Saving?
      modifies this`secret, this`revision, this`world
      ensures Valid() && SaveEnds(old(world), me, r, world) && Runs(old(world), world)
      ensures r == if fate.Answered? then SavedAs(old(revision) + 1) else Unsaved
    {
      hide Inv, Reachable, Runs;
      ghost var w, next := world, revision + 1;
      Comparing(w, me, secret, revision);
      ghost var step := if w.replicas[me].phase.Saving? then Action.Save(me, next, fate.Answered?) else Create(me, next);
      WritingStep(w, step, data, secret, revision);
      revision := revision + 1;
      secret := Some(Secret(data, revision));
      world := After(w, step);
      StepReaches(w, step);
      if fate.Unheard? {
        r := Unsaved;
        if step.Create? {
          ghost var created := world;
          Take(Crash(me));
          RunsOn(w, created, world);
        }
      } else {
        r := SavedAs(revision);
      }
    }

    ghost method Take(a: Action<Model, Change>)
      requires Valid() && Enabled(world, a) && !Outside(a) && !a.Save? && !a.Create?
      modifies this`world
      ensures Valid() && Steps(old(world), a, world) && Runs(old(world), world)
    {
      hide Inv, Reachable, Runs;
      StepReaches(world, a);
      QuietStep(world, a, secret, revision);
      world := After(world, a);
    }
  }
}
