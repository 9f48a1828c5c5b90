// N replicas sharing one stored model (internal/store/store.go, secret.go).
//
// Each replica holds the model in memory together with the version it read it
// at. A change is made in memory, and the document is saved only if the stored
// version is still that one; on a conflict the replica reloads and runs the
// change again. Meanwhile a watch delivers stored documents, possibly older than
// what is held, in any order and any number of times.
//
// What a change does to a model is left to the kit: everything here holds for any
// lawful one. Every step other replicas can see is an action here, so a run is any
// interleaving of them, with crashes, failed saves, saves that land although
// they are reported as failed, and documents written by hand or deleted.

module Protocol {
  import opened AccessModel
  import opened Folds

  // Opaque to the replicas: they only compare it and hand it back. Zero stands
  // for no version, which is what a document that does not exist yet has.
  type Version = nat
  const NONE: Version := 0

  datatype Origin<C> =
    | Founding                            // the empty store a first start writes
    | Edited                              // written from outside: by hand, or migrated from a file
    | Deleted                             // not a document: the one before it was taken away
    | Written(changes: seq<Stamped<C>>)      // by `mutate`

  // content is what the stored document decodes to: everything that is written
  // or read goes through a document, and a document written for a model decodes
  // to that model.
  datatype Commit<M, C> = Commit(content: M, version: Version, origin: Origin<C>)

  datatype Phase<C> =
    | Down
    | Creating                            // started on an absent store, about to create it
    | Idle
    | Saving(call: Stamped<C>, attempt: nat) // changed in memory, about to save
    | Reloading(call: Stamped<C>, attempt: nat)

  // base is the commit that `version` names. residue is what memory holds on top
  // of it although the call that made the change was told that it failed.
  datatype Replica<M, C> = Replica(phase: Phase<C>, model: M, version: Version, base: nat,
                                   residue: seq<Stamped<C>>, calls: nat)

  // unsaved: some save has failed without landing, so memory may be ahead.
  datatype World<!M, !C> = World(kit: Kit<M, C>, history: seq<Commit<M, C>>, replicas: seq<Replica<M, C>>,
                                 acked: set<CallId>, unsaved: bool)

  const MAX_WRITE_ATTEMPTS: nat := 5

  datatype Action<M, C> =
    | Start(r: nat)
    | StartEmpty(r: nat)
    | Create(r: nat, version: Version)
    | CreateFails(r: nat)
    | Crash(r: nat)
    | Edit(content: M, version: Version)
    | Delete(version: Version)            // a version nobody ever reads stands for its absence
    | Call(r: nat, change: C, now: Instant)
    | Save(r: nat, version: Version, told: bool)
    | SaveFails(r: nat)
    | Conflict(r: nat)
    | Reload(r: nat, now: Instant)
    | ReloadFails(r: nat)
    | Deliver(r: nat, k: nat)

  // ---- The steps ----

  ghost predicate Fresh<M, C>(w: World<M, C>, v: Version) {
    v != NONE && forall k :: 0 <= k < |w.history| ==> w.history[k].version != v
  }

  // A step by nobody's replica.
  predicate Outside(a: Action) { a.Edit? || a.Delete? }

  function Stored<M, C>(w: World<M, C>): Commit<M, C>
    requires w.history != []
  {
    w.history[|w.history| - 1]
  }

  // Commit k is a document.
  ghost predicate Readable<M, C>(w: World<M, C>, k: nat) { k < |w.history| && !w.history[k].origin.Deleted? }

  // There is nothing to read: never written, or deleted since.
  ghost predicate Absent<M, C>(w: World<M, C>) { w.history == [] || Stored(w).origin.Deleted? }

  // What the backend compares a version with.
  function StoredVersion<M, C>(w: World<M, C>): Version {
    if w.history == [] then NONE else Stored(w).version
  }

  function Put<M, C>(w: World<M, C>, r: nat, x: Replica<M, C>): World<M, C>
    requires r < |w.replicas|
  {
    w.(replicas := w.replicas[r := x])
  }

  ghost predicate Enabled<M, C>(w: World<M, C>, a: Action<M, C>) {
    match a
    case Edit(content, version) => Fresh(w, version)
    case Delete(version) => !Absent(w) && Fresh(w, version)
    case Start(r) => r < |w.replicas| && w.replicas[r].phase.Down? && !Absent(w)
    case StartEmpty(r) => r < |w.replicas| && w.replicas[r].phase.Down? && Absent(w)
    case Create(r, version) => r < |w.replicas| && w.replicas[r].phase.Creating? && Absent(w) && Fresh(w, version)
    case CreateFails(r) => r < |w.replicas| && w.replicas[r].phase.Creating?
    case Crash(r) => r < |w.replicas|
    case Call(r, change, now) => r < |w.replicas| && w.replicas[r].phase.Idle?
    case Save(r, version, told) => r < |w.replicas| && w.replicas[r].phase.Saving?
                                   && w.replicas[r].version == StoredVersion(w) && Fresh(w, version)
    case SaveFails(r) => r < |w.replicas| && w.replicas[r].phase.Saving?
    case Conflict(r) => r < |w.replicas| && w.replicas[r].phase.Saving? && w.replicas[r].version != StoredVersion(w)
    case Reload(r, now) => r < |w.replicas| && w.replicas[r].phase.Reloading? && !Absent(w)
    case ReloadFails(r) => r < |w.replicas| && w.replicas[r].phase.Reloading?
    case Deliver(r, k) => r < |w.replicas| && w.replicas[r].phase.Idle? && Readable(w, k)
  }

  // Memory replaced by commit k.
  function Loaded<M, C>(w: World<M, C>, x: Replica<M, C>, k: nat): Replica<M, C>
    requires k < |w.history|
  {
    x.(model := w.history[k].content, version := w.history[k].version, base := k, residue := [])
  }

  // The change run on what memory holds: only a change with something to write
  // goes on to save.
  function Ran<M, C>(kit: Kit<M, C>, x: Replica<M, C>, call: Stamped<C>, attempt: nat): Replica<M, C> {
    var e := kit.apply(call.change, call.now, x.model);
    x.(model := e.model, phase := if e.outcome == Write then Saving(call, attempt) else Idle)
  }

  // The call ends with an error and memory keeps its change.
  function GaveUp<M, C>(x: Replica<M, C>): Replica<M, C>
    requires x.phase.Saving? || x.phase.Reloading?
  {
    x.(phase := Idle, residue := x.residue + [x.phase.call])
  }

  // The document lands; the caller may or may not hear of it.
  ghost function Saved<M, C>(w: World<M, C>, r: nat, version: Version, told: bool): World<M, C>
    requires r < |w.replicas| && w.replicas[r].phase.Saving?
  {
    var x := w.replicas[r];
    var c := Commit(x.model, version, Written(x.residue + [x.phase.call]));
    var x' := if told then x.(phase := Idle, version := version, base := |w.history|, residue := []) else GaveUp(x);
    World(w.kit, w.history + [c], w.replicas[r := x'], w.acked + if told then {x.phase.call.id} else {}, w.unsaved)
  }

  ghost function Created<M, C>(w: World<M, C>, r: nat, version: Version): World<M, C>
    requires r < |w.replicas|
  {
    var x := w.replicas[r].(phase := Idle, version := version, base := |w.history|);
    Put(w.(history := w.history + [Commit(x.model, version, Founding)]), r, x)
  }

  function Calling<M, C>(kit: Kit<M, C>, r: nat, x: Replica<M, C>, change: C, now: Instant): Replica<M, C> {
    Ran(kit, x.(calls := x.calls + 1), Stamped(CallId(r, x.calls), change, now), 0)
  }

  function Conflicted<M, C>(x: Replica<M, C>): Replica<M, C>
    requires x.phase.Saving?
  {
    if x.phase.attempt + 1 >= MAX_WRITE_ATTEMPTS then GaveUp(x)
    else x.(phase := Reloading(x.phase.call, x.phase.attempt + 1))
  }

  ghost function After<M, C>(w: World<M, C>, a: Action<M, C>): World<M, C>
    requires Enabled(w, a)
  {
    match a
    case Edit(content, version) => w.(history := w.history + [Commit(content, version, Edited)])
    case Delete(version) => w.(history := w.history + [Commit(w.kit.empty, version, Deleted)])
    case Start(r) => Put(w, r, Loaded(w, w.replicas[r].(phase := Idle), |w.history| - 1))
    case StartEmpty(r) => Put(w, r, w.replicas[r].(phase := Creating, model := w.kit.empty, version := NONE, residue := []))
    case Create(r, version) => Created(w, r, version)
    case CreateFails(r) => Put(w, r, w.replicas[r].(phase := Down))
    case Crash(r) => Put(w, r, w.replicas[r].(phase := Down))
    case Call(r, change, now) => Put(w, r, Calling(w.kit, r, w.replicas[r], change, now))
    case Save(r, version, told) => Saved(w, r, version, told)
    case SaveFails(r) => Put(w.(unsaved := true), r, GaveUp(w.replicas[r]))
    case Conflict(r) => Put(w, r, Conflicted(w.replicas[r]))
    case Reload(r, now) =>
      var x := w.replicas[r];
      Put(w, r, Ran(w.kit, Loaded(w, x, |w.history| - 1), x.phase.call.(now := now), x.phase.attempt))
    case ReloadFails(r) => Put(w, r, GaveUp(w.replicas[r]))
    case Deliver(r, k) =>
      var x := w.replicas[r];
      if x.version == w.history[k].version then w else Put(w, r, Loaded(w, x, k))
  }

  // ---- The invariant ----

  function Pending<M, C>(x: Replica<M, C>): seq<Stamped<C>> {
    if x.phase.Saving? || x.phase.Reloading? then [x.phase.call] else []
  }

  predicate Up<M, C>(x: Replica<M, C>) { !x.phase.Down? && !x.phase.Creating? }

  function ChangesOf<C>(o: Origin<C>): seq<Stamped<C>> { if o.Written? then o.changes else [] }

  // The changes in commits i to n - 1, in order.
  function Between<M, C>(h: seq<Commit<M, C>>, i: nat, n: nat): seq<Stamped<C>>
    requires n <= |h|
  {
    if n <= i then [] else Between(h, i, n - 1) + ChangesOf(h[n - 1].origin)
  }

  // Every change in the committed history.
  function AllChanges<M, C>(h: seq<Commit<M, C>>): seq<Stamped<C>> { Between(h, 0, |h|) }

  ghost predicate Made<C>(cs: seq<Stamped<C>>, id: CallId) {
    exists i :: 0 <= i < |cs| && cs[i].id == id
  }

  ghost predicate Committed<M, C>(h: seq<Commit<M, C>>, id: CallId) { Made(AllChanges(h), id) }

  // Commit k is the save that answered call id.
  ghost predicate Answers<M, C>(h: seq<Commit<M, C>>, k: nat, id: CallId) {
    k < |h| && var cs := ChangesOf(h[k].origin); cs != [] && cs[|cs| - 1].id == id
  }

  ghost predicate Answered<M, C>(h: seq<Commit<M, C>>, id: CallId) { exists k: nat :: Answers(h, k, id) }

  // While no save has failed, every commit is one call's change and no more.
  ghost predicate SoleChanges<M, C>(h: seq<Commit<M, C>>) {
    forall k :: 0 <= k < |h| ==> |ChangesOf(h[k].origin)| <= 1
  }

  ghost predicate DistinctIds<C>(cs: seq<Stamped<C>>) {
    forall i, j :: 0 <= i < j < |cs| ==> cs[i].id != cs[j].id
  }

  // Replica r's own calls, oldest first.
  ghost predicate OwnCalls<C>(cs: seq<Stamped<C>>, r: nat, calls: nat) {
    && (forall i :: 0 <= i < |cs| ==> cs[i].id.replica == r && cs[i].id.serial < calls)
    && forall i, j :: 0 <= i < j < |cs| ==> cs[i].id.serial < cs[j].id.serial
  }

  // No later version of the document has been stored.
  predicate Current<M, C>(w: World<M, C>, x: Replica<M, C>) { x.base == |w.history| - 1 }

  // Memory is the document stored under `version`, with the replica's own
  // unacknowledged changes on top: whether or not that version is the last one.
  ghost predicate Coherent<M, C>(w: World<M, C>, x: Replica<M, C>) {
    && x.base < |w.history| && x.version == w.history[x.base].version && !w.history[x.base].origin.Deleted?
    && Leads(w.kit, w.history[x.base].content, x.residue + Pending(x), x.model)
  }

  ghost predicate UpInv<M, C>(w: World<M, C>, r: nat, x: Replica<M, C>) {
    && Coherent(w, x)
    && OwnCalls(x.residue + Pending(x), r, x.calls)
    && (Current(w, x) ==> forall i :: 0 <= i < |x.residue| ==> !Committed(w.history, x.residue[i].id))
    && (Pending(x) != [] ==> !Committed(w.history, x.phase.call.id) && x.phase.attempt < MAX_WRITE_ATTEMPTS)
    && (x.phase.Reloading? ==> !Current(w, x) && x.phase.attempt >= 1)
    && (!w.unsaved && x.residue != [] ==> !Current(w, x))
  }

  ghost predicate ReplicaInv<M, C>(w: World<M, C>, r: nat)
    requires r < |w.replicas|
  {
    var x := w.replicas[r];
    && (Up(x) ==> UpInv(w, r, x))
    && (x.phase.Creating? ==> x.model == w.kit.empty && x.version == NONE && x.residue == [])
  }

  // Each document written by `mutate` is the one before it with the recorded
  // changes made to it. The empty store is only written where there was none.
  ghost predicate Link<M, C>(kit: Kit<M, C>, h: seq<Commit<M, C>>, k: nat)
    requires k < |h|
  {
    && (h[k].origin.Founding? ==> h[k].content == kit.empty && (k == 0 || h[k - 1].origin.Deleted?))
    && (h[k].origin.Deleted? ==> h[k].content == kit.empty)
    && (h[k].origin.Written? ==>
          && k > 0 && h[k].origin.changes != [] && !h[k - 1].origin.Deleted?
          && Leads(kit, h[k - 1].content, h[k].origin.changes, h[k].content))
  }

  ghost predicate HistoryInv<M, C>(kit: Kit<M, C>, h: seq<Commit<M, C>>) {
    && (forall i :: 0 <= i < |h| ==> h[i].version != NONE)
    && (forall i, j :: 0 <= i < j < |h| ==> h[i].version != h[j].version)
    && (forall k :: 0 <= k < |h| ==> Link(kit, h, k))
    && DistinctIds(AllChanges(h))
  }

  ghost predicate IdsInv<M, C>(w: World<M, C>) {
    && (forall i :: 0 <= i < |AllChanges(w.history)| ==>
          var id := AllChanges(w.history)[i].id;
          id.replica < |w.replicas| && id.serial < w.replicas[id.replica].calls)
    && (forall id :: id in w.acked ==> Answered(w.history, id))
  }

  ghost predicate Inv<M(!new), C(!new)>(w: World<M, C>) {
    && Lawful(w.kit)
    && HistoryInv(w.kit, w.history)
    && IdsInv(w)
    && (!w.unsaved ==> SoleChanges(w.history))
    && forall r :: 0 <= r < |w.replicas| ==> ReplicaInv(w, r)
  }

  // ---- Every step keeps it ----

  lemma MadeJoin<C>(a: seq<Stamped<C>>, b: seq<Stamped<C>>, id: CallId)
    ensures Made(a + b, id) <==> Made(a, id) || Made(b, id)
  {
    if Made(a, id) { var i :| 0 <= i < |a| && a[i].id == id; assert (a + b)[i].id == id; }
    if Made(b, id) { var i :| 0 <= i < |b| && b[i].id == id; assert (a + b)[|a| + i].id == id; }
  }

  lemma {:induction false} BetweenOfPrefix<M(!new), C(!new)>(h: seq<Commit<M, C>>, c: Commit<M, C>, i: nat, n: nat)
    requires n <= |h|
    ensures Between(h + [c], i, n) == Between(h, i, n)
  {
    if n > i { BetweenOfPrefix(h, c, i, n - 1); }
  }

  lemma CommitGrows<M(!new), C(!new)>(h: seq<Commit<M, C>>, c: Commit<M, C>)
    ensures AllChanges(h + [c]) == AllChanges(h) + ChangesOf(c.origin)
    ensures forall id :: Committed(h + [c], id) <==> Committed(h, id) || Made(ChangesOf(c.origin), id)
  {
    BetweenOfPrefix(h, c, 0, |h|);
    forall id ensures Committed(h + [c], id) <==> Committed(h, id) || Made(ChangesOf(c.origin), id) {
      MadeJoin(AllChanges(h), ChangesOf(c.origin), id);
    }
  }

  // A replica that changes without the history changing.
  lemma LocalStep<M(!new), C(!new)>(w: World<M, C>, r: nat, x: Replica<M, C>)
    requires Inv(w) && r < |w.replicas| && x.calls >= w.replicas[r].calls
    requires Up(x) ==> UpInv(w, r, x)
    requires x.phase.Creating? ==> x.model == w.kit.empty && x.version == NONE && x.residue == []
    ensures Inv(Put(w, r, x))
  {
    var w' := Put(w, r, x);
    forall q | 0 <= q < |w'.replicas| ensures ReplicaInv(w', q) {
      if q != r { assert ReplicaInv(w, q); }
    }
  }

  ghost predicate NoneCommitted<M, C>(h: seq<Commit<M, C>>, cs: seq<Stamped<C>>) {
    forall i :: 0 <= i < |cs| ==> !Committed(h, cs[i].id)
  }

  // A commit appended to the history, none of whose calls is in it already.
  lemma AppendHistory<M(!new), C(!new)>(kit: Kit<M, C>, h: seq<Commit<M, C>>, c: Commit<M, C>)
    requires HistoryInv(kit, h) && c.version != NONE
    requires forall k :: 0 <= k < |h| ==> h[k].version != c.version
    requires Link(kit, h + [c], |h|) && DistinctIds(ChangesOf(c.origin))
    requires NoneCommitted(h, ChangesOf(c.origin))
    ensures HistoryInv(kit, h + [c])
  {
    CommitGrows(h, c);
    var a, b := AllChanges(h), ChangesOf(c.origin);
    var all: seq<Stamped<C>> := a + b;
    forall i, j | 0 <= i < j < |all| ensures all[i].id != all[j].id {
      if i < |a| <= j { assert Made(a, a[i].id); }
    }
    forall k | 0 <= k < |h + [c]| ensures Link(kit, h + [c], k) {
      if k < |h| { assert Link(kit, h, k); }
    }
  }

  // w' is w with c appended and replica r, who made its changes, moved on.
  ghost predicate Appended<M, C>(w: World<M, C>, w': World<M, C>, c: Commit<M, C>, r: nat) {
    && w'.kit == w.kit && w'.history == w.history + [c] && w'.unsaved == w.unsaved
    && |w'.replicas| == |w.replicas|
    && (forall q :: 0 <= q < |w.replicas| && q != r ==> w'.replicas[q] == w.replicas[q])
    && (r < |w.replicas| ==> w'.replicas[r].calls == w.replicas[r].calls)
    && (ChangesOf(c.origin) != [] ==> r < |w.replicas| && OwnCalls(ChangesOf(c.origin), r, w.replicas[r].calls))
  }

  // The other replicas: their version is superseded, and nothing else changes.
  lemma AppendOthers<M(!new), C(!new)>(w: World<M, C>, w': World<M, C>, c: Commit<M, C>, r: nat, q: nat)
    requires Appended(w, w', c, r) && q < |w.replicas| && q != r && ReplicaInv(w, q)
    ensures ReplicaInv(w', q)
  {
    CommitGrows(w.history, c);
    var x := w.replicas[q];
    if Up(x) && Pending(x) != [] {
      assert (x.residue + Pending(x))[|x.residue|].id.replica == q;
      assert !Made(ChangesOf(c.origin), x.phase.call.id);
    }
  }

  lemma AppendStep<M(!new), C(!new)>(w: World<M, C>, w': World<M, C>, c: Commit<M, C>, r: nat)
    requires Inv(w) && Appended(w, w', c, r) && HistoryInv(w.kit, w'.history)
    requires forall id :: id in w'.acked ==> id in w.acked || Answers(w'.history, |w.history|, id)
    requires !w.unsaved ==> |ChangesOf(c.origin)| <= 1
    requires r < |w'.replicas| ==> ReplicaInv(w', r)
    ensures Inv(w')
  {
    CommitGrows(w.history, c);
    forall q | 0 <= q < |w'.replicas| ensures ReplicaInv(w', q) {
      if q != r { AppendOthers(w, w', c, r, q); }
    }
    forall id | id in w'.acked ensures Answered(w'.history, id) {
      if id in w.acked {
        var k: nat :| Answers(w.history, k, id);
        assert Answers(w'.history, k, id);
      }
    }
    assert IdsInv(w');
  }

  lemma DeleteKeeps<M(!new), C(!new)>(w: World<M, C>, version: Version)
    requires Inv(w) && Fresh(w, version)
    ensures Inv(w.(history := w.history + [Commit(w.kit.empty, version, Deleted)]))
  {
    var c := Commit(w.kit.empty, version, Deleted);
    AppendHistory(w.kit, w.history, c);
    AppendStep(w, w.(history := w.history + [c]), c, |w.replicas|);
  }

  lemma EditKeeps<M(!new), C(!new)>(w: World<M, C>, content: M, version: Version)
    requires Inv(w) && Fresh(w, version)
    ensures Inv(w.(history := w.history + [Commit(content, version, Edited)]))
  {
    var c := Commit(content, version, Edited);
    AppendHistory(w.kit, w.history, c);
    AppendStep(w, w.(history := w.history + [c]), c, |w.replicas|);
  }

  lemma CreateKeeps<M(!new), C(!new)>(w: World<M, C>, r: nat, version: Version)
    requires Inv(w) && Fresh(w, version) && Absent(w)
    requires r < |w.replicas| && w.replicas[r].phase.Creating?
    ensures Inv(Created(w, r, version))
  {
    assert ReplicaInv(w, r);
    var c := Commit(w.kit.empty, version, Founding);
    AppendHistory(w.kit, w.history, c);
    var w' := Created(w, r, version);
    var x := w'.replicas[r];
    assert x.residue + Pending(x) == [];
    LeadsNowhere(w.kit, x.model);
    AppendStep(w, w', c, r);
  }

  // The change run on a coherent memory.
  lemma RanKeeps<M(!new), C(!new)>(w: World<M, C>, r: nat, x: Replica<M, C>, call: Stamped<C>, attempt: nat,
                                   x': Replica<M, C>)
    requires Lawful(w.kit) && UpInv(w, r, x.(phase := Idle))
    requires call.id.replica == r && call.id.serial < x.calls && attempt < MAX_WRITE_ATTEMPTS
    requires forall i :: 0 <= i < |x.residue| ==> x.residue[i].id.serial < call.id.serial
    requires !Committed(w.history, call.id)
    requires x' == Ran(w.kit, x, call, attempt)
    ensures UpInv(w, r, x') && x'.calls == x.calls
  {
    assert x.residue + Pending(x.(phase := Idle)) == x.residue;
    LeadsOn(w.kit, x.residue, call, w.history[x.base].content, x.model);
    assert x'.phase.Idle? ==> x'.residue + Pending(x') == x.residue;
    assert Coherent(w, x');
    assert OwnCalls(x'.residue + Pending(x'), r, x.calls);
  }

  // A replica that is up, changed without the history changing.
  lemma UpStep<M(!new), C(!new)>(w: World<M, C>, r: nat, x: Replica<M, C>)
    requires Inv(w) && r < |w.replicas| && x.calls >= w.replicas[r].calls && UpInv(w, r, x) && Up(x)
    ensures Inv(Put(w, r, x))
  {
    LocalStep(w, r, x);
  }

  lemma IdleToCall<M(!new), C(!new)>(w: World<M, C>, r: nat, x: Replica<M, C>)
    requires x.phase.Idle? && UpInv(w, r, x)
    ensures UpInv(w, r, x.(calls := x.calls + 1))
    ensures forall i :: 0 <= i < |x.residue| ==> x.residue[i].id.serial < x.calls
  {
    assert x.residue + Pending(x) == x.residue;
  }

  lemma CallKeeps<M(!new), C(!new)>(w: World<M, C>, r: nat, change: C, now: Instant)
    requires Inv(w) && r < |w.replicas| && w.replicas[r].phase.Idle?
    ensures Inv(Put(w, r, Calling(w.kit, r, w.replicas[r], change, now)))
  {
    assert ReplicaInv(w, r);
    var x := w.replicas[r];
    IdleToCall(w, r, x);
    var x' := Calling(w.kit, r, x, change, now);
    assert x.(calls := x.calls + 1).(phase := Idle) == x.(calls := x.calls + 1);
    RanKeeps(w, r, x.(calls := x.calls + 1), Stamped(CallId(r, x.calls), change, now), 0, x');
    UpStep(w, r, x');
  }

  lemma CurrentByVersion<M(!new), C(!new)>(w: World<M, C>, x: Replica<M, C>)
    requires HistoryInv(w.kit, w.history) && Coherent(w, x)
    ensures x.version == StoredVersion(w) <==> Current(w, x)
  {
  }

  lemma SaveKeeps<M(!new), C(!new)>(w: World<M, C>, r: nat, version: Version, told: bool)
    requires Inv(w) && Fresh(w, version)
    requires r < |w.replicas| && w.replicas[r].phase.Saving? && w.replicas[r].version == StoredVersion(w)
    ensures Inv(Saved(w, r, version, told))
  {
    assert ReplicaInv(w, r);
    var x := w.replicas[r];
    CurrentByVersion(w, x);
    var c := Commit(x.model, version, Written(x.residue + [x.phase.call]));
    SavedHistory(w, r, x, c, c.origin.changes);
    if told { SavedTold(w, r, x, version); } else { SavedUntold(w, r, x, version); }
    SavedAppends(w, r, x, c, told);
    AppendStep(w, Saved(w, r, version, told), c, r);
  }

  lemma SavedAppends<M(!new), C(!new)>(w: World<M, C>, r: nat, x: Replica<M, C>, c: Commit<M, C>, told: bool)
    requires r < |w.replicas| && x == w.replicas[r] && x.phase.Saving?
    requires c == Commit(x.model, c.version, Written(x.residue + [x.phase.call]))
    requires OwnCalls(c.origin.changes, r, x.calls)
    ensures var w' := Saved(w, r, c.version, told);
      && Appended(w, w', c, r)
      && forall id :: id in w'.acked ==> id in w.acked || Answers(w'.history, |w.history|, id)
  {
  }

  lemma SavedChanges<M(!new), C(!new)>(w: World<M, C>, r: nat, x: Replica<M, C>)
    requires UpInv(w, r, x) && x.phase.Saving? && Current(w, x)
    ensures var cs := x.residue + [x.phase.call];
      && Leads(w.kit, w.history[x.base].content, cs, x.model)
      && OwnCalls(cs, r, x.calls) && DistinctIds(cs)
      && NoneCommitted(w.history, cs)
  {
    assert x.residue + [x.phase.call] == x.residue + Pending(x);
  }

  lemma SavedHistory<M(!new), C(!new)>(w: World<M, C>, r: nat, x: Replica<M, C>, c: Commit<M, C>, cs: seq<Stamped<C>>)
    requires HistoryInv(w.kit, w.history) && UpInv(w, r, x) && x.phase.Saving? && Current(w, x)
    requires cs == x.residue + [x.phase.call] && Fresh(w, c.version)
    requires c.content == x.model && c.origin == Written(cs)
    ensures HistoryInv(w.kit, w.history + [c])
    ensures OwnCalls(cs, r, x.calls)
  {
    SavedChanges(w, r, x);
    LinkNext(w.kit, w.history, c);
    AppendHistory(w.kit, w.history, c);
  }

  lemma LinkNext<M, C>(kit: Kit<M, C>, h: seq<Commit<M, C>>, c: Commit<M, C>)
    requires h != [] && !h[|h| - 1].origin.Deleted? && c.origin.Written? && c.origin.changes != []
    requires Leads(kit, h[|h| - 1].content, c.origin.changes, c.content)
    ensures Link(kit, h + [c], |h|)
  {
  }

  lemma SavedTold<M(!new), C(!new)>(w: World<M, C>, r: nat, x: Replica<M, C>, version: Version)
    requires r < |w.replicas| && x == w.replicas[r] && Lawful(w.kit) && UpInv(w, r, x) && x.phase.Saving?
    ensures ReplicaInv(Saved(w, r, version, true), r)
  {
    var x' := Saved(w, r, version, true).replicas[r];
    assert x'.residue + Pending(x') == [];
    LeadsNowhere(w.kit, x'.model);
  }

  lemma SavedUntold<M(!new), C(!new)>(w: World<M, C>, r: nat, x: Replica<M, C>, version: Version)
    requires r < |w.replicas| && x == w.replicas[r] && UpInv(w, r, x) && x.phase.Saving? && Current(w, x)
    ensures ReplicaInv(Saved(w, r, version, false), r)
  {
    var x' := Saved(w, r, version, false).replicas[r];
    assert x'.residue + Pending(x') == x.residue + Pending(x);
  }

  lemma GaveUpKeeps<M(!new), C(!new)>(w: World<M, C>, r: nat)
    requires Inv(w) && r < |w.replicas|
    requires var x := w.replicas[r]; Pending(x) != [] && (Current(w, x) ==> w.unsaved)
    ensures Inv(Put(w, r, GaveUp(w.replicas[r])))
  {
    assert ReplicaInv(w, r);
    var x := w.replicas[r];
    var x' := GaveUp(x);
    assert x'.residue + Pending(x') == x.residue + Pending(x);
    LocalStep(w, r, x');
  }

  lemma ConflictKeeps<M(!new), C(!new)>(w: World<M, C>, r: nat)
    requires Inv(w) && r < |w.replicas|
    requires w.replicas[r].phase.Saving? && w.replicas[r].version != StoredVersion(w)
    ensures Inv(Put(w, r, Conflicted(w.replicas[r])))
  {
    assert ReplicaInv(w, r);
    var x := w.replicas[r];
    CurrentByVersion(w, x);
    var x' := Conflicted(x);
    assert x'.residue + Pending(x') == x.residue + Pending(x);
    LocalStep(w, r, x');
  }

  lemma LoadedKeeps<M(!new), C(!new)>(w: World<M, C>, r: nat, x: Replica<M, C>, k: nat)
    requires Lawful(w.kit) && HistoryInv(w.kit, w.history) && Readable(w, k)
    ensures UpInv(w, r, Loaded(w, x, k).(phase := Idle))
  {
    var x' := Loaded(w, x, k).(phase := Idle);
    assert x'.residue + Pending(x') == [];
    LeadsNowhere(w.kit, x'.model);
  }

  // A call that is being retried, as new to the history as when it was made.
  ghost predicate Retriable<M, C>(w: World<M, C>, r: nat, call: Stamped<C>, calls: nat, attempt: nat) {
    call.id.replica == r && call.id.serial < calls && attempt < MAX_WRITE_ATTEMPTS && !Committed(w.history, call.id)
  }

  // The change run on a document just read.
  lemma ReloadedUp<M(!new), C(!new)>(w: World<M, C>, r: nat, x: Replica<M, C>, call: Stamped<C>, attempt: nat,
                                     x': Replica<M, C>)
    requires Lawful(w.kit) && UpInv(w, r, x.(phase := Idle)) && x.residue == []
    requires Retriable(w, r, call, x.calls, attempt) && x' == Ran(w.kit, x, call, attempt)
    ensures UpInv(w, r, x') && x'.calls == x.calls && Up(x')
  {
    RanKeeps(w, r, x, call, attempt, x');
  }

  lemma ReloadedLatest<M(!new), C(!new)>(w: World<M, C>, r: nat, x: Replica<M, C>, call: Stamped<C>, attempt: nat)
    requires Lawful(w.kit) && HistoryInv(w.kit, w.history) && !Absent(w)
    requires Retriable(w, r, call, x.calls, attempt)
    ensures UpInv(w, r, Ran(w.kit, Loaded(w, x, |w.history| - 1), call, attempt))
  {
    var loaded := Loaded(w, x, |w.history| - 1);
    LoadedKeeps(w, r, x, |w.history| - 1);
    ReloadedUp(w, r, loaded, call, attempt, Ran(w.kit, loaded, call, attempt));
  }

  lemma ReloadKeeps<M(!new), C(!new)>(w: World<M, C>, r: nat, x: Replica<M, C>, now: Instant)
    requires Inv(w) && r < |w.replicas| && x == w.replicas[r] && x.phase.Reloading? && !Absent(w)
    ensures Inv(Put(w, r, Ran(w.kit, Loaded(w, x, |w.history| - 1), x.phase.call.(now := now), x.phase.attempt)))
  {
    assert ReplicaInv(w, r);
    OwnPending(w, r, x);
    ReloadedLatest(w, r, x, x.phase.call.(now := now), x.phase.attempt);
    UpStep(w, r, Ran(w.kit, Loaded(w, x, |w.history| - 1), x.phase.call.(now := now), x.phase.attempt));
  }

  lemma OwnPending<M(!new), C(!new)>(w: World<M, C>, r: nat, x: Replica<M, C>)
    requires UpInv(w, r, x) && Pending(x) != []
    ensures Retriable(w, r, x.phase.call, x.calls, x.phase.attempt)
  {
    assert (x.residue + Pending(x))[|x.residue|] == x.phase.call;
  }

  lemma DownKeeps<M(!new), C(!new)>(w: World<M, C>, r: nat, x: Replica<M, C>)
    requires Inv(w) && r < |w.replicas| && x.calls == w.replicas[r].calls
    requires x.phase.Down? || (x.phase.Creating? && x.model == w.kit.empty && x.version == NONE && x.residue == [])
    ensures Inv(Put(w, r, x))
  {
    LocalStep(w, r, x);
  }

  lemma DeliverKeeps<M(!new), C(!new)>(w: World<M, C>, r: nat, x: Replica<M, C>, k: nat)
    requires Inv(w) && r < |w.replicas| && Readable(w, k)
    requires x == w.replicas[r].(phase := Idle)
    ensures Inv(Put(w, r, Loaded(w, x, k)))
  {
    LoadedKeeps(w, r, x, k);
    assert Loaded(w, x, k).(phase := Idle) == Loaded(w, x, k);
    LocalStep(w, r, Loaded(w, x, k));
  }

  lemma SaveFailsKeeps<M(!new), C(!new)>(w: World<M, C>, r: nat)
    requires Inv(w) && r < |w.replicas| && w.replicas[r].phase.Saving?
    ensures Inv(Put(w.(unsaved := true), r, GaveUp(w.replicas[r])))
  {
    RelaxUnsaved(w);
    GaveUpKeeps(w.(unsaved := true), r);
  }

  lemma ReloadFailsKeeps<M(!new), C(!new)>(w: World<M, C>, r: nat)
    requires Inv(w) && r < |w.replicas| && w.replicas[r].phase.Reloading?
    ensures Inv(Put(w, r, GaveUp(w.replicas[r])))
  {
    assert ReplicaInv(w, r);
    GaveUpKeeps(w, r);
  }

  // Inv holds after any step from a world where it holds.
  lemma StepKeepsInv<M(!new), C(!new)>(w: World<M, C>, a: Action<M, C>)
    requires Inv(w) && Enabled(w, a)
    ensures Inv(After(w, a))
  {
    match a {
      case Edit(content, version) => EditKeeps(w, content, version);
      case Delete(version) => DeleteKeeps(w, version);
      case Start(r) => DeliverKeeps(w, r, w.replicas[r].(phase := Idle), |w.history| - 1);
      case StartEmpty(r) =>
        DownKeeps(w, r, w.replicas[r].(phase := Creating, model := w.kit.empty, version := NONE, residue := []));
      case Create(r, version) => CreateKeeps(w, r, version);
      case CreateFails(r) => DownKeeps(w, r, w.replicas[r].(phase := Down));
      case Crash(r) => DownKeeps(w, r, w.replicas[r].(phase := Down));
      case Call(r, change, now) => CallKeeps(w, r, change, now);
      case Save(r, version, told) => SaveKeeps(w, r, version, told);
      case SaveFails(r) => SaveFailsKeeps(w, r);
      case Conflict(r) => ConflictKeeps(w, r);
      case Reload(r, now) => ReloadKeeps(w, r, w.replicas[r], now);
      case ReloadFails(r) => ReloadFailsKeeps(w, r);
      case Deliver(r, k) => DeliverKeeps(w, r, w.replicas[r].(phase := Idle), k);
    }
  }

  lemma RelaxUnsaved<M(!new), C(!new)>(w: World<M, C>)
    requires Inv(w)
    ensures Inv(w.(unsaved := true))
  {
    forall r | 0 <= r < |w.replicas| ensures ReplicaInv(w.(unsaved := true), r) {
      assert ReplicaInv(w, r);
    }
  }
}
