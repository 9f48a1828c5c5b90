// What one call to the store comes to: what it tells its caller, and what the
// protocol has to show for it (internal/store/store.go, roles.go).

module Calls {
  import opened AccessModel
  import opened Folds
  import opened Changes
  import opened Sorting
  import opened Membership
  import opened Protocol
  import opened Failures
  import opened SecretStore
  import opened StoreRuns

  // What a change tells its caller besides whether it was made.
  datatype Report = NoReport | Seeded(seeded: bool) | Affected(usernames: seq<string>) | Members(members: Membership)

  datatype Answer = Saved | Unchanged | NotDone(why: Refusal) | Conflicting | Failed

  // ---- What is reported of a change made to a model ----

  function Usernames(users: map<string, User>, keys: seq<string>): seq<string>
    requires forall k :: k in keys ==> k in users
  {
    if keys == [] then []
    else
      var n := |keys| - 1;
      assert keys[n] in keys;
      Usernames(users, keys[..n]) + [users[keys[n]].username]
  }

  // keys names once each user among those given who holds the role.
  ghost predicate HoldersAmong(users: map<string, User>, role: string, among: set<string>, keys: seq<string>) {
    && Distinct(keys)
    && forall k :: k in keys <==> k in among && k in users && role in users[k].roles
  }

  ghost predicate ListsHolders(users: map<string, User>, role: string, names: seq<string>) {
    Sorting.Sorted(names) && exists keys: seq<string> ::
      HoldersAmong(users, role, users.Keys, keys) && multiset(names) == multiset(Usernames(users, keys))
  }

  ghost function Holders(users: map<string, User>, role: string): set<string> {
    set k | k in users && role in users[k].roles
  }

  lemma {:induction false} UsernameOf(users: map<string, User>, keys: seq<string>)
    requires forall k :: k in keys ==> k in users
    ensures |Usernames(users, keys)| == |keys|
    ensures forall i :: 0 <= i < |keys| ==> keys[i] in users && Usernames(users, keys)[i] == users[keys[i]].username
  {
    if keys != [] {
      var n := |keys| - 1;
      UsernameOf(users, keys[..n]);
      assert forall i :: 0 <= i < n ==> keys[..n][i] == keys[i];
      assert keys[n] in keys;
    }
  }

  lemma {:induction false} DistinctSize(keys: seq<string>, names: set<string>)
    requires Distinct(keys) && forall k :: k in keys <==> k in names
    ensures |keys| == |names|
  {
    if keys == [] {
      assert names == {};
    } else {
      var n := |keys| - 1;
      assert keys == keys[..n] + [keys[n]];
      assert keys[n] !in keys[..n];
      DistinctSize(keys[..n], names - {keys[n]});
    }
  }

  // Who is listed: the names of the users that hold the role, each user once.
  lemma HoldersAreListed(users: map<string, User>, role: string, names: seq<string>)
    requires ListsHolders(users, role, names)
    ensures forall name :: name in names <==> exists k :: k in Holders(users, role) && users[k].username == name
    ensures |names| == |Holders(users, role)|
  {
    var keys: seq<string> :| HoldersAmong(users, role, users.Keys, keys) && multiset(names) == multiset(Usernames(users, keys));
    var listed := Usernames(users, keys);
    UsernameOf(users, keys);
    InSameMultiset(names, listed);
    DistinctSize(keys, Holders(users, role));
    forall k | k in Holders(users, role) ensures users[k].username in listed {
      var i :| 0 <= i < |keys| && keys[i] == k;
      assert listed[i] == users[k].username;
    }
    forall name | name in listed ensures exists k :: k in Holders(users, role) && users[k].username == name {
      var i :| 0 <= i < |listed| && listed[i] == name;
      assert keys[i] in keys;
    }
  }

  ghost predicate Describes(c: Change, m: Model, report: Report) {
    match c
    case SeedRoles(_) => report == Seeded(|m.roles| == 0)
    case DeleteRole(name) =>
      report.Affected? && if name in m.roles then ListsHolders(m.users, name, report.usernames) else report.usernames == []
    case ChangeMembership(role, usernames, add) =>
      report == Members(if role in m.roles then SortedReport(Sift(m.users, role, usernames, add)) else Membership([], [], []))
    case _ => report == NoReport
  }

  // ---- A call, as the protocol sees it ----

  // The change is about to be run on memory, where the world has it already run.
  ghost predicate Poised(w: Shared, me: nat, call: Stamped<Change>, attempt: nat, memory: Model, version: Version) {
    && me < |w.replicas| && call.id !in w.acked
    && var x, e := w.replicas[me], Apply(call.change, call.now, memory);
    && x.model == e.model && x.version == version && x.calls == call.id.serial + 1
    && x.phase == (if e.outcome == Write then Saving(call, attempt) else Idle)
    && x.base < |w.history| && Leads(w.kit, w.history[x.base].content, x.residue, memory)
  }

  // How the call ended, for memory as the last run of its change left it.
  ghost predicate Ends(c: Change, now: Instant, base: Model, answer: Answer, memory: Model) {
    Apply(c, now, base) == Effect(memory,
      match answer
      case Unchanged => NoChange
      case NotDone(why) => Refused(why)
      case _ => Write)
  }

  // This replica, in the given phase of call number `serial`.
  ghost predicate Stands(w: Shared, me: nat, phase: Phase<Change>, memory: Model, version: Version) {
    && me < |w.replicas| && w.replicas[me].phase == phase
    && w.replicas[me].model == memory && w.replicas[me].version == version
  }

  lemma ConflictStands(w: Shared, me: nat, call: Stamped<Change>, attempt: nat, memory: Model, version: Version)
    requires Stands(w, me, Saving(call, attempt), memory, version) && Enabled(w, Conflict(me))
    ensures Stands(After(w, Conflict(me)), me, if attempt + 1 >= MAX_WRITE_ATTEMPTS then Idle else Reloading(call, attempt + 1),
                   memory, version)
    ensures After(w, Conflict(me)).replicas[me].calls == w.replicas[me].calls
    ensures version != StoredVersion(After(w, Conflict(me)))
  {
  }

  lemma SaveStands(w: Shared, me: nat, call: Stamped<Change>, attempt: nat, memory: Model, version: Version, next: Version, told: bool)
    requires Stands(w, me, Saving(call, attempt), memory, version) && Enabled(w, Save(me, next, told))
    ensures Stands(After(w, Save(me, next, told)), me, Idle, memory, if told then next else version)
    ensures After(w, Save(me, next, told)).replicas[me].calls == w.replicas[me].calls
  {
  }

  lemma SaveFailsStands(w: Shared, me: nat, call: Stamped<Change>, attempt: nat, memory: Model, version: Version)
    requires Stands(w, me, Saving(call, attempt), memory, version) && Enabled(w, SaveFails(me))
    ensures Stands(After(w, SaveFails(me)), me, Idle, memory, version)
    ensures After(w, SaveFails(me)).replicas[me].calls == w.replicas[me].calls
  {
  }

  lemma StartStands(w: Shared, me: nat)
    requires Enabled(w, Start(me))
    ensures Stands(After(w, Start(me)), me, Idle, Stored(w).content, Stored(w).version)
  {
  }

  lemma CreateStands(w: Shared, me: nat, version: Version)
    requires Enabled(w, Create(me, version))
    ensures Stands(After(w, Create(me, version)), me, Idle, w.replicas[me].model, version)
  {
  }

  lemma DeliverStands(w: Shared, me: nat, k: nat, memory: Model, version: Version)
    requires Stands(w, me, Idle, memory, version) && Enabled(w, Deliver(me, k))
    ensures var c := w.history[k];
      Stands(After(w, Deliver(me, k)), me, Idle, if c.version == version then memory else c.content, c.version)
  {
  }

  // What is acknowledged is committed, so a call is not while it is in progress.
  lemma AckedIsCommitted(w: Shared, id: CallId)
    requires Inv(w) && id in w.acked
    ensures Committed(w.history, id)
  {
    var k: nat :| Answers(w.history, k, id);
    var i := LastChangeAt(w.history, k);
    assert Made(AllChanges(w.history), id);
  }

  lemma NotYetAcked(w: Shared, id: CallId)
    requires Inv(w) && !Committed(w.history, id)
    ensures id !in w.acked
  {
    if id in w.acked { AckedIsCommitted(w, id); }
  }

  lemma PendingNotAcked(w: Shared, me: nat)
    requires Inv(w) && me < |w.replicas| && Pending(w.replicas[me]) != []
    ensures w.replicas[me].phase.call.id !in w.acked
  {
    assert ReplicaInv(w, me);
    NotYetAcked(w, w.replicas[me].phase.call.id);
  }

  lemma NewCallNotAcked(w: Shared, me: nat)
    requires Inv(w) && me < |w.replicas|
    ensures CallId(me, w.replicas[me].calls) !in w.acked
  {
    NotYetAcked(w, CallId(me, w.replicas[me].calls));
  }

  lemma CallPoises(w: Shared, me: nat, change: Change, now: Instant)
    requires Inv(w) && w.kit == Access() && Enabled(w, Call(me, change, now))
    ensures var x := w.replicas[me];
      Poised(After(w, Call(me, change, now)), me, Stamped(CallId(me, x.calls), change, now), 0, x.model, x.version)
  {
    assert ReplicaInv(w, me);
    var x := w.replicas[me];
    assert x.residue + Pending(x) == x.residue;
    NewCallNotAcked(w, me);
  }

  lemma ReloadPoises(w: Shared, me: nat, now: Instant)
    requires Inv(w) && w.kit == Access() && Enabled(w, Reload(me, now))
    ensures var x := w.replicas[me];
      x.calls == x.phase.call.id.serial + 1 ==>
        Poised(After(w, Reload(me, now)), me, x.phase.call.(now := now), x.phase.attempt, Stored(w).content, Stored(w).version)
  {
    LeadsNowhere(w.kit, Stored(w).content);
    PendingNotAcked(w, me);
  }

  lemma MeanwhilePoised(w: Shared, w': Shared, me: nat, call: Stamped<Change>, attempt: nat, memory: Model, version: Version)
    requires Poised(w, me, call, attempt, memory, version) && Meanwhile(w, w', me)
    requires Inv(w') && Apply(call.change, call.now, memory).outcome == Write
    ensures Poised(w', me, call, attempt, memory, version)
  {
    MeanwhileGrows(w, w', me);
    PendingNotAcked(w', me);
  }

  // A commit that is this call's change made to `base`, which is the document
  // stored just before it, but for changes of this replica whose save had failed.
  ghost predicate Lands(before: Model, c: Commit<Model, Change>, id: CallId, change: Change, base: Model, memory: Model) {
    && c.content == memory && c.origin.Written? && c.origin.changes != []
    && var n := |c.origin.changes| - 1;
    && c.origin.changes[n].id == id && c.origin.changes[n].change == change
    && Leads(Access(), before, c.origin.changes[..n], base)
    && memory == Apply(change, c.origin.changes[n].now, base).model
  }

  // It is the last one, and the call has been told.
  ghost predicate Landed(w: Shared, me: nat, id: CallId, change: Change, base: Model, memory: Model) {
    && |w.history| > 1 && me < |w.replicas| && id in w.acked && Current(w, w.replicas[me])
    && Lands(w.history[|w.history| - 2].content, Stored(w), id, change, base, memory)
    && (!w.unsaved ==> |ChangesOf(Stored(w).origin)| == 1)
  }

  lemma CommitLands(before: Model, x: Replica<Model, Change>, call: Stamped<Change>, base: Model, next: Version)
    requires Leads(Access(), before, x.residue, base) && x.model == Apply(call.change, call.now, base).model
    ensures Lands(before, Commit(x.model, next, Written(x.residue + [call])), call.id, call.change, base, x.model)
  {
    var cs := x.residue + [call];
    assert cs[..|cs| - 1] == x.residue;
  }

  lemma LastLands(w: Shared, me: nat, h: seq<Commit<Model, Change>>, c: Commit<Model, Change>,
                  id: CallId, change: Change, base: Model, memory: Model)
    requires w.history == h + [c] && h != [] && me < |w.replicas| && w.replicas[me].base == |h| && id in w.acked
    requires Lands(h[|h| - 1].content, c, id, change, base, memory)
    requires !w.unsaved ==> |ChangesOf(c.origin)| == 1
    ensures Landed(w, me, id, change, base, memory)
  {
    assert w.history[|h| - 1] == h[|h| - 1];
  }

  lemma SaveAdds(w: Shared, me: nat, call: Stamped<Change>, attempt: nat, next: Version)
    requires me < |w.replicas| && w.replicas[me].phase == Saving(call, attempt) && Enabled(w, Save(me, next, true))
    ensures var x, w' := w.replicas[me], After(w, Save(me, next, true));
      && w'.history == w.history + [Commit(x.model, next, Written(x.residue + [call]))]
      && |w'.replicas| == |w.replicas| && w'.replicas[me].base == |w.history| && call.id in w'.acked && w'.unsaved == w.unsaved
  {
  }

  // The stored document is what base was made from.
  ghost predicate OnTop(w: Shared, x: Replica<Model, Change>, base: Model) {
    && w.history != [] && Leads(Access(), Stored(w).content, x.residue, base)
    && (!w.unsaved ==> x.residue == [])
  }

  lemma PoisedOnTop(w: Shared, me: nat, call: Stamped<Change>, attempt: nat, base: Model, version: Version)
    requires Poised(w, me, call, attempt, base, version) && w.kit == Access()
    requires HistoryInv(w.kit, w.history) && UpInv(w, me, w.replicas[me])
    requires w.replicas[me].version == StoredVersion(w)
    ensures OnTop(w, w.replicas[me], base)
  {
    CurrentByVersion(w, w.replicas[me]);
  }

  lemma OnTopLands(w: Shared, me: nat, call: Stamped<Change>, attempt: nat, base: Model, next: Version)
    requires me < |w.replicas| && OnTop(w, w.replicas[me], base)
    requires w.replicas[me].model == Apply(call.change, call.now, base).model
    requires w.replicas[me].phase == Saving(call, attempt) && Enabled(w, Save(me, next, true))
    ensures Landed(After(w, Save(me, next, true)), me, call.id, call.change, base, w.replicas[me].model)
  {
    var x := w.replicas[me];
    CommitLands(w.history[|w.history| - 1].content, x, call, base, next);
    SaveAdds(w, me, call, attempt, next);
    LastLands(After(w, Save(me, next, true)), me, w.history, Commit(x.model, next, Written(x.residue + [call])),
              call.id, call.change, base, x.model);
  }

  lemma SaveLands(w: Shared, me: nat, call: Stamped<Change>, attempt: nat, base: Model, version: Version, next: Version)
    requires Inv(w) && w.kit == Access() && Poised(w, me, call, attempt, base, version)
    requires w.replicas[me].phase == Saving(call, attempt) && Enabled(w, Save(me, next, true))
    ensures Landed(After(w, Save(me, next, true)), me, call.id, call.change, base, w.replicas[me].model)
  {
    assert ReplicaInv(w, me);
    PoisedOnTop(w, me, call, attempt, base, version);
    OnTopLands(w, me, call, attempt, base, next);
  }

  // The call is the last one this replica has made.
  ghost predicate CallsUpTo(w: Shared, me: nat, id: CallId) {
    me < |w.replicas| && w.replicas[me].calls == id.serial + 1
  }

  // What one attempt to save leaves behind: done and told so, failed with the
  // change still in memory, or refused because the document has moved on.
  ghost predicate Persisted(w: Shared, me: nat, call: Stamped<Change>, attempt: nat, base: Model, memory: Model,
                            version: Version, r: SaveResult)
  {
    && CallsUpTo(w, me, call.id) && (call.id in w.acked <==> r.SavedAs?)
    && match r
    case SavedAs(next) => Stands(w, me, Idle, memory, next) && Landed(w, me, call.id, call.change, base, memory)
    case Unsaved => Stands(w, me, Idle, memory, version)
    case ErrConflict =>
      && version != StoredVersion(w)
      && Stands(w, me, if attempt + 1 >= MAX_WRITE_ATTEMPTS then Idle else Reloading(call, attempt + 1), memory, version)
      && (attempt + 1 >= MAX_WRITE_ATTEMPTS ==> Forfeited(w, call.id))
  }

  lemma PoisedStands(w: Shared, me: nat, call: Stamped<Change>, attempt: nat, base: Model, memory: Model, version: Version)
    requires Poised(w, me, call, attempt, base, version) && Apply(call.change, call.now, base) == Effect(memory, Write)
    ensures Stands(w, me, Saving(call, attempt), memory, version)
  {
  }

  lemma ConflictLoses(w: Shared, me: nat)
    requires Inv(w) && Enabled(w, Conflict(me)) && w.replicas[me].phase.attempt + 1 >= MAX_WRITE_ATTEMPTS
    ensures Forfeited(After(w, Conflict(me)), w.replicas[me].phase.call.id)
  {
    assert ReplicaInv(w, me);
    CurrentByVersion(w, w.replicas[me]);
    GaveUpLoses(w, me);
  }

  lemma SavePersists(w: Shared, w': Shared, me: nat, call: Stamped<Change>, attempt: nat, base: Model, memory: Model,
                     version: Version, r: SaveResult)
    requires Inv(w) && w.kit == Access() && Poised(w, me, call, attempt, base, version)
    requires Apply(call.change, call.now, base) == Effect(memory, Write) && SaveEnds(w, me, r, w')
    ensures Persisted(w', me, call, attempt, base, memory, version, r)
  {
    PoisedStands(w, me, call, attempt, base, memory, version);
    match r
    case SavedAs(next) =>
      SaveLands(w, me, call, attempt, base, version, next);
      SaveStands(w, me, call, attempt, memory, version, next, true);
    case ErrConflict =>
      ConflictStands(w, me, call, attempt, memory, version);
      if attempt + 1 >= MAX_WRITE_ATTEMPTS { ConflictLoses(w, me); }
    case Unsaved =>
      if Steps(w, SaveFails(me), w') {
        SaveFailsStands(w, me, call, attempt, memory, version);
      } else {
        var v :| Steps(w, Save(me, v, false), w');
        SaveStands(w, me, call, attempt, memory, version, v, false);
      }
  }

  // What the caller is told, by what its last run came to and what its last save was
  // told: a save that was answered with success is reported as one, and a refused one
  // as a conflict only at the fifth attempt.
  ghost predicate Reported(answer: Answer, o: Outcome, told: SaveResult, last: bool) {
    && (answer.Unchanged? <==> o.NoChange?)
    && (answer.NotDone? <==> o.Refused?)
    && (answer.Saved? <==> o.Write? && told.SavedAs?)
    && (answer.Conflicting? <==> o.Write? && told.ErrConflict? && last)
    && (answer.Failed? <==> o.Write? && (told.Unsaved? || (told.ErrConflict? && !last)))
  }

  // What a call comes to: where it leaves the replica, what its last run did to
  // memory, and if it was saved, the commit it became.
  ghost predicate Finished(w: Shared, me: nat, id: CallId, change: Change, now: Instant, base: Model, answer: Answer,
                           memory: Model, version: Version)
  {
    && Stands(w, me, Idle, memory, version) && CallsUpTo(w, me, id) && Ends(change, now, base, answer, memory)
    && (answer.Saved? <==> id in w.acked)
    && (answer.Saved? ==> Landed(w, me, id, change, base, memory))
    && (answer.Conflicting? ==> version != StoredVersion(w) && Forfeited(w, id))
  }

  lemma QuietFinishes(w: Shared, me: nat, call: Stamped<Change>, attempt: nat, base: Model, version: Version, answer: Answer)
    requires Poised(w, me, call, attempt, base, version)
    requires var o := Apply(call.change, call.now, base).outcome;
      (o.NoChange? && answer == Unchanged) || (o.Refused? && answer == NotDone(o.why))
    ensures Finished(w, me, call.id, call.change, call.now, base, answer, Apply(call.change, call.now, base).model, version)
  {
  }

  lemma SaveFinishes(w: Shared, me: nat, call: Stamped<Change>, attempt: nat, base: Model, memory: Model,
                     version: Version, r: SaveResult)
    requires Persisted(w, me, call, attempt, base, memory, version, r)
    requires Apply(call.change, call.now, base) == Effect(memory, Write)
    ensures r.SavedAs? ==> Finished(w, me, call.id, call.change, call.now, base, Saved, memory, r.version)
    ensures r.Unsaved? ==> Finished(w, me, call.id, call.change, call.now, base, Failed, memory, version)
    ensures r.ErrConflict? && attempt + 1 >= MAX_WRITE_ATTEMPTS ==>
      Finished(w, me, call.id, call.change, call.now, base, Conflicting, memory, version)
    ensures r.ErrConflict? && attempt + 1 < MAX_WRITE_ATTEMPTS ==>
      Stands(w, me, Reloading(call, attempt + 1), memory, version) && CallsUpTo(w, me, call.id)
  {
  }

  lemma ReloadStands(w: Shared, w': Shared, me: nat, call: Stamped<Change>, attempt: nat, memory: Model, version: Version)
    requires Stands(w, me, Reloading(call, attempt), memory, version) && CallsUpTo(w, me, call.id)
    requires Meanwhile(w, w', me) && w.kit == Access() && Inv(w')
    ensures Enabled(w', ReloadFails(me)) && Stands(After(w', ReloadFails(me)), me, Idle, memory, version)
    ensures CallsUpTo(After(w', ReloadFails(me)), me, call.id) && call.id !in After(w', ReloadFails(me)).acked
    ensures forall now :: Enabled(w', Reload(me, now)) ==>
      Poised(After(w', Reload(me, now)), me, call.(now := now), attempt, Stored(w').content, Stored(w').version)
  {
    MeanwhileGrows(w, w', me);
    PendingNotAcked(w', me);
    forall now | Enabled(w', Reload(me, now)) { ReloadPoises(w', me, now); }
  }
}
