// One replica's store (internal/store/store.go, users.go, roles.go): the fields
// behind the lock, the changes made to them in place, and `mutate`, which makes a
// change, saves it, and starts over on a conflict.
//
// Every change is proved to do to the fields what `Apply` says of the model, and
// `Mutate` to take this replica through the protocol's steps and no others.

module AccessStore {
  import opened Prelude
  import opened AccessModel
  import opened Encoding
  import opened Folds
  import opened Changes
  import opened Effects
  import opened Sorting
  import opened Membership
  import opened Protocol
  import opened StoreRuns
  import opened SecretStore
  import opened Calls

  class Store {
    const backend: SecretBackend
    ghost const me: nat

    // What the backend held when this copy was read.
    var version: Version
    var users: map<string, User>
    var roles: map<string, RoleSpec>
    var lockouts: map<string, Time>

    constructor (b: SecretBackend, ghost id: nat)
      ensures backend == b && me == id && Memory() == EMPTY && version == NONE
    {
      backend, me := b, id;
      version, users, roles, lockouts := NONE, map[], map[], map[];
    }

    ghost function Memory(): Model reads this { Model(users, roles, lockouts) }

    // ---- Looking up ----

    method Get(username: string) returns (found: Option<User>)
      ensures found == Find(Memory(), username)
    {
      found := if Key(username) in users then Some(users[Key(username)]) else None;
    }

    // ---- Changes to users ----

    method RecordSeen(username: string, email: string, provider: string, groups: seq<string>,
                      initialRoles: seq<string>, now: Instant) returns (o: Outcome)
      modifies this`users
      ensures Effect(Memory(), o) == Apply(Change.RecordSeen(username, email, provider, groups, initialRoles), now, old(Memory()))
    {
      if Key(username) !in users {
        users := users[Key(username) := User(username, email, provider, groups, initialRoles, now, now, "", false)];
        return Write;
      }
      var u := users[Key(username)];
      var same := SameStrings(u.groups, groups);
      var changed := u.Invited() || u.email != email || u.provider != provider || !same;
      users := users[Key(username) := u.(username := username, email := email, provider := provider,
                                         groups := groups, lastSeen := now)];
      o := if changed then Write else NoChange;
    }

    method CreateLocalUser(username: string, email: string, passwordHash: string, rs: seq<string>, now: Instant)
      returns (o: Outcome)
      modifies this`users
      ensures Effect(Memory(), o) == Apply(Change.CreateLocalUser(username, email, passwordHash, rs), now, old(Memory()))
    {
      if Key(username) in users { return Refused(Exists); }
      users := users[Key(username) := User(username, email, "local", [], rs, now, NEVER, passwordHash, true)];
      o := Write;
    }

    method Invite(username: string, email: string, rs: seq<string>, now: Instant) returns (o: Outcome)
      modifies this`users
      ensures Effect(Memory(), o) == Apply(Change.Invite(username, email, rs), now, old(Memory()))
    {
      if Key(username) in users { return Refused(Exists); }
      users := users[Key(username) := User(username, email, "", [], rs, now, NEVER, "", false)];
      o := Write;
    }

    method SetPassword(username: string, passwordHash: string, ghost now: Instant) returns (o: Outcome)
      modifies this`users
      ensures Effect(Memory(), o) == Apply(Change.SetPassword(username, passwordHash), now, old(Memory()))
    {
      if Key(username) !in users { return Refused(NotFound); }
      if !users[Key(username)].managed { return Refused(NotManaged); }
      users := users[Key(username) := users[Key(username)].(passwordHash := passwordHash)];
      o := Write;
    }

    method SetRoles(username: string, rs: seq<string>, ghost now: Instant) returns (o: Outcome)
      modifies this`users
      ensures Effect(Memory(), o) == Apply(Change.SetRoles(username, rs), now, old(Memory()))
    {
      if Key(username) !in users { return Refused(NotFound); }
      users := users[Key(username) := users[Key(username)].(roles := rs)];
      o := Write;
    }

    method DeleteUser(username: string, ghost now: Instant) returns (o: Outcome)
      modifies this`users
      ensures Effect(Memory(), o) == Apply(Change.DeleteUser(username), now, old(Memory()))
    {
      if Key(username) !in users { return Refused(NotFound); }
      users := users - {Key(username)};
      o := Write;
    }

    // ---- Changes to lockouts ----

    method LockUntil(username: string, until: Time, now: Instant)
      modifies this`lockouts
      ensures Effect(Memory(), Write) == Apply(Change.LockUntil(username, until), now, old(Memory()))
    {
      PruneLockouts(now);
      lockouts := lockouts[Key(username) := until];
    }

    method Unlock(username: string, now: Instant) returns (o: Outcome)
      modifies this`lockouts
      ensures Effect(Memory(), o) == Apply(Change.Unlock(username), now, old(Memory()))
    {
      if Key(username) !in lockouts { return NoChange; }
      lockouts := lockouts - {Key(username)};
      PruneLockouts(now);
      o := Write;
    }

    method PruneLockouts(now: Instant)
      modifies this`lockouts
      ensures lockouts == Prune(old(lockouts), now)
    {
      var todo := lockouts.Keys;
      while todo != {}
        invariant todo <= old(lockouts).Keys
        invariant lockouts == map k | k in old(lockouts) && (k in todo || !(old(lockouts)[k] < now)) :: old(lockouts)[k]
        decreases |todo|
      {
        var name :| name in todo;
        todo := todo - {name};
        if lockouts[name] < now { lockouts := lockouts - {name}; }
      }
    }

    // ---- Changes to roles ----

    method SeedRoles(deployed: map<string, RoleSpec>, ghost now: Instant) returns (o: Outcome, seeded: bool)
      modifies this`roles
      ensures Effect(Memory(), o) == Apply(Change.SeedRoles(deployed), now, old(Memory()))
      ensures seeded == (|old(roles)| == 0)
    {
      if |roles| > 0 { return NoChange, false; }
      CopyRoles(deployed);
      assert old(roles) + deployed == deployed;
      return Write, true;
    }

    method CopyRoles(deployed: map<string, RoleSpec>)
      requires |roles| == 0
      modifies this`roles
      ensures roles == deployed
    {
      var todo := deployed.Keys;
      while todo != {}
        invariant todo <= deployed.Keys
        invariant roles == map k | k in deployed && k !in todo :: deployed[k]
        decreases |todo|
      {
        var name :| name in todo;
        todo := todo - {name};
        roles := roles[name := deployed[name]];
      }
    }

    method SaveRole(name: string, spec: RoleSpec, ghost now: Instant)
      modifies this`roles
      ensures Effect(Memory(), Write) == Apply(Change.SaveRole(name, spec), now, old(Memory()))
    {
      roles := roles[name := spec];
    }

    method DeleteRole(name: string, ghost now: Instant) returns (o: Outcome, affected: seq<string>)
      modifies this`roles
      ensures Effect(Memory(), o) == Apply(Change.DeleteRole(name), now, old(Memory()))
      ensures if name in old(roles) then ListsHolders(users, name, affected) else affected == []
    {
      if name !in roles { return Refused(NotFound), []; }
      roles := roles - {name};
      affected := HoldersOf(name);
      o := Write;
    }

    method HoldersOf(name: string) returns (affected: seq<string>)
      ensures ListsHolders(users, name, affected)
    {
      affected := [];
      ghost var keys: seq<string> := [];
      var todo := users.Keys;
      while todo != {}
        invariant todo <= users.Keys && HoldersAmong(users, name, users.Keys - todo, keys)
        invariant affected == Usernames(users, keys)
        decreases |todo|
      {
        var k :| k in todo;
        todo := todo - {k};
        var holds := Contains(users[k].roles, name);
        if holds {
          affected := affected + [users[k].username];
          UsernamesPush(users, keys, k);
          keys := keys + [k];
        }
      }
      SortIsSorted(affected);
      affected := SortStrings(affected);
    }

    method ChangeRoleMembership(role: string, usernames: seq<string>, add: bool, ghost now: Instant)
      returns (o: Outcome, out: Membership)
      modifies this`users
      ensures Effect(Memory(), o) == Apply(ChangeMembership(role, usernames, add), now, old(Memory()))
      ensures out == if role in roles then SortedReport(Sift(old(users), role, usernames, add)) else Membership([], [], [])
    {
      hide Sift, SortedReport;
      out := Membership([], [], []);
      if role !in roles { return Refused(NotFound), out; }
      ghost var base := users;
      out := ChangeEach(role, usernames, add);
      SiftFindsMoves(base, role, usernames, add);
      o := if out.changed == [] then NoChange else Write;
      out := SortedReport(out);
    }

    method ChangeEach(role: string, usernames: seq<string>, add: bool) returns (out: Membership)
      modifies this`users
      ensures users == MovedUsers(old(users), role, usernames, add)
      ensures out == Sift(old(users), role, usernames, add)
    {
      out := Membership([], [], []);
      ghost var base := users;
      for i := 0 to |usernames|
        invariant out == Sift(base, role, usernames[..i], add)
        invariant users == MovedUsers(base, role, usernames[..i], add)
      {
        MovedUsersPush(base, role, usernames[..i], usernames[i], add);
        SiftPush(base, role, usernames[..i], usernames[i], add);
        assert usernames[..i + 1] == usernames[..i] + [usernames[i]];
        out := ChangeOne(role, usernames[i], add, out);
      }
      assert usernames[..|usernames|] == usernames;
    }

    method ChangeOne(role: string, name: string, add: bool, out0: Membership) returns (out: Membership)
      modifies this`users
      ensures users == MoveOne(old(users), role, name, add)
      ensures out == ReportOne(old(users), role, name, add, out0)
    {
      if Key(name) !in users { return out0.(unknown := out0.unknown + [name]); }
      var u := users[Key(name)];
      var same, kept := Retake(u.roles, role, add);
      if same { return out0.(same := out0.same + [u.username]); }
      users := users[Key(name) := u.(roles := kept)];
      out := out0.(changed := out0.changed + [u.username]);
    }

    // ---- The whole model ----

    method Set(f: File)
      modifies this`users, this`roles, this`lockouts
      ensures Memory() == Decode(f)
    {
      var read: map<string, User> := map[];
      var todo := f.users.Keys;
      while todo != {}
        invariant todo <= f.users.Keys
        invariant forall k :: k in read <==> k in f.users && k !in todo && f.users[k].Some?
        invariant forall k :: k in read ==> read[k] == ReadUser(f.users[k].value, f.groups)
        decreases |todo|
      {
        var k :| k in todo;
        todo := todo - {k};
        if f.users[k].Some? {
          var u := f.users[k].value;
          var groups := Expand(u, f.groups);
          read := read[k := User(u.username, u.email, u.provider, groups, u.roles, u.firstSeen, u.lastSeen,
                                 u.passwordHash, u.managed)];
        }
      }
      assert read == Decode(f).users;
      users, roles, lockouts := read, f.roles, f.lockouts;
    }

    method Snapshot() returns (f: File)
      ensures f == Encode(Memory())
    {
      f := EncodeFile(users, roles, lockouts);
    }

    // The change a call asks for, made to the fields.
    method Run(c: Change, now: Instant) returns (o: Outcome, report: Report)
      modifies this`users, this`roles, this`lockouts
      ensures Effect(Memory(), o) == Apply(c, now, old(Memory()))
      ensures Describes(c, old(Memory()), report)
    {
      report := NoReport;
      match c
      case RecordSeen(username, email, provider, groups, initialRoles) =>
        o := RecordSeen(username, email, provider, groups, initialRoles, now);
      case FlushSeen => o := Write;
      case CreateLocalUser(username, email, passwordHash, rs) =>
        o := CreateLocalUser(username, email, passwordHash, rs, now);
      case Invite(username, email, rs) => o := Invite(username, email, rs, now);
      case SetPassword(username, passwordHash) => o := SetPassword(username, passwordHash, now);
      case SetRoles(username, rs) => o := SetRoles(username, rs, now);
      case DeleteUser(username) => o := DeleteUser(username, now);
      case LockUntil(username, until) => LockUntil(username, until, now); o := Write;
      case Unlock(username) => o := Unlock(username, now);
      case SeedRoles(deployed) =>
        var seeded;
        o, seeded := SeedRoles(deployed, now);
        report := Seeded(seeded);
      case SaveRole(name, spec) => SaveRole(name, spec, now); o := Write;
      case DeleteRole(name) =>
        var affected;
        o, affected := DeleteRole(name, now);
        report := Affected(affected);
      case ChangeMembership(role, usernames, add) =>
        var out;
        o, out := ChangeRoleMembership(role, usernames, add, now);
        report := Members(out);
      case Restore(snapshot) => Set(snapshot); o := Write;
    }

    // ---- Writing it back ----

    // Nothing is in progress, and the protocol's replica is this one.
    ghost predicate Ready() reads this, backend {
      && backend.Valid() && me < |backend.world.replicas|
      && Stands(backend.world, me, Idle, Memory(), version)
    }

    // Whatever the others do, this call is where it was.
    method Pause(ghost call: Stamped<Change>, ghost attempt: nat, ghost base: Model)
      requires backend.Valid() && Poised(backend.world, me, call, attempt, base, version)
      requires Apply(call.change, call.now, base).outcome == Write
      modifies backend
      ensures backend.Valid() && backend.saves == old(backend.saves) && backend.loads == old(backend.loads)
      ensures Poised(backend.world, me, call, attempt, base, version) && Runs(old(backend.world), backend.world)
    {
      backend.Others(me);
      MeanwhilePoised(old(backend.world), backend.world, me, call, attempt, base, version);
      MeanwhileGrows(old(backend.world), backend.world, me);
    }

    // What the watch does with the stored document k, which may be any of them:
    // the last, an older one, or this replica's own write coming back around.
    method OnEvent(data: File, stored: Version, ghost k: nat)
      requires Ready() && Readable(backend.world, k)
      requires Decode(data) == backend.world.history[k].content && stored == backend.world.history[k].version
      modifies this`users, this`roles, this`lockouts, this`version, backend
      ensures Ready() && Steps(old(backend.world), Deliver(me, k), backend.world) && Runs(old(backend.world), backend.world)
      ensures version == stored && Memory() == if stored == old(version) then old(Memory()) else Decode(data)
    {
      DeliverStands(backend.world, me, k, Memory(), version);
      backend.Note(Deliver(me, k));
      if stored != version {
        Set(data);
        version := stored;
      }
    }

    // The document for what is in memory, handed to the backend.
    method Persist(fate: Fate, ghost call: Stamped<Change>, ghost attempt: nat, ghost base: Model) returns (r: SaveResult)
      requires backend.Valid() && Poised(backend.world, me, call, attempt, base, version)
      requires Apply(call.change, call.now, base) == Effect(Memory(), Write)
      modifies this`version, backend
      ensures backend.Valid() && backend.saves == old(backend.saves) + 1 && backend.loads == old(backend.loads)
      ensures Persisted(backend.world, me, call, attempt, base, Memory(), old(version), r)
      ensures version == (if r.SavedAs? then r.version else old(version)) && Runs(old(backend.world), backend.world)
      ensures backend.told == r && (r.Unsaved? ==> !fate.Answered?) && (r.SavedAs? ==> fate.Answered?)
    {
      hide Poised, Persisted, Inv, Encode, SaveEnds, Runs, Reachable;
      Pause(call, attempt, base);
      PoisedStands(backend.world, me, call, attempt, base, Memory(), version);
      var data := EncodeFile(users, roles, lockouts);
      ghost var w := backend.world;
      r := backend.Save(data, version, fate, me);
      SavePersists(w, backend.world, me, call, attempt, base, Memory(), version, r);
      RunsOn(old(backend.world), w, backend.world);
      version := if r.SavedAs? then r.version else version;
    }

    // Memory replaced by what is stored now.
    method Reload(heard: bool, ghost call: Stamped<Change>, ghost attempt: nat, ghost now: Instant) returns (loaded: bool)
      requires backend.Valid() && Stands(backend.world, me, Reloading(call, attempt), Memory(), version)
      requires CallsUpTo(backend.world, me, call.id)
      modifies this`users, this`roles, this`lockouts, this`version, backend
      ensures backend.Valid() && backend.saves == old(backend.saves) && backend.loads == old(backend.loads) + 1
      ensures loaded ==> Poised(backend.world, me, call.(now := now), attempt, Memory(), version)
      ensures !loaded ==> Stands(backend.world, me, Idle, Memory(), version) && CallsUpTo(backend.world, me, call.id)
      ensures !loaded ==> call.id !in backend.world.acked && (!heard || Absent(backend.world))
      ensures backend.told == old(backend.told)
      ensures !loaded ==> Memory() == old(Memory()) && version == old(version)
      ensures Runs(old(backend.world), backend.world)
    {
      hide Poised, Runs, Reachable, Inv;
      backend.Others(me);
      ghost var w := backend.world;
      ReloadStands(old(backend.world), w, me, call, attempt, Memory(), version);
      MeanwhileGrows(old(backend.world), w, me);
      var r := backend.LoadAgain(me, heard, now);
      RunsOn(old(backend.world), w, backend.world);
      if !r.Read? { return false; }
      Set(r.data);
      version := r.version;
      return true;
    }

    // The change in memory is saved, or there was a conflict and memory is
    // reloaded: then there is no answer yet.
    method SaveOrReload(attempt: nat, fate: Fate, heard: bool, ghost call: Stamped<Change>, ghost now: Instant, ghost base: Model)
      returns (done: Option<Answer>)
      requires attempt < MAX_WRITE_ATTEMPTS && backend.Valid() && Poised(backend.world, me, call, attempt, base, version)
      requires Apply(call.change, call.now, base) == Effect(Memory(), Write)
      modifies this`users, this`roles, this`lockouts, this`version, backend
      ensures backend.Valid() && Requests(old(backend.saves), old(backend.loads), attempt, Write)
      ensures Runs(old(backend.world), backend.world)
      ensures done.Some? ==> CallsUpTo(backend.world, me, call.id)
      ensures done.Some? ==> Ready() && Finished(backend.world, me, call.id, call.change, call.now, base, done.value, Memory(), version)
      ensures done.Some? ==> Reported(done.value, Write, backend.told, attempt + 1 == MAX_WRITE_ATTEMPTS)
      ensures done == Some(Failed) ==> !fate.Answered? || !heard || Absent(backend.world)
      ensures done.None? ==> attempt + 1 < MAX_WRITE_ATTEMPTS &&
                             Poised(backend.world, me, call.(now := now), attempt + 1, Memory(), version)
    {
      hide Poised, Inv, Runs, Reachable;
      var saved := Persist(fate, call, attempt, base);
      ghost var w := backend.world;
      SaveFinishes(backend.world, me, call, attempt, base, Memory(), old(version), saved);
      if !saved.ErrConflict? || attempt + 1 >= MAX_WRITE_ATTEMPTS {
        done := Some(if saved.SavedAs? then Saved else if saved.Unsaved? then Failed else Conflicting);
        return;
      }
      var loaded := Reload(heard, call, attempt + 1, now);
      RunsOn(old(backend.world), w, backend.world);
      done := if loaded then None else Some(Failed);
    }

    // One turn of the loop: the change is made, and what there is to save is saved.
    method Attempt(change: Change, attempt: nat, clock: nat -> Instant, fate: Fate, heard: bool, ghost id: CallId)
      returns (done: Option<Answer>, report: Report)
      requires attempt < MAX_WRITE_ATTEMPTS && backend.Valid()
      requires Poised(backend.world, me, Stamped(id, change, clock(attempt)), attempt, Memory(), version)
      modifies this`users, this`roles, this`lockouts, this`version, backend
      ensures backend.Valid() && Describes(change, old(Memory()), report)
      ensures done.Some? ==> CallsUpTo(backend.world, me, id)
      ensures done.Some? ==> Ready() && Finished(backend.world, me, id, change, clock(attempt), old(Memory()), done.value, Memory(), version)
      ensures done.Some? ==> Reported(done.value, Apply(change, clock(attempt), old(Memory())).outcome, backend.told,
                                      attempt + 1 == MAX_WRITE_ATTEMPTS)
      ensures done == Some(Failed) ==> !fate.Answered? || !heard || Absent(backend.world)
      ensures done.None? ==> attempt + 1 < MAX_WRITE_ATTEMPTS &&
                             Poised(backend.world, me, Stamped(id, change, clock(attempt + 1)), attempt + 1, Memory(), version)
      ensures done.None? ==> Apply(change, clock(attempt), old(Memory())).outcome == Write
      ensures Requests(old(backend.saves), old(backend.loads), attempt, Apply(change, clock(attempt), old(Memory())).outcome)
      ensures Runs(old(backend.world), backend.world)
    {
      hide Finished, Inv, Describes, Runs, Reachable;
      ghost var call, base := Stamped(id, change, clock(attempt)), Memory();
      var o;
      o, report := Run(change, clock(attempt));
      if o.Write? {
        done := SaveOrReload(attempt, fate, heard, call, clock(attempt + 1), base);
      } else {
        done := Some(if o.NoChange? then Unchanged else NotDone(o.why));
        QuietFinishes(backend.world, me, call, attempt, base, version, done.value);
        assert CallsUpTo(backend.world, me, id);
        RunsNowhere(backend.world);
      }
    }

    // One save a turn if there is something to write, and at most one reload, none
    // after the last.
    ghost predicate Requests(saves0: nat, loads0: nat, attempt: nat, o: Outcome)
      reads backend
    {
      && backend.saves == saves0 + (if o.Write? then 1 else 0) && backend.loads <= loads0 + 1
      && (attempt + 1 >= MAX_WRITE_ATTEMPTS ==> backend.loads == loads0)
    }

    ghost method Begin(change: Change, now: Instant)
      requires Ready()
      modifies backend
      ensures backend.Valid() && backend.saves == old(backend.saves) && backend.loads == old(backend.loads)
      ensures Poised(backend.world, me, Stamped(CallId(me, old(backend.world.replicas[me].calls)), change, now), 0,
                     Memory(), version)
      ensures Runs(old(backend.world), backend.world)
    {
      hide Poised, Runs, Reachable;
      CallPoises(backend.world, me, change, now);
      backend.Note(Call(me, change, now));
    }

    // A change is made, saved, and started over on a conflict. The clock shows
    // clock(n) when it is made for the n-th time; the last time was on `base`. The
    // n-th save meets fate(n), and the reload after it is answered if heard(n).
    method Mutate(change: Change, clock: nat -> Instant, fate: nat -> Fate, heard: nat -> bool)
      returns (answer: Answer, report: Report, ghost base: Model, ghost n: nat)
      requires Ready()
      modifies this`users, this`roles, this`lockouts, this`version, backend
      ensures Ready()
      ensures Describes(change, base, report)
      ensures Finished(backend.world, me, CallId(me, old(backend.world.replicas[me].calls)), change, clock(n), base, answer,
                       Memory(), version)
      ensures Reported(answer, Apply(change, clock(n), base).outcome, backend.told, n == 4)
      ensures answer.Failed? ==> !fate(n).Answered? || !heard(n) || Absent(backend.world)
      ensures n < 5 && backend.saves == old(backend.saves) + n + (if Apply(change, clock(n), base).outcome == Write then 1 else 0)
      ensures backend.loads <= old(backend.loads) + 4
      ensures Runs(old(backend.world), backend.world) && Grown(old(backend.world), backend.world)
      ensures backend.world.replicas[me].calls == old(backend.world.replicas[me].calls) + 1
    {
      hide Poised, Finished, Inv, Backs, Describes, Runs, Grown, Reported, Apply;
      ghost var id := CallId(me, backend.world.replicas[me].calls);
      Begin(change, clock(0));
      var attempt: nat := 0;
      while true
        invariant attempt < MAX_WRITE_ATTEMPTS && backend.Valid()
        invariant Poised(backend.world, me, Stamped(id, change, clock(attempt)), attempt, Memory(), version)
        invariant backend.saves == old(backend.saves) + attempt && backend.loads <= old(backend.loads) + attempt
        invariant Runs(old(backend.world), backend.world)
        decreases MAX_WRITE_ATTEMPTS - attempt
      {
        base, n := Memory(), attempt;
        ghost var w := backend.world;
        var done;
        done, report := Attempt(change, attempt, clock, fate(attempt), heard(attempt), id);
        RunsOn(old(backend.world), w, backend.world);
        RunsGrow(old(backend.world), backend.world);
        if done.Some? { return done.value, report, base, n; }
        attempt := attempt + 1;
      }
    }
  }

  // A replica starting: memory is what is stored, or the empty model, written
  // at once so that somewhere unwritable is reported now. It does not start only if
  // what is stored cannot be read, or if that write does not succeed.
  method OpenWith(b: SecretBackend, heard: bool, fate: Fate, ghost id: nat) returns (s: Option<Store>)
    requires b.Valid() && id < |b.world.replicas| && b.world.replicas[id].phase.Down?
    modifies b
    ensures b.Valid()
    ensures s.Some? ==> fresh(s.value) && s.value.backend == b && s.value.me == id && s.value.Ready()
    ensures s.Some? ==> b.world.history != [] && s.value.version == StoredVersion(b.world)
                        && s.value.Memory() == Stored(b.world).content
    ensures s.None? ==> id < |b.world.replicas| && b.world.replicas[id].phase.Down?
    ensures s.None? && heard ==> b.saves == old(b.saves) + 1 && (b.told.ErrConflict? || (b.told.Unsaved? && !fate.Answered?))
    ensures s.None? && heard && fate.Answered? ==> !Absent(b.world)
    ensures Runs(old(b.world), b.world)
  {
    hide Inv, Encode, Runs, Reachable;
    var store := new Store(b, id);
    b.Others(id);
    ghost var w := b.world;
    MeanwhileGrows(old(b.world), w, id);
    var r := b.LoadAtStart(id, heard);
    RunsOn(old(b.world), w, b.world);
    if r.Unreadable? { return None; }
    if r.Read? {
      StartStands(w, id);
      store.Set(r.data);
      store.version := r.version;
      return Some(store);
    }
    ghost var absent := b.world;
    s := CreateEmpty(b, fate, id, store);
    RunsOn(old(b.world), absent, b.world);
  }

  method CreateEmpty(b: SecretBackend, fate: Fate, ghost id: nat, store: Store) returns (s: Option<Store>)
    requires b.Valid() && id < |b.world.replicas| && b.world.replicas[id].phase.Creating?
    requires store.backend == b && store.me == id && store.Memory() == EMPTY == b.world.replicas[id].model
    requires store.version == NONE == b.world.replicas[id].version
    modifies b, store`version
    ensures b.Valid() && Runs(old(b.world), b.world)
    ensures s.Some? ==> s.value == store && store.Ready() && b.world.history != []
                        && store.version == StoredVersion(b.world) && store.Memory() == Stored(b.world).content
    ensures s.None? ==> id < |b.world.replicas| && b.world.replicas[id].phase.Down?
    ensures b.saves == old(b.saves) + 1
    ensures s.None? ==> b.told.ErrConflict? || (b.told.Unsaved? && !fate.Answered?)
    ensures s.None? && fate.Answered? ==> !Absent(b.world)
  {
    hide Inv, Encode, Runs, Reachable;
    b.Others(id);
    ghost var w := b.world;
    MeanwhileGrows(old(b.world), w, id);
    var data := EncodeFile(store.users, store.roles, store.lockouts);
    var saved := b.Save(data, store.version, fate, id);
    RunsOn(old(b.world), w, b.world);
    if !saved.SavedAs? { return None; }
    CreateStands(w, id, saved.version);
    store.version := saved.version;
    return Some(store);
  }

  // ---- Loops over lists ----

  method SameStrings(a: seq<string>, b: seq<string>) returns (same: bool)
    ensures same <==> a == b
  {
    if |a| != |b| { return false; }
    for i := 0 to |a|
      invariant a[..i] == b[..i]
    {
      if a[i] != b[i] { return false; }
    }
    return true;
  }

  method Contains(list: seq<string>, x: string) returns (found: bool)
    ensures found <==> x in list
  {
    found := false;
    for i := 0 to |list|
      invariant x !in list[..i]
    {
      if list[i] == x { return true; }
    }
  }

  // The roles but one, and whether that one was among them.
  method Keep(rs: seq<string>, role: string) returns (had: bool, kept: seq<string>)
    ensures had == (role in rs) && kept == Without(rs, role)
  {
    had, kept := false, [];
    for i := 0 to |rs|
      invariant had == (role in rs[..i]) && kept == Without(rs[..i], role)
    {
      assert rs[..i + 1][..i] == rs[..i];
      if rs[i] == role { had := true; } else { kept := kept + [rs[i]]; }
    }
    assert rs[..|rs|] == rs;
  }

  method Retake(rs: seq<string>, role: string, add: bool) returns (same: bool, moved: seq<string>)
    ensures same <==> (role in rs) == add
    ensures !same ==> moved == MovedRoles(rs, role, add)
  {
    var had, kept := Keep(rs, role);
    if add == had { return true, rs; }
    if add { kept := kept + [role]; }
    assert kept == Without(rs, role) + if add then [role] else [];
    return false, SortStrings(kept);
  }

  method Expand(u: StoredUser, table: seq<string>) returns (groups: seq<string>)
    ensures groups == ExpandGroups(u, table)
  {
    if |u.groupIds| == 0 { return u.groups; }
    groups := [];
    for j := 0 to |u.groupIds|
      invariant groups == Pick(u.groupIds[..j], table)
    {
      var i := u.groupIds[j];
      assert u.groupIds[..j + 1][..j] == u.groupIds[..j];
      if 0 <= i < |table| { groups := groups + [table[i]]; }
    }
    assert u.groupIds[..|u.groupIds|] == u.groupIds;
  }

  lemma UsernamesPush(users: map<string, User>, keys: seq<string>, k: string)
    requires k in users && forall o :: o in keys ==> o in users
    ensures Usernames(users, keys + [k]) == Usernames(users, keys) + [users[k].username]
  {
    assert (keys + [k])[..|keys|] == keys;
  }
}
