// The changes that are made to the model under `mutate` (internal/store/store.go,
// users.go, roles.go), each as a function of the model it is run on. A change may
// be run more than once, so all of them say what they do to any model.
//
// Two models are `Alike` when they differ only in last-seen times and in how
// names are spelled. That is all a change that reports "nothing changed" may
// have altered, and no change can tell alike models apart.

module Changes {
  import opened AccessModel
  import opened Encoding
  import opened Folds
  import opened Sorting

  datatype Change =
    | RecordSeen(username: string, email: string, provider: string, groups: seq<string>, initialRoles: seq<string>)
    | FlushSeen
    | CreateLocalUser(username: string, email: string, passwordHash: string, roles: seq<string>)
    | Invite(username: string, email: string, roles: seq<string>)
    | SetPassword(username: string, passwordHash: string)
    | SetRoles(username: string, roles: seq<string>)
    | DeleteUser(username: string)
    | LockUntil(username: string, until: Time)
    | Unlock(username: string)
    | SeedRoles(deployed: map<string, RoleSpec>)
    | SaveRole(name: string, spec: RoleSpec)
    | DeleteRole(name: string)
    | ChangeMembership(role: string, usernames: seq<string>, add: bool)
    | Restore(snapshot: File)

  // ---- The parts ----

  function Prune(lockouts: map<string, Time>, now: Time): map<string, Time> {
    map k | k in lockouts && !(lockouts[k] < now) :: lockouts[k]
  }

  predicate Holds(u: User, role: string) { role in u.roles }

  function Without(roles: seq<string>, role: string): seq<string> {
    if roles == [] then []
    else Without(roles[..|roles| - 1], role) + if roles[|roles| - 1] == role then [] else [roles[|roles| - 1]]
  }

  function MovedRoles(roles: seq<string>, role: string, add: bool): seq<string> {
    SortStrings(Without(roles, role) + if add then [role] else [])
  }

  // Somebody on the list is kept under k.
  predicate Listed(k: string, usernames: seq<string>) {
    exists i :: 0 <= i < |usernames| && Key(usernames[i]) == k
  }

  // The users after a bulk change of one role: a listed user whose holding the
  // role is not already what is asked for.
  function Moves(k: string, u: User, role: string, usernames: seq<string>, add: bool): bool {
    Listed(k, usernames) && Holds(u, role) != add
  }

  function MovedUser(k: string, u: User, role: string, usernames: seq<string>, add: bool): User {
    if Moves(k, u, role, usernames, add) then u.(roles := MovedRoles(u.roles, role, add)) else u
  }

  function MovedUsers(users: map<string, User>, role: string, usernames: seq<string>, add: bool): map<string, User> {
    map k | k in users :: MovedUser(k, users[k], role, usernames, add)
  }

  function Seen(u: User, c: Change, now: Time): User
    requires c.RecordSeen?
  {
    u.(username := c.username, email := c.email, provider := c.provider, groups := c.groups, lastSeen := now)
  }

  // ---- The changes ----

  function Apply(c: Change, now: Instant, m: Model): Effect<Model> {
    match c
    case RecordSeen(username, email, provider, groups, initialRoles) =>
      var k := Key(username);
      if k !in m.users then
        var u := User(username, email, provider, groups, initialRoles, now, now, "", false);
        Effect(m.(users := m.users[k := u]), Write)
      else
        var u := m.users[k];
        var changed := u.Invited() || u.email != email || u.provider != provider || u.groups != groups;
        Effect(m.(users := m.users[k := Seen(u, c, now)]), if changed then Write else NoChange)
    case FlushSeen => Effect(m, Write)
    case CreateLocalUser(username, email, passwordHash, roles) =>
      var k := Key(username);
      if k in m.users then Effect(m, Refused(Exists))
      else Effect(m.(users := m.users[k := User(username, email, "local", [], roles, now, NEVER, passwordHash, true)]), Write)
    case Invite(username, email, roles) =>
      var k := Key(username);
      if k in m.users then Effect(m, Refused(Exists))
      else Effect(m.(users := m.users[k := User(username, email, "", [], roles, now, NEVER, "", false)]), Write)
    case SetPassword(username, passwordHash) =>
      var k := Key(username);
      if k !in m.users then Effect(m, Refused(NotFound))
      else if !m.users[k].managed then Effect(m, Refused(NotManaged))
      else Effect(m.(users := m.users[k := m.users[k].(passwordHash := passwordHash)]), Write)
    case SetRoles(username, roles) =>
      var k := Key(username);
      if k !in m.users then Effect(m, Refused(NotFound))
      else Effect(m.(users := m.users[k := m.users[k].(roles := roles)]), Write)
    case DeleteUser(username) =>
      if Key(username) !in m.users then Effect(m, Refused(NotFound))
      else Effect(m.(users := m.users - {Key(username)}), Write)
    case LockUntil(username, until) =>
      Effect(m.(lockouts := Prune(m.lockouts, now)[Key(username) := until]), Write)
    case Unlock(username) =>
      if Key(username) !in m.lockouts then Effect(m, NoChange)
      else Effect(m.(lockouts := Prune(m.lockouts - {Key(username)}, now)), Write)
    case SeedRoles(deployed) =>
      if |m.roles| > 0 then Effect(m, NoChange) else Effect(m.(roles := m.roles + deployed), Write)
    case SaveRole(name, spec) => Effect(m.(roles := m.roles[name := spec]), Write)
    case DeleteRole(name) =>
      if name !in m.roles then Effect(m, Refused(NotFound)) else Effect(m.(roles := m.roles - {name}), Write)
    case ChangeMembership(role, usernames, add) =>
      if role !in m.roles then Effect(m, Refused(NotFound))
      else
        var users := MovedUsers(m.users, role, usernames, add);
        Effect(m.(users := users),
               if exists k :: k in m.users && Moves(k, m.users[k], role, usernames, add) then Write else NoChange)
    case Restore(snapshot) => Effect(Decode(snapshot), Write)
  }

  // ---- Alike models ----

  predicate AlikeUsers(u: User, v: User) {
    u.(username := v.username, lastSeen := v.lastSeen) == v && u.Invited() == v.Invited()
  }

  ghost predicate Alike(m: Model, n: Model) {
    && m.users.Keys == n.users.Keys && m.roles == n.roles && m.lockouts == n.lockouts
    && forall k :: k in m.users ==> AlikeUsers(m.users[k], n.users[k])
  }

  ghost predicate AlikeEffects(e: Effect<Model>, f: Effect<Model>) {
    e.outcome == f.outcome && Alike(e.model, f.model)
  }

  lemma MembershipAlike(c: Change, now: Instant, m: Model, n: Model)
    requires c.ChangeMembership? && Alike(m, n)
    ensures AlikeEffects(Apply(c, now, m), Apply(c, now, n))
  {
    forall k | k in m.users
      ensures Moves(k, m.users[k], c.role, c.usernames, c.add) == Moves(k, n.users[k], c.role, c.usernames, c.add)
    {
      assert AlikeUsers(m.users[k], n.users[k]);
    }
  }

  lemma SightingAlike(c: Change, now: Instant, m: Model, n: Model)
    requires c.RecordSeen? && Alike(m, n)
    ensures AlikeEffects(Apply(c, now, m), Apply(c, now, n))
  {
    var k := Key(c.username);
    if k in m.users { assert AlikeUsers(m.users[k], n.users[k]); }
  }

  lemma AccountAlike(c: Change, now: Instant, m: Model, n: Model)
    requires c.CreateLocalUser? || c.Invite? || c.SetPassword? || c.SetRoles? || c.DeleteUser?
    requires Alike(m, n)
    ensures AlikeEffects(Apply(c, now, m), Apply(c, now, n))
  {
    var k := Key(c.username);
    if k in m.users { assert AlikeUsers(m.users[k], n.users[k]); }
  }

  // A change has the same outcome on alike models, and leaves them alike.
  lemma ApplyAlike(c: Change, now: Instant, m: Model, n: Model)
    requires Alike(m, n)
    ensures AlikeEffects(Apply(c, now, m), Apply(c, now, n))
  {
    if c.ChangeMembership? {
      MembershipAlike(c, now, m, n);
    } else if c.RecordSeen? {
      SightingAlike(c, now, m, n);
    } else if c.CreateLocalUser? || c.Invite? || c.SetPassword? || c.SetRoles? || c.DeleteUser? {
      AccountAlike(c, now, m, n);
    } else if c.LockUntil? || c.Unlock? {
      LockoutAlike(c, now, m, n);
    } else if c.SeedRoles? || c.SaveRole? || c.DeleteRole? {
      RolesAlike(c, now, m, n);
    }
  }

  lemma LockoutAlike(c: Change, now: Instant, m: Model, n: Model)
    requires Alike(m, n) && (c.LockUntil? || c.Unlock?)
    ensures AlikeEffects(Apply(c, now, m), Apply(c, now, n))
  {
  }

  lemma RolesAlike(c: Change, now: Instant, m: Model, n: Model)
    requires Alike(m, n) && (c.SeedRoles? || c.SaveRole? || c.DeleteRole?)
    ensures AlikeEffects(Apply(c, now, m), Apply(c, now, n))
  {
  }

  // A change that is not written has altered nothing but a last-seen time and
  // the spelling of a name.
  lemma UnwrittenIsAlike(c: Change, now: Instant, m: Model)
    requires Apply(c, now, m).outcome != Write
    ensures Alike(Apply(c, now, m).model, m)
  {
  }

  // ---- The kit ----

  ghost function Access(): Kit<Model, Change> {
    Kit(EMPTY, (c, now, m) => Apply(c, now, m), (m, n) => Alike(m, n))
  }

  lemma AccessIsLawful()
    ensures Lawful(Access())
  {
    forall c, now, m, n | Alike(m, n) ensures AlikeEffects(Apply(c, now, m), Apply(c, now, n)) {
      ApplyAlike(c, now, m, n);
    }
    forall c, now, m | Apply(c, now, m).outcome != Write ensures Alike(Apply(c, now, m).model, m) {
      UnwrittenIsAlike(c, now, m);
    }
  }
}
