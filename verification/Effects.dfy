// What each change does, told by what is found afterwards under any spelling of a
// name (internal/store/store.go, users.go, roles.go).

module Effects {
  import opened Prelude
  import opened Text
  import opened AccessModel
  import opened Encoding
  import opened Folds
  import opened Changes

  // ---- Looking things up ----

  function Find(m: Model, name: string): Option<User> {
    if Key(name) in m.users then Some(m.users[Key(name)]) else None
  }

  function Role(roles: map<string, RoleSpec>, name: string): Option<RoleSpec> {
    if name in roles then Some(roles[name]) else None
  }

  // The name is locked out at that time.
  predicate Locks(m: Model, name: string, t: Time) {
    Key(name) in m.lockouts && t <= m.lockouts[Key(name)]
  }

  // Under every spelling of this name there is now this record, or none; every other
  // user, all roles and all lockouts are as they were.
  ghost predicate OnlyRecord(m: Model, m': Model, username: string, record: Option<User>) {
    && m'.roles == m.roles && m'.lockouts == m.lockouts
    && forall name :: Find(m', name) == if SameName(name, username) then record else Find(m, name)
  }

  lemma OneRecord(m: Model, m': Model, username: string, record: Option<User>)
    requires m'.roles == m.roles && m'.lockouts == m.lockouts
    requires forall k :: k != Key(username) ==> (k in m'.users <==> k in m.users) && (k in m.users ==> m'.users[k] == m.users[k])
    requires Find(m', username) == record
    ensures OnlyRecord(m, m', username, record)
  {
    hide SameName, Key;
    forall name ensures Find(m', name) == if SameName(name, username) then record else Find(m, name) {
      KeyMeansSameName(name, username);
    }
  }

  // ---- Users ----

  // Somebody who signs in is on record as seen just now, with the email, provider and
  // groups of this time. A new record has the initial roles; an old one keeps what an
  // administrator gave it, and is only worth a write if it says something new or was
  // an invitation. The same again, by any spelling, is never worth one.
  lemma SightingRefreshes(username: string, email: string, provider: string, groups: seq<string>,
                          initialRoles: seq<string>, now: Instant, m: Model) returns (u: User)
    ensures var e := Apply(RecordSeen(username, email, provider, groups, initialRoles), now, m);
      && OnlyRecord(m, e.model, username, Some(u))
      && u.username == username && u.email == email && u.provider == provider && u.groups == groups && u.lastSeen == now
      && match Find(m, username) {
        case None => e.outcome == Write && u.roles == initialRoles && u.firstSeen == now && !u.managed && u.passwordHash == ""
        case Some(was) =>
          && u.roles == was.roles && u.firstSeen == was.firstSeen && u.managed == was.managed && u.passwordHash == was.passwordHash
          && e.outcome == if was.lastSeen == NEVER || was.email != email || was.provider != provider || was.groups != groups
                          then Write else NoChange
      }
    ensures var m' := Apply(RecordSeen(username, email, provider, groups, initialRoles), now, m).model;
      forall name, roles: seq<string>, later: Instant | SameName(name, username) ::
        Apply(RecordSeen(name, email, provider, groups, roles), later, m').outcome == NoChange
  {
    hide SameName, Key;
    var m' := Apply(RecordSeen(username, email, provider, groups, initialRoles), now, m).model;
    u := m'.users[Key(username)];
    OneRecord(m, m', username, Some(u));
    forall name, roles: seq<string>, later: Instant | SameName(name, username)
      ensures Apply(RecordSeen(name, email, provider, groups, roles), later, m').outcome == NoChange
    {
      KeyMeansSameName(name, username);
    }
  }

  // Creating a local account or an invitation leaves that record, unless there is one.
  lemma CreatingCreates(c: Change, now: Instant, m: Model)
    requires c.CreateLocalUser? || c.Invite?
    ensures Find(m, c.username).Some? ==> Apply(c, now, m) == Effect(m, Refused(Exists))
    ensures Find(m, c.username).None? ==>
      var e := Apply(c, now, m);
      var u := Find(e.model, c.username);
      && e.outcome == Write && u.Some? && OnlyRecord(m, e.model, c.username, u)
      && u.value.username == c.username && u.value.email == c.email && u.value.roles == c.roles
      && u.value.groups == [] && u.value.firstSeen == now && u.value.lastSeen == NEVER
      && (if c.Invite? then u.value.provider == "" && u.value.passwordHash == "" && !u.value.managed
          else u.value.provider == "local" && u.value.passwordHash == c.passwordHash && u.value.managed)
  {
    hide SameName, Key;
    var m' := Apply(c, now, m).model;
    if Find(m, c.username).None? { OneRecord(m, m', c.username, Find(m', c.username)); }
  }

  // Roles are replaced and records deleted where there is one, passwords where the
  // account is kept here; nothing else about the record changes.
  lemma EditingEdits(c: Change, now: Instant, m: Model)
    requires c.SetPassword? || c.SetRoles? || c.DeleteUser?
    ensures var e, was := Apply(c, now, m), Find(m, c.username);
      if was.None? then e == Effect(m, Refused(NotFound))
      else if c.SetPassword? && !was.value.managed then e == Effect(m, Refused(NotManaged))
      else
        && e.outcome == Write
        && OnlyRecord(m, e.model, c.username,
                      if c.DeleteUser? then None
                      else if c.SetRoles? then Some(was.value.(roles := c.roles))
                      else Some(was.value.(passwordHash := c.passwordHash)))
  {
    hide SameName, Key;
    var m' := Apply(c, now, m).model;
    if Apply(c, now, m).outcome == Write { OneRecord(m, m', c.username, Find(m', c.username)); }
  }

  // ---- Lockouts ----

  // After a lockout is set, that name is locked out until then by every spelling; after
  // it is lifted, it is not. Nobody else is let in or out, and what has elapsed is gone.
  lemma LockingLocks(c: Change, now: Instant, m: Model)
    requires c.LockUntil? || c.Unlock?
    ensures var e := Apply(c, now, m);
      && e.outcome == (if c.Unlock? && Key(c.username) !in m.lockouts then NoChange else Write)
      && e.model.users == m.users && e.model.roles == m.roles
      && (e.outcome == NoChange ==> e.model == m)
      && (forall name, t: Time | now <= t ::
            Locks(e.model, name, t) <==>
            if SameName(name, c.username) then c.LockUntil? && t <= c.until else Locks(m, name, t))
      && (e.outcome == Write ==> forall k :: k in e.model.lockouts && k != Key(c.username) ==> now <= e.model.lockouts[k])
  {
    hide SameName, Key;
    var m' := Apply(c, now, m).model;
    forall name, t: Time | now <= t
      ensures Locks(m', name, t) <==> if SameName(name, c.username) then c.LockUntil? && t <= c.until else Locks(m, name, t)
    {
      KeyMeansSameName(name, c.username);
    }
  }

  // ---- Roles ----

  // No other role, no user and no lockout changes.
  ghost predicate OnlyRole(m: Model, m': Model, name: string, spec: Option<RoleSpec>) {
    && m'.users == m.users && m'.lockouts == m.lockouts
    && forall other :: Role(m'.roles, other) == if other == name then spec else Role(m.roles, other)
  }

  lemma SavedRoleIsThere(name: string, spec: RoleSpec, now: Instant, m: Model)
    ensures var e := Apply(SaveRole(name, spec), now, m); e.outcome == Write && OnlyRole(m, e.model, name, Some(spec))
  {
  }

  lemma DeletedRoleIsGone(name: string, now: Instant, m: Model)
    ensures var e := Apply(DeleteRole(name), now, m);
      && e.outcome == (if Role(m.roles, name).Some? then Write else Refused(NotFound))
      && OnlyRole(m, e.model, name, None)
  {
  }

  // The deployed roles are taken over if there are none, and otherwise left alone.
  lemma SeededIfEmpty(deployed: map<string, RoleSpec>, now: Instant, m: Model)
    ensures var e := Apply(SeedRoles(deployed), now, m);
      if m.roles == map[] then e == Effect(Model(m.users, deployed, m.lockouts), Write) else e == Effect(m, NoChange)
  {
    assert map[] + deployed == deployed;
    if m.roles != map[] {
      assert m.roles.Keys != {};
    }
  }

  // ---- The whole model ----

  // A snapshot brings back the model it was taken of, whatever there is now; writing
  // the times people were last seen changes nothing else.
  lemma RestoringRestores(saved: Model, now: Instant, m: Model)
    ensures Apply(Restore(Encode(saved)), now, m) == Effect(saved, Write)
    ensures Apply(FlushSeen, now, m) == Effect(m, Write)
  {
  }
}
