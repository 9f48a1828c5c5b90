// Changing who holds one role, across many users in one write
// (internal/store/roles.go).

module Membership {
  import opened AccessModel
  import opened Sorting
  import opened Folds
  import opened Changes

  datatype Membership = Membership(changed: seq<string>, same: seq<string>, unknown: seq<string>)

  // What is said of each name in turn. A user already moved by an earlier name
  // on the list is as the list asks, so the second mention is "unchanged".
  function Sift(users: map<string, User>, role: string, names: seq<string>, add: bool): Membership {
    if names == [] then Membership([], [], [])
    else
      var above := names[..|names| - 1];
      SiftOne(users, role, above, names[|names| - 1], add, Sift(users, role, above, add))
  }

  function SiftOne(users: map<string, User>, role: string, above: seq<string>, name: string, add: bool, m: Membership): Membership {
    var k := Key(name);
    if k !in users then m.(unknown := m.unknown + [name])
    else if Moves(k, users[k], role, above, add) || Holds(users[k], role) == add then
      m.(same := m.same + [users[k].username])
    else m.(changed := m.changed + [users[k].username])
  }

  function SortedReport(m: Membership): Membership {
    Membership(SortStrings(m.changed), SortStrings(m.same), SortStrings(m.unknown))
  }

  // ---- One user's roles ----

  lemma {:induction false} WithoutCounts(roles: seq<string>, role: string)
    ensures multiset(Without(roles, role)) == multiset(roles)[role := 0]
  {
    if roles != [] {
      var n := |roles| - 1;
      WithoutCounts(roles[..n], role);
      assert roles == roles[..n] + [roles[n]];
    }
  }

  // Every other role is held exactly as often as before.
  lemma MovedRolesCounts(roles: seq<string>, role: string, add: bool)
    ensures multiset(MovedRoles(roles, role, add)) == multiset(roles)[role := if add then 1 else 0]
    ensures role in MovedRoles(roles, role, add) <==> add
  {
    WithoutCounts(roles, role);
    InSameMultiset(MovedRoles(roles, role, add), Without(roles, role) + if add then [role] else []);
    assert role in multiset(Without(roles, role)) <==> role in Without(roles, role);
  }

  // ---- The list, name by name ----

  lemma ListedPush(k: string, names: seq<string>, name: string)
    ensures Listed(k, names + [name]) <==> Listed(k, names) || Key(name) == k
  {
    var all := names + [name];
    if Listed(k, names) {
      var i :| 0 <= i < |names| && Key(names[i]) == k;
      assert Key(all[i]) == k;
    }
    if Key(name) == k { assert Key(all[|names|]) == k; }
  }

  // One more name moves at most the user it names, and nobody twice.
  lemma MovedPush(k: string, u: User, role: string, names: seq<string>, name: string, add: bool)
    ensures var v := MovedUser(k, u, role, names, add);
      && (k != Key(name) || Holds(v, role) == add ==> MovedUser(k, u, role, names + [name], add) == v)
      && (k == Key(name) && Holds(v, role) != add ==>
            MovedUser(k, u, role, names + [name], add) == v.(roles := MovedRoles(v.roles, role, add)))
      && (Holds(v, role) == add <==> Moves(k, u, role, names, add) || Holds(u, role) == add)
  {
    ListedPush(k, names, name);
    MovedRolesCounts(u.roles, role, add);
  }

  // One more turn of the loop, on the users as they are by then.
  function MoveOne(users: map<string, User>, role: string, name: string, add: bool): map<string, User> {
    var k := Key(name);
    if k !in users || Holds(users[k], role) == add then users
    else users[k := users[k].(roles := MovedRoles(users[k].roles, role, add))]
  }

  lemma MovedUsersPush(users: map<string, User>, role: string, above: seq<string>, name: string, add: bool)
    ensures MovedUsers(users, role, above + [name], add) == MoveOne(MovedUsers(users, role, above, add), role, name, add)
  {
    var after, turned := MovedUsers(users, role, above + [name], add), MoveOne(MovedUsers(users, role, above, add), role, name, add);
    assert after.Keys == users.Keys == turned.Keys;
    forall k | k in users ensures after[k] == turned[k] {
      MovedPush(k, users[k], role, above, name, add);
    }
  }

  // What the loop reports of a name, told from the users as they are by then.
  function ReportOne(users: map<string, User>, role: string, name: string, add: bool, m: Membership): Membership {
    var k := Key(name);
    if k !in users then m.(unknown := m.unknown + [name])
    else if Holds(users[k], role) == add then m.(same := m.same + [users[k].username])
    else m.(changed := m.changed + [users[k].username])
  }

  lemma SiftPush(users: map<string, User>, role: string, above: seq<string>, name: string, add: bool)
    ensures Sift(users, role, above + [name], add) ==
            ReportOne(MovedUsers(users, role, above, add), role, name, add, Sift(users, role, above, add))
  {
    assert (above + [name])[..|above|] == above;
    if Key(name) in users { MovedPush(Key(name), users[Key(name)], role, above, name, add); }
  }

  // ---- What is reported ----

  // How many of the names are kept under k.
  function KeyCount(names: seq<string>, k: string): nat {
    if names == [] then 0
    else KeyCount(names[..|names| - 1], k) + if Key(names[|names| - 1]) == k then 1 else 0
  }

  lemma CountPush(names: seq<string>, name: string, k: string)
    ensures KeyCount(names + [name], k) == KeyCount(names, k) + if Key(name) == k then 1 else 0
  {
    assert (names + [name])[..|names|] == names;
  }

  lemma {:induction false} ListedByCount(k: string, names: seq<string>)
    ensures Listed(k, names) <==> KeyCount(names, k) > 0
  {
    if names != [] {
      var n := |names| - 1;
      ListedByCount(k, names[..n]);
      ListedPush(k, names[..n], names[n]);
      assert names == names[..n] + [names[n]];
    }
  }

  ghost predicate Counted(users: map<string, User>, role: string, names: seq<string>, add: bool, m: Membership, k: string) {
    && KeyCount(m.changed, k) == (if k in users && Moves(k, users[k], role, names, add) then 1 else 0)
    && KeyCount(m.unknown, k) == (if k in users then 0 else KeyCount(names, k))
    && KeyCount(m.changed, k) + KeyCount(m.same, k) + KeyCount(m.unknown, k) == KeyCount(names, k)
  }

  // Each mention of a name is in exactly one of the three lists: as "changed"
  // once for every user whose roles move, as "unknown" if there is no such
  // record, and otherwise as unchanged.
  lemma {:induction false} SiftPartitions(users: map<string, User>, role: string, names: seq<string>, add: bool, k: string)
    requires WellKeyed(users)
    ensures Counted(users, role, names, add, Sift(users, role, names, add), k)
  {
    if names != [] {
      var above, name := names[..|names| - 1], names[|names| - 1];
      SiftPartitions(users, role, above, add, k);
      SiftOneCounts(users, role, above, name, add, Sift(users, role, above, add), k);
      assert names == above + [name];
    }
  }

  lemma SiftOneCounts(users: map<string, User>, role: string, above: seq<string>, name: string, add: bool, m: Membership, k: string)
    requires WellKeyed(users) && Counted(users, role, above, add, m, k)
    ensures Counted(users, role, above + [name], add, SiftOne(users, role, above, name, add, m), k)
  {
    CountPush(above, name, k);
    SiftOneMore(users, role, above, name, add, m, k);
  }

  lemma {:induction false} SiftCoversAll(users: map<string, User>, role: string, names: seq<string>, add: bool)
    ensures var m := Sift(users, role, names, add); |m.changed| + |m.same| + |m.unknown| == |names|
  {
    if names != [] { SiftCoversAll(users, role, names[..|names| - 1], add); }
  }

  lemma SiftOneMore(users: map<string, User>, role: string, above: seq<string>, name: string, add: bool, m: Membership, k: string)
    requires WellKeyed(users)
    ensures Listed(k, above + [name]) <==> Listed(k, above) || Key(name) == k
    ensures KeyCount(m.unknown + [name], k) == KeyCount(m.unknown, k) + if Key(name) == k then 1 else 0
    ensures Key(name) in users ==>
      var username := users[Key(name)].username;
      && KeyCount(m.same + [username], k) == KeyCount(m.same, k) + (if Key(name) == k then 1 else 0)
      && KeyCount(m.changed + [username], k) == KeyCount(m.changed, k) + (if Key(name) == k then 1 else 0)
  {
    ListedPush(k, above, name);
    CountPush(m.unknown, name, k);
    if Key(name) in users {
      CountPush(m.same, users[Key(name)].username, k);
      CountPush(m.changed, users[Key(name)].username, k);
    }
  }

  // Nobody is reported as changed exactly when nobody's roles move.
  lemma {:induction false} SiftFindsMoves(users: map<string, User>, role: string, names: seq<string>, add: bool)
    ensures Sift(users, role, names, add).changed == []
            <==> forall k :: k in users ==> !Moves(k, users[k], role, names, add)
  {
    if names != [] {
      var above, name := names[..|names| - 1], names[|names| - 1];
      assert names == above + [name];
      SiftFindsMoves(users, role, above, add);
      forall k | k in users ensures Listed(k, names) <==> Listed(k, above) || Key(name) == k { ListedPush(k, above, name); }
      if Key(name) in users && Moves(Key(name), users[Key(name)], role, names, add) {
        assert Moves(Key(name), users[Key(name)], role, above, add) || SiftOne(users, role, above, name, add, Sift(users, role, above, add)).changed != [];
      }
    }
  }

  // ---- Undoing it ----

  lemma RolesRestored(roles: seq<string>, role: string, add: bool)
    requires (role in roles) != add
    ensures var back := MovedRoles(MovedRoles(roles, role, add), role, !add);
      && (forall x :: x in back <==> x in roles)
      && (multiset(back) == multiset(roles) <==> (add || multiset(roles)[role] == 1))
  {
    var there := MovedRoles(roles, role, add);
    MovedRolesCounts(roles, role, add);
    MovedRolesCounts(there, role, !add);
    var back := MovedRoles(there, role, !add);
    assert multiset(back) == multiset(roles)[role := if add then 0 else 1];
    assert role in roles <==> role in multiset(roles);
    forall x ensures x in back <==> x in roles {
      assert x in back <==> x in multiset(back);
      assert x in roles <==> x in multiset(roles);
    }
    assert multiset(back)[role] == if add then 0 else 1;
  }

  // The same roles, and as many times each unless one taken away was there twice.
  ghost predicate Restored(back: User, u: User, role: string, moved: bool, add: bool) {
    && back.(roles := u.roles) == u
    && (forall x :: x in back.roles <==> x in u.roles)
    && (multiset(back.roles) == multiset(u.roles) <==> !(moved && !add && multiset(u.roles)[role] > 1))
  }

  lemma UserRestored(k: string, u: User, role: string, names: seq<string>, changed: seq<string>, add: bool)
    requires Listed(k, changed) <==> Moves(k, u, role, names, add)
    ensures Restored(MovedUser(k, MovedUser(k, u, role, names, add), role, changed, !add), u, role,
                     Moves(k, u, role, names, add), add)
  {
    if Moves(k, u, role, names, add) {
      MovedRolesCounts(u.roles, role, add);
      var away := u.(roles := MovedRoles(u.roles, role, add));
      assert Moves(k, away, role, changed, !add);
      RestoredBack(u, away.(roles := MovedRoles(away.roles, role, !add)), role, add);
    }
  }

  lemma RestoredBack(u: User, back: User, role: string, add: bool)
    requires Holds(u, role) != add
    requires back == u.(roles := MovedRoles(MovedRoles(u.roles, role, add), role, !add))
    ensures Restored(back, u, role, true, add)
  {
    RolesRestored(u.roles, role, add);
    assert role in u.roles <==> role in multiset(u.roles);
  }

  // The opposite change on exactly the users that changed gives every user back
  // the roles held before: as a set always, and as often as before unless a role
  // that was taken away had been listed more than once.
  lemma OppositeUndoes(users: map<string, User>, role: string, names: seq<string>, add: bool, k: string)
    requires WellKeyed(users) && k in users
    ensures var there := MovedUsers(users, role, names, add);
      var back := MovedUsers(there, role, Sift(users, role, names, add).changed, !add);
      back.Keys == users.Keys && Restored(back[k], users[k], role, Moves(k, users[k], role, names, add), add)
  {
    var changed := Sift(users, role, names, add).changed;
    SiftPartitions(users, role, names, add, k);
    ListedByCount(k, changed);
    UserRestored(k, users[k], role, names, changed, add);
  }

  // Nobody else and nothing else moves: whoever is not on the list, and of those
  // who are, everything but the one role.
  lemma OnlyTheRoleMoves(users: map<string, User>, role: string, names: seq<string>, add: bool, k: string)
    requires k in users
    ensures var after := MovedUsers(users, role, names, add);
      && after.Keys == users.Keys
      && (!Listed(k, names) || Holds(users[k], role) == add ==> after[k] == users[k])
      && (after[k] != users[k] ==> Sorted(after[k].roles))
      && after[k].(roles := users[k].roles) == users[k]
      && (Listed(k, names) ==> (Holds(after[k], role) <==> add))
      && (forall x :: x != role ==> multiset(after[k].roles)[x] == multiset(users[k].roles)[x])
  {
    MovedRolesCounts(users[k].roles, role, add);
    SortIsSorted(Without(users[k].roles, role) + if add then [role] else []);
  }

  // Of a role there is, the change is written exactly if it changes anybody.
  lemma WrittenIffSomebodyMoves(role: string, names: seq<string>, add: bool, now: Instant, m: Model)
    ensures var e := Apply(ChangeMembership(role, names, add), now, m);
      && e.outcome == (if role !in m.roles then Refused(NotFound) else if e.model.users == m.users then NoChange else Write)
      && e.model.roles == m.roles && e.model.lockouts == m.lockouts
      && (e.outcome.Refused? ==> e.model == m)
  {
    var after := MovedUsers(m.users, role, names, add);
    forall k | k in m.users ensures after[k] != m.users[k] <==> Moves(k, m.users[k], role, names, add) {
      OnlyTheRoleMoves(m.users, role, names, add, k);
    }
    assert after.Keys == m.users.Keys;
  }

  // ---- What the caller is told ----

  lemma {:induction false} KeyCountInsert(x: string, s: seq<string>, k: string)
    ensures KeyCount(Insert(x, s), k) == KeyCount(s, k) + if Key(x) == k then 1 else 0
  {
    if s == [] || !Before(s[0], x) {
      KeyCountCons(x, s, k);
    } else {
      assert s == [s[0]] + s[1..];
      KeyCountInsert(x, s[1..], k);
      KeyCountCons(s[0], s[1..], k);
      KeyCountCons(s[0], Insert(x, s[1..]), k);
    }
  }

  lemma {:induction false} KeyCountCons(x: string, s: seq<string>, k: string)
    ensures KeyCount([x] + s, k) == KeyCount(s, k) + if Key(x) == k then 1 else 0
  {
    if s == [] {
      assert [x] + s == [] + [x];
      CountPush([], x, k);
    } else {
      var n := |s| - 1;
      assert ([x] + s)[..n + 1] == [x] + s[..n];
      KeyCountCons(x, s[..n], k);
    }
  }

  lemma {:induction false} KeyCountSorted(s: seq<string>, k: string)
    ensures KeyCount(SortStrings(s), k) == KeyCount(s, k)
  {
    if s != [] {
      assert s == [s[0]] + s[1..];
      KeyCountSorted(s[1..], k);
      KeyCountInsert(s[0], SortStrings(s[1..]), k);
      KeyCountCons(s[0], s[1..], k);
    }
  }

  lemma {:induction false} SiftNames(users: map<string, User>, role: string, names: seq<string>, add: bool, x: string)
    requires WellKeyed(users)
    ensures var m := Sift(users, role, names, add);
      && (x in m.changed || x in m.same ==> Key(x) in users && users[Key(x)].username == x)
      && (x in m.unknown ==> x in names && Key(x) !in users)
  {
    if names != [] {
      var n := |names| - 1;
      SiftNames(users, role, names[..n], add, x);
      assert names == names[..n] + [names[n]];
    }
  }

  // The three lists the caller gets are sorted, and split the mentions of each name:
  // users as their records spell them, and the names that were not found.
  lemma ReportPartitions(users: map<string, User>, role: string, names: seq<string>, add: bool, k: string)
    requires WellKeyed(users)
    ensures var report := SortedReport(Sift(users, role, names, add));
      && Counted(users, role, names, add, report, k)
      && Sorted(report.changed) && Sorted(report.same) && Sorted(report.unknown)
      && |report.changed| + |report.same| + |report.unknown| == |names|
      && (forall x :: x in report.changed || x in report.same ==> Key(x) in users && users[Key(x)].username == x)
      && (forall x :: x in report.unknown ==> x in names && Key(x) !in users)
  {
    var m := Sift(users, role, names, add);
    SiftPartitions(users, role, names, add, k);
    SiftCoversAll(users, role, names, add);
    ReportSorts(m.changed, k);
    ReportSorts(m.same, k);
    ReportSorts(m.unknown, k);
    forall x
      ensures x in SortStrings(m.changed) <==> x in m.changed
      ensures x in SortStrings(m.same) <==> x in m.same
      ensures x in SortStrings(m.unknown) <==> x in m.unknown
    {
      InSameMultiset(SortStrings(m.changed), m.changed);
      InSameMultiset(SortStrings(m.same), m.same);
      InSameMultiset(SortStrings(m.unknown), m.unknown);
    }
    forall x { SiftNames(users, role, names, add, x); }
  }

  lemma ReportSorts(s: seq<string>, k: string)
    ensures Sorted(SortStrings(s)) && |SortStrings(s)| == |s| && KeyCount(SortStrings(s), k) == KeyCount(s, k)
  {
    SortIsSorted(s);
    InSameMultiset(SortStrings(s), s);
    KeyCountSorted(s, k);
  }
}
