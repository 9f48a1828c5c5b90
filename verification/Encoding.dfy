// Writing the model down and reading it back (internal/store/store.go).
//
// Version 3 keeps the distinct group names in one sorted table and gives each
// user indices into it. `Encode` is that document as a function of the model;
// `EncodeFile` builds it in loops that walk the users in whatever order the map
// yields, and is proved to give the same document every time.

module Encoding {
  import opened Prelude
  import opened AccessModel
  import opened Sorting

  // ---- Reading ----

  function Pick(ids: seq<int>, table: seq<string>): seq<string> {
    if ids == [] then []
    else
      var i := ids[|ids| - 1];
      // An index outside the table is dropped rather than refused.
      Pick(ids[..|ids| - 1], table) + if 0 <= i < |table| then [table[i]] else []
  }

  function ExpandGroups(u: StoredUser, table: seq<string>): seq<string> {
    if u.groupIds == [] then u.groups else Pick(u.groupIds, table)
  }

  function ReadUser(u: StoredUser, table: seq<string>): User {
    User(u.username, u.email, u.provider, ExpandGroups(u, table), u.roles,
         u.firstSeen, u.lastSeen, u.passwordHash, u.managed)
  }

  function Decode(f: File): Model {
    Model(map k | k in f.users && f.users[k].Some? :: ReadUser(f.users[k].value, f.groups), f.roles, f.lockouts)
  }

  // Every record but a null one is read, with all its fields. Its groups are those
  // written in full where there are no indices, as in a document of version 2, and
  // otherwise the names at the indices that are in the table, in order.
  lemma ReadsEveryField(f: File, k: string)
    ensures var m := Decode(f);
      && m.roles == f.roles && m.lockouts == f.lockouts
      && (k in m.users <==> k in f.users && f.users[k].Some?)
      && (k in m.users ==>
            var u, su := m.users[k], f.users[k].value;
            && u.username == su.username && u.email == su.email && u.provider == su.provider && u.roles == su.roles
            && u.firstSeen == su.firstSeen && u.lastSeen == su.lastSeen
            && u.passwordHash == su.passwordHash && u.managed == su.managed
            && (su.groupIds == [] ==> u.groups == su.groups)
            && (su.groupIds != [] ==> Names(su.groupIds, f.groups, u.groups)))
  {
    if k in f.users && f.users[k].Some? { PicksInOrder(f.users[k].value.groupIds, f.groups); }
  }

  ghost predicate InTable(i: int, table: seq<string>) { 0 <= i < |table| }

  // Place j of the indices is place at[j] of the names, and each name has a place.
  ghost predicate PlacedAt(ids: seq<int>, table: seq<string>, names: seq<string>, at: seq<nat>) {
    && |at| == |names| && (forall j, l :: 0 <= j < l < |at| ==> at[j] < at[l])
    && (forall j :: 0 <= j < |at| ==> at[j] < |ids| && InTable(ids[at[j]], table) && names[j] == table[ids[at[j]]])
    && (forall i :: 0 <= i < |ids| && InTable(ids[i], table) ==> i in at)
  }

  ghost predicate Names(ids: seq<int>, table: seq<string>, names: seq<string>) {
    exists at :: PlacedAt(ids, table, names, at)
  }

  lemma {:induction false} PicksInOrder(ids: seq<int>, table: seq<string>)
    ensures Names(ids, table, Pick(ids, table))
  {
    if ids == [] {
      assert PlacedAt(ids, table, [], []);
    } else {
      hide PlacedAt;
      var n := |ids| - 1;
      PicksInOrder(ids[..n], table);
      var names := Pick(ids[..n], table);
      var at :| PlacedAt(ids[..n], table, names, at);
      if InTable(ids[n], table) {
        PlacedPush(ids, table, names, at);
        assert Pick(ids, table) == names + [table[ids[n]]];
      } else {
        PlacedSkip(ids, table, names, at);
        assert Pick(ids, table) == names;
      }
    }
  }

  lemma PlacedSkip(ids: seq<int>, table: seq<string>, names: seq<string>, at: seq<nat>)
    requires ids != [] && PlacedAt(ids[..|ids| - 1], table, names, at) && !InTable(ids[|ids| - 1], table)
    ensures PlacedAt(ids, table, names, at)
  {
    var n := |ids| - 1;
    forall i | 0 <= i < |ids| && InTable(ids[i], table) ensures i in at {
      assert ids[..n][i] == ids[i];
    }
  }

  lemma PlacedPush(ids: seq<int>, table: seq<string>, names: seq<string>, at: seq<nat>)
    requires ids != [] && PlacedAt(ids[..|ids| - 1], table, names, at) && InTable(ids[|ids| - 1], table)
    ensures PlacedAt(ids, table, names + [table[ids[|ids| - 1]]], at + [|ids| - 1])
  {
    var n := |ids| - 1;
    var all := at + [n];
    assert all[|at|] == n;
    forall i | 0 <= i < |ids| && InTable(ids[i], table) ensures i in all {
      if i < n {
        assert ids[..n][i] == ids[i];
        assert i in at;
      }
    }
  }

  // ---- Writing ----

  ghost function GroupsOf(users: map<string, User>, keys: set<string>): set<string> {
    set k, g | k in keys && k in users && g in users[k].groups :: g
  }

  ghost function Table(users: map<string, User>): seq<string> {
    Listing(GroupsOf(users, users.Keys))
  }

  ghost predicate IsIndex(table: seq<string>, g: string, i: int) {
    0 <= i < |table| && table[i] == g
  }

  // ids are the places of the names in the table.
  ghost predicate Indexes(table: seq<string>, names: seq<string>, ids: seq<int>) {
    |ids| == |names| && forall i :: 0 <= i < |names| ==> IsIndex(table, names[i], ids[i])
  }

  // u as it is written, with its groups as indices into the table.
  ghost predicate WritesUser(u: User, table: seq<string>, su: StoredUser) {
    && Indexes(table, u.groups, su.groupIds)
    && su == StoredUser(u.username, u.email, u.provider, [], su.groupIds, u.roles,
                        u.firstSeen, u.lastSeen, u.passwordHash, u.managed)
  }

  ghost predicate Writes(m: Model, f: File) {
    && f.version == CURRENT_VERSION && f.roles == m.roles && f.lockouts == m.lockouts
    && f.groups == Table(m.users)
    && f.users.Keys == m.users.Keys
    && forall k :: k in m.users ==> f.users[k].Some? && WritesUser(m.users[k], f.groups, f.users[k].value)
  }

  // ---- What is written is what is read ----

  lemma {:induction false} PickUndoesIndexes(table: seq<string>, names: seq<string>, ids: seq<int>)
    requires Indexes(table, names, ids)
    ensures Pick(ids, table) == names
  {
    if names != [] {
      var n := |names| - 1;
      PickUndoesIndexes(table, names[..n], ids[..n]);
      assert IsIndex(table, names[n], ids[n]);
      assert names == names[..n] + [names[n]];
    }
  }

  // Every model survives being written and read: users, the order and the
  // repetitions of their groups, roles and lockouts.
  lemma RoundTrip(m: Model, f: File)
    requires Writes(m, f)
    ensures Decode(f) == m
  {
    forall k | k in m.users ensures k in Decode(f).users && Decode(f).users[k] == m.users[k] {
      PickUndoesIndexes(f.groups, m.users[k].groups, f.users[k].value.groupIds);
    }
    assert Decode(f).users == m.users;
  }

  // The document is a function of the model.
  lemma WritesUnique(m: Model, f: File, g: File)
    requires Writes(m, f) && Writes(m, g)
    ensures f == g
  {
    forall k | k in m.users ensures f.users[k] == g.users[k] {
      var u, s, t := m.users[k], f.users[k].value, g.users[k].value;
      forall i | 0 <= i < |u.groups| ensures s.groupIds[i] == t.groupIds[i] {
        assert IsIndex(f.groups, u.groups[i], s.groupIds[i]) && IsIndex(f.groups, u.groups[i], t.groupIds[i]);
        PlaceUnique(f.groups, s.groupIds[i], t.groupIds[i]);
      }
      assert s.groupIds == t.groupIds;
    }
    assert f.users == g.users;
  }

  lemma PlaceUnique(table: seq<string>, i: int, j: int)
    requires Increasing(table) && 0 <= i < |table| && 0 <= j < |table| && table[i] == table[j]
    ensures i == j
  {
    BeforeTotal(table[i], table[j]);
  }

  // Every model can be written.
  lemma WritesExists(m: Model)
    ensures exists f :: Writes(m, f)
  {
    var table := Table(m.users);
    forall k | k in m.users ensures exists su :: WritesUser(m.users[k], table, su) {
      var u := m.users[k];
      assert forall g :: g in u.groups ==> g in GroupsOf(m.users, m.users.Keys);
      var ids := FindAll(table, u.groups);
      var su := StoredUser(u.username, u.email, u.provider, [], ids, u.roles, u.firstSeen, u.lastSeen, u.passwordHash, u.managed);
      assert WritesUser(u, table, su);
    }
    var users := map k | k in m.users :: var su :| WritesUser(m.users[k], table, su); Some(su);
    var f := File(CURRENT_VERSION, table, users, m.roles, m.lockouts);
    assert Writes(m, f);
  }

  lemma {:induction false} FindAll(table: seq<string>, names: seq<string>) returns (ids: seq<int>)
    requires forall g :: g in names ==> g in table
    ensures Indexes(table, names, ids)
  {
    if names == [] {
      ids := [];
    } else {
      var n := |names| - 1;
      var rest := FindAll(table, names[..n]);
      assert names[n] in names;
      var i :| 0 <= i < |table| && table[i] == names[n];
      ids := rest + [i];
    }
  }

  // The document written for a model.
  ghost function Encode(m: Model): (f: File)
    ensures Writes(m, f) && Decode(f) == m
  {
    WritesExists(m);
    var f :| Writes(m, f);
    RoundTrip(m, f);
    f
  }

  // A document of an older format means the same once it has been rewritten.
  lemma RewritingKeepsTheModel(f: File)
    ensures Decode(Encode(Decode(f))) == Decode(f)
    ensures Encode(Decode(Encode(Decode(f)))) == Encode(Decode(f))
  {
  }

  // ---- Building the document ----

  // Gather the distinct names, sort them, number them, then write every user.
  method EncodeFile(users: map<string, User>, roles: map<string, RoleSpec>, lockouts: map<string, Time>)
    returns (f: File)
    ensures f == Encode(Model(users, roles, lockouts))
  {
    hide WritesUser, IsIndex, Decode;
    var table, index := GatherGroups(users);
    table, index := NumberGroups(users, table, index);
    var stored: map<string, Option<StoredUser>> := map[];
    var todo := users.Keys;
    while todo != {}
      invariant todo <= users.Keys && stored.Keys == users.Keys - todo
      invariant forall k :: k in stored ==> stored[k].Some? && WritesUser(users[k], table, stored[k].value)
      decreases |todo|
    {
      var k :| k in todo;
      todo := todo - {k};
      assert forall g :: g in users[k].groups ==> g in GroupsOf(users, users.Keys);
      var su := WriteUser(users[k], table, index);
      stored := stored[k := Some(su)];
    }
    f := File(CURRENT_VERSION, table, stored, roles, lockouts);
    WritesUnique(Model(users, roles, lockouts), f, Encode(Model(users, roles, lockouts)));
  }

  method NumberGroups(users: map<string, User>, names: seq<string>, index0: map<string, int>)
    returns (table: seq<string>, index: map<string, int>)
    requires Distinct(names) && index0.Keys == GroupsOf(users, users.Keys)
    requires forall g :: g in names <==> g in index0
    ensures table == Table(users) && index.Keys == GroupsOf(users, users.Keys)
    ensures forall g :: g in index ==> IsIndex(table, g, index[g])
  {
    SortDistinct(names);
    table, index := SortStrings(names), index0;
    IncreasingUnique(table, Table(users));
    for i := 0 to |table|
      invariant index.Keys == index0.Keys
      invariant forall j :: 0 <= j < i ==> index[table[j]] == j
    {
      forall j | 0 <= j < i ensures table[j] != table[i] { BeforeTotal(table[j], table[i]); }
      index := index[table[i] := i];
    }
  }

  method WriteUser(u: User, table: seq<string>, index: map<string, int>) returns (su: StoredUser)
    requires forall g :: g in index ==> IsIndex(table, g, index[g])
    requires forall g :: g in u.groups ==> g in index
    ensures WritesUser(u, table, su)
  {
    var ids: seq<int> := [];
    for i := 0 to |u.groups|
      invariant Indexes(table, u.groups[..i], ids)
    {
      ids := ids + [index[u.groups[i]]];
    }
    assert u.groups[..|u.groups|] == u.groups;
    su := StoredUser(u.username, u.email, u.provider, [], ids, u.roles,
                     u.firstSeen, u.lastSeen, u.passwordHash, u.managed);
  }

  // The first two loops: every name once, in whatever order the users come.
  method GatherGroups(users: map<string, User>) returns (table: seq<string>, index: map<string, int>)
    ensures Distinct(table) && index.Keys == GroupsOf(users, users.Keys)
    ensures forall g :: g in table <==> g in index
  {
    index, table := map[], [];
    var todo := users.Keys;
    while todo != {}
      invariant todo <= users.Keys
      invariant Distinct(table) && forall g :: g in table <==> g in index
      invariant index.Keys == GroupsOf(users, users.Keys - todo)
      decreases |todo|
    {
      var k :| k in todo;
      ghost var done := users.Keys - todo;
      todo := todo - {k};
      var groups := users[k].groups;
      for i := 0 to |groups|
        invariant Distinct(table) && forall g :: g in table <==> g in index
        invariant index.Keys == GroupsOf(users, done) + set g | g in groups[..i]
      {
        assert groups[..i + 1] == groups[..i] + [groups[i]];
        if groups[i] !in index {
          index := index[groups[i] := 0];
          table := table + [groups[i]];
        }
      }
      assert groups[..|groups|] == groups;
      assert users.Keys - todo == done + {k};
    }
    assert users.Keys - todo == users.Keys;
  }
}
