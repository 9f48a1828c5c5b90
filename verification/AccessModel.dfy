// The part of the access model that is edited while the service runs, and the
// document it is written down as (internal/store/store.go, internal/config/rbac.go).

module AccessModel {
  import opened Prelude
  import opened Text

  // A moment. Zero is time.Time{}: it has not happened.
  type Time = int
  const NEVER: Time := 0

  // What the clock shows is never the zero time.
  type Instant = t: Time | t > NEVER witness 1

  datatype NamespaceGrant = NamespaceGrant(namespace: string, operations: seq<string>)
  datatype ConfigGrant = ConfigGrant(path: string, operations: seq<string>)
  datatype RoleSpec = RoleSpec(description: string, namespaces: seq<NamespaceGrant>,
                               global: seq<string>, configs: seq<ConfigGrant>)

  datatype User = User(username: string, email: string, provider: string,
                       groups: seq<string>, roles: seq<string>,
                       firstSeen: Time, lastSeen: Time,
                       passwordHash: string, managed: bool)
  {
    // An invitation nobody has claimed.
    predicate Invited() { lastSeen == NEVER }
  }

  datatype Model = Model(users: map<string, User>, roles: map<string, RoleSpec>, lockouts: map<string, Time>)

  const EMPTY: Model := Model(map[], map[], map[])

  // ---- The stored document ----

  // groups is how version 2 wrote a user's groups; groupIds is version 3,
  // indices into the document's own table.
  datatype StoredUser = StoredUser(username: string, email: string, provider: string,
                                   groups: seq<string>, groupIds: seq<int>, roles: seq<string>,
                                   firstSeen: Time, lastSeen: Time,
                                   passwordHash: string, managed: bool)

  datatype File = File(version: int, groups: seq<string>, users: map<string, Option<StoredUser>>,
                       roles: map<string, RoleSpec>, lockouts: map<string, Time>)

  const CURRENT_VERSION: int := 3

  // ---- Keys ----

  const SPACE: set<char> := {' ', '\t', '\n', '\U{B}', '\U{C}', '\r'}

  function Lower(c: char): char {
    if 'A' <= c <= 'Z' then ((c as int) + 32) as char else c
  }

  function ToLower(s: string): string {
    if s == "" then "" else [Lower(s[0])] + ToLower(s[1..])
  }

  // The key a username is kept under.
  function Key(username: string): string {
    ToLower(Trim(username, SPACE))
  }

  // The same letter, be it a capital or not.
  predicate SameLetter(c: char, d: char) {
    || c == d
    || ('A' <= c <= 'Z' && d as int == c as int + 32)
    || ('A' <= d <= 'Z' && c as int == d as int + 32)
  }

  lemma {:induction false} LowerEach(s: string)
    ensures |ToLower(s)| == |s| && forall k :: 0 <= k < |s| ==> ToLower(s)[k] == Lower(s[k])
  {
    if s != "" { LowerEach(s[1..]); }
  }

  lemma LowerSame(c: char, d: char)
    ensures Lower(c) == Lower(d) <==> SameLetter(c, d)
  {
  }

  // The same but for capitals, and for space around it.
  ghost predicate SameName(a: string, b: string) {
    exists x, y, c, d, z, w :: Around(a, x, c, y, SPACE) && Around(b, z, d, w, SPACE) && SameLetters(c, d)
  }

  ghost predicate SameLetters(c: string, d: string) {
    |c| == |d| && forall i :: 0 <= i < |c| ==> SameLetter(c[i], d[i])
  }

  lemma LowerMeansSameLetters(c: string, d: string)
    ensures ToLower(c) == ToLower(d) <==> SameLetters(c, d)
  {
    LowerEach(c);
    LowerEach(d);
    if |c| == |d| {
      forall i | 0 <= i < |c| ensures Lower(c[i]) == Lower(d[i]) <==> SameLetter(c[i], d[i]) { LowerSame(c[i], d[i]); }
      assert SameLetters(c, d) ==> forall i :: 0 <= i < |c| ==> ToLower(c)[i] == ToLower(d)[i];
      assert ToLower(c) == ToLower(d) ==> forall i :: 0 <= i < |c| ==> ToLower(c)[i] == ToLower(d)[i];
    }
  }

  // Two spellings are kept under one key exactly if they are the same name.
  lemma KeyMeansSameName(a: string, b: string)
    ensures Key(a) == Key(b) <==> SameName(a, b)
  {
    var c, d := Trim(a, SPACE), Trim(b, SPACE);
    var x, y := TrimParts(a, SPACE);
    var z, w := TrimParts(b, SPACE);
    LowerMeansSameLetters(c, d);
    forall x, y, e | Around(a, x, e, y, SPACE) ensures e == c { TrimOf(x, e, y, SPACE); }
    forall z, w, f | Around(b, z, f, w, SPACE) ensures f == d { TrimOf(z, f, w, SPACE); }
  }

  // Every record is under the key of its own name.
  ghost predicate WellKeyed(users: map<string, User>) {
    forall k :: k in users ==> Key(users[k].username) == k
  }
}
