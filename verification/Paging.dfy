// Reading the audit trail back a page at a time (internal/auditlog/auditlog.go).
//
// A page walks back in windows of a day until it is full, has taken seven steps
// or has reached the floor, and says where the next page starts. What a window
// holds is the source's answer; the source stands still here, and so does the
// clock.

module Paging {
  import opened Prelude
  import opened AccessModel
  import opened AuditLog

  // A day, in nanoseconds.
  const WINDOW: int := 86_400_000_000_000
  const STEPS: nat := 7
  const DEFAULT_LIMIT: nat := 200
  const MAX_LIMIT: nat := 500

  // The answer for a window, of at most so many entries.
  type Source = (Time, Time, nat) -> seq<Entry>

  // What a run of pages is about: the source, what is asked for, and how far back.
  datatype Query = Query(source: Source, scope: Scope, want: Want, floor: Time, limit: nat)

  datatype Page = Page(entries: seq<Entry>, next: Time)

  // ---- One page ----

  datatype Visit = Visit(from: Time, to: Time, room: nat)

  function Shown(q: Query, v: Visit): seq<Entry> { q.source(v.from, v.to, v.room) }

  function Step(q: Query, to: Time, got: nat): Visit
    requires got < q.limit
  {
    Visit(Max(to - WINDOW, q.floor), to, q.limit - got)
  }

  // A page filled from `to` back, and where it got to.
  function Fill(q: Query, to: Time, out: seq<Entry>, step: nat): (seq<Entry>, Time)
    decreases STEPS - step
  {
    if step < STEPS && to > q.floor && |out| < q.limit then
      var v := Step(q, to, |out|);
      Fill(q, v.from, out + Shown(q, v), step + 1)
    else (out, to)
  }

  function PageAt(q: Query, to: Time): Page {
    var (out, bottom) := Fill(q, to, [], 0);
    Page(NewestFirst(out), if bottom > q.floor then bottom else NEVER)
  }

  // The limit, the start and the floor as a request is understood.
  function Asked(source: Source, sc: Scope, f: Filter, now: Time, horizon: nat): Query {
    Query(source, sc, f.want,
          if f.since != NEVER && f.since > now - horizon then f.since else now - horizon,
          if f.limit <= 0 || f.limit > MAX_LIMIT then DEFAULT_LIMIT else f.limit)
  }

  function Start(f: Filter, now: Time): Time {
    if f.to == NEVER || f.to > now then now else f.to
  }

  // ---- The windows of a page ----

  // The windows a page still visits, with `got` entries so far.
  function Walk(q: Query, to: Time, got: nat, step: nat): seq<Visit>
    decreases STEPS - step
  {
    if step < STEPS && to > q.floor && got < q.limit then
      var v := Step(q, to, got);
      [v] + Walk(q, v.from, got + |Shown(q, v)|, step + 1)
    else []
  }

  function Flat(q: Query, visits: seq<Visit>): seq<Entry> {
    if visits == [] then [] else Shown(q, visits[0]) + Flat(q, visits[1..])
  }

  function Bottom(to: Time, visits: seq<Visit>): Time
    decreases |visits|
  {
    if visits == [] then to else Bottom(visits[0].from, visits[1..])
  }

  lemma {:induction false} FillWalks(q: Query, to: Time, out: seq<Entry>, step: nat)
    ensures var visits := Walk(q, to, |out|, step);
      Fill(q, to, out, step).0 == out + Flat(q, visits) && Fill(q, to, out, step).1 == Bottom(to, visits)
    decreases STEPS - step
  {
    hide Shown;
    if step < STEPS && to > q.floor && |out| < q.limit {
      var v := Step(q, to, |out|);
      FillWalks(q, v.from, out + Shown(q, v), step + 1);
      var rest := Walk(q, v.from, |out + Shown(q, v)|, step + 1);
      FlatCons(q, v, rest);
      JoinedThrice(out, Shown(q, v), Flat(q, rest));
    } else {
      assert out + [] == out;
    }
  }

  lemma JoinedThrice<T>(a: seq<T>, b: seq<T>, c: seq<T>)
    ensures (a + b) + c == a + (b + c)
  {
  }

  lemma FlatCons(q: Query, v: Visit, rest: seq<Visit>)
    ensures Flat(q, [v] + rest) == Shown(q, v) + Flat(q, rest)
    ensures forall to :: Bottom(to, [v] + rest) == Bottom(v.from, rest)
  {
    assert ([v] + rest)[1..] == rest;
  }

  // Windows one below the other, none longer than a day, from hi down to lo.
  ghost predicate Tiles(visits: seq<Visit>, hi: Time, lo: Time) {
    && (forall i :: 0 <= i < |visits| ==> 0 < visits[i].to - visits[i].from <= WINDOW)
    && (forall i :: 0 < i < |visits| ==> visits[i].to == visits[i - 1].from)
    && (|visits| == 0 ==> hi == lo)
    && (|visits| > 0 ==> visits[0].to == hi && visits[|visits| - 1].from == lo)
  }

  lemma {:induction false} WalkTiles(q: Query, to: Time, got: nat, step: nat)
    requires to >= q.floor
    ensures var visits := Walk(q, to, got, step);
      Tiles(visits, to, Bottom(to, visits)) && q.floor <= Bottom(to, visits) <= to
    decreases STEPS - step
  {
    hide Shown, Tiles;
    if step < STEPS && to > q.floor && got < q.limit {
      var v := Step(q, to, got);
      var more := got + |Shown(q, v)|;
      WalkTiles(q, v.from, more, step + 1);
      TilesCons(v, Walk(q, v.from, more, step + 1), Bottom(v.from, Walk(q, v.from, more, step + 1)));
    } else {
      TilesNone(to);
    }
  }

  lemma TilesNone(t: Time)
    ensures Tiles([], t, t)
  {
  }

  lemma TilesCons(v: Visit, rest: seq<Visit>, lo: Time)
    requires v.from < v.to && v.to - v.from <= WINDOW && Tiles(rest, v.from, lo)
    ensures Tiles([v] + rest, v.to, lo)
    ensures forall to :: Bottom(to, [v] + rest) == Bottom(v.from, rest)
  {
    assert ([v] + rest)[1..] == rest;
  }

  // A page that is not the last covers at least a day.
  lemma PageCoversADay(q: Query, to: Time)
    requires q.floor < to && q.limit > 0
    ensures var bottom := Bottom(to, Walk(q, to, 0, 0));
      q.floor <= bottom && (bottom > q.floor ==> bottom <= to - WINDOW)
  {
    hide Shown;
    var v := Step(q, to, 0);
    var rest := Walk(q, v.from, |Shown(q, v)|, 1);
    assert Walk(q, to, 0, 0) == [v] + rest;
    assert ([v] + rest)[1..] == rest;
    WalkTiles(q, v.from, |Shown(q, v)|, 1);
  }

  // ---- Sources that answer as they are asked ----

  predicate Belongs(sc: Scope, want: Want, from: Time, to: Time, e: Entry) {
    from <= e.time <= to && Admits(sc, want, e)
  }

  // No more entries than asked for, each of them in the window, and one that may
  // be seen and was asked for.
  ghost predicate SoundAnswer(es: seq<Entry>, sc: Scope, want: Want, from: Time, to: Time, room: nat) {
    |es| <= room && forall i :: 0 <= i < |es| ==> Belongs(sc, want, from, to, es[i])
  }

  ghost predicate Sound(source: Source, sc: Scope, want: Want) {
    forall from, to, room :: SoundAnswer(source(from, to, room), sc, want, from, to, room)
  }

  ghost predicate SoundSource(q: Query) { Sound(q.source, q.scope, q.want) }
}
