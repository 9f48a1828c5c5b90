// Following the cursor from the first page to the last, whatever the source: how
// many pages there are, what they cover, and in what order.

module PagingRuns {
  import opened Prelude
  import opened AccessModel
  import opened AuditLog
  import opened Paging

  // ---- Following the cursor ----

  // Where the next page starts is further back, by a day at least.
  lemma NextIsLower(q: Query, to: Time)
    requires q.limit > 0 && q.floor > NEVER
    ensures var next := PageAt(q, to).next;
      && next == (if Bottom(to, Walk(q, to, 0, 0)) > q.floor then Bottom(to, Walk(q, to, 0, 0)) else NEVER)
      && (next != NEVER ==> q.floor < next <= to - WINDOW)
  {
    FillWalks(q, to, [], 0);
    if q.floor < to { PageCoversADay(q, to); }
  }

  // The pages of a run.
  function Follow(q: Query, to: Time): seq<Page>
    requires q.limit > 0 && q.floor > NEVER
    decreases if to > q.floor then to - q.floor else 0
  {
    NextIsLower(q, to);
    var p := PageAt(q, to);
    [p] + if p.next == NEVER then [] else Follow(q, p.next)
  }

  // The windows of a run.
  function Visits(q: Query, to: Time): seq<Visit>
    requires q.limit > 0 && q.floor > NEVER
    decreases if to > q.floor then to - q.floor else 0
  {
    NextIsLower(q, to);
    var next := PageAt(q, to).next;
    Walk(q, to, 0, 0) + if next == NEVER then [] else Visits(q, next)
  }

  // A run ends, after no more pages than there are days in it.
  lemma {:induction false} RunEnds(q: Query, to: Time)
    requires q.limit > 0 && q.floor > NEVER
    ensures |Follow(q, to)| <= Max(1, (to - q.floor + WINDOW - 1) / WINDOW)
    ensures Follow(q, to)[|Follow(q, to)| - 1].next == NEVER
    decreases if to > q.floor then to - q.floor else 0
  {
    hide PageAt;
    NextIsLower(q, to);
    var next := PageAt(q, to).next;
    if next != NEVER {
      RunEnds(q, next);
      DayLess(next - q.floor, to - q.floor);
    }
  }

  lemma DayLess(x: int, y: int)
    requires 0 < x <= y - WINDOW
    ensures Max(1, (x + WINDOW - 1) / WINDOW) + 1 <= Max(1, (y + WINDOW - 1) / WINDOW)
  {
    var m := (x + WINDOW - 1) / WINDOW;
    var n := (y + WINDOW - 1) / WINDOW;
    assert m * WINDOW <= x + WINDOW - 1 < (m + 1) * WINDOW;
    assert n * WINDOW <= y + WINDOW - 1 < (n + 1) * WINDOW;
    assert m >= 1;
    assert n >= m + 1;
  }

  lemma TilesJoin(upper: seq<Visit>, lower: seq<Visit>, hi: Time, mid: Time, lo: Time)
    requires Tiles(upper, hi, mid) && Tiles(lower, mid, lo)
    ensures Tiles(upper + lower, hi, lo)
  {
  }

  // The windows of a run: those of its first page, then those of the rest.
  lemma VisitsUnfold(q: Query, to: Time) returns (visits: seq<Visit>, rest: seq<Visit>, bottom: Time)
    requires q.limit > 0 && q.floor > NEVER && to >= q.floor
    ensures visits == Walk(q, to, 0, 0) && Visits(q, to) == visits + rest
    ensures Tiles(visits, to, bottom)
    ensures if bottom == q.floor then rest == [] && PageAt(q, to).next == NEVER
            else q.floor < bottom < to && rest == Visits(q, bottom) && PageAt(q, to).next == bottom
  {
    NextIsLower(q, to);
    WalkTiles(q, to, 0, 0);
    visits := Walk(q, to, 0, 0);
    bottom := Bottom(to, visits);
    rest := if bottom > q.floor then Visits(q, bottom) else [];
  }

  // The windows cover the period, one after the other, with no gap.
  lemma {:induction false} WindowsTile(q: Query, to: Time)
    requires q.limit > 0 && q.floor > NEVER && to >= q.floor
    ensures Tiles(Visits(q, to), to, q.floor)
    decreases (to - q.floor)
  {
    var visits, rest, bottom := VisitsUnfold(q, to);
    if bottom != q.floor {
      WindowsTile(q, bottom);
    }
    TilesJoin(visits, rest, to, bottom, q.floor);
  }

  // ---- What the pages hold ----

  ghost predicate AllBelong(q: Query, es: seq<Entry>, lo: Time, hi: Time) {
    forall i :: 0 <= i < |es| ==> Belongs(q.scope, q.want, lo, hi, es[i])
  }

  ghost predicate InOrder(q: Query, es: seq<Entry>, lo: Time, hi: Time) { Descending(es) && AllBelong(q, es, lo, hi) }

  lemma InOrderJoin(q: Query, upper: seq<Entry>, lower: seq<Entry>, lo: Time, mid: Time, hi: Time)
    requires InOrder(q, upper, mid, hi) && InOrder(q, lower, lo, mid) && lo <= mid <= hi
    ensures InOrder(q, upper + lower, lo, hi)
  {
    hide Admits;
  }

  lemma SourceIsSound(q: Query, v: Visit)
    requires SoundSource(q)
    ensures |Shown(q, v)| <= v.room && AllBelong(q, Shown(q, v), v.from, v.to)
  {
    assert SoundAnswer(q.source(v.from, v.to, v.room), q.scope, q.want, v.from, v.to, v.room);
  }

  lemma {:induction false} FlatBelongs(q: Query, visits: seq<Visit>, hi: Time, lo: Time)
    requires SoundSource(q) && Tiles(visits, hi, lo)
    ensures AllBelong(q, Flat(q, visits), lo, hi) && lo <= hi
  {
    hide Shown, Admits, SoundSource;
    if visits != [] {
      SourceIsSound(q, visits[0]);
      FlatBelongs(q, visits[1..], visits[0].from, lo);
    }
  }

  lemma {:induction false} WalkFits(q: Query, to: Time, got: nat, step: nat)
    requires SoundSource(q) && got <= q.limit
    ensures |Flat(q, Walk(q, to, got, step))| <= q.limit - got
    decreases STEPS - step
  {
    hide Shown, SoundSource;
    if step < STEPS && to > q.floor && got < q.limit {
      var v := Step(q, to, got);
      SourceIsSound(q, v);
      WalkFits(q, v.from, got + |Shown(q, v)|, step + 1);
      FlatCons(q, v, Walk(q, v.from, got + |Shown(q, v)|, step + 1));
    }
  }

  lemma SortedBelongs(q: Query, es: seq<Entry>, lo: Time, hi: Time)
    requires AllBelong(q, es, lo, hi)
    ensures InOrder(q, NewestFirst(es), lo, hi)
  {
    hide Belongs;
    NewestFirstSorts(es);
    forall i | 0 <= i < |NewestFirst(es)| ensures Belongs(q.scope, q.want, lo, hi, NewestFirst(es)[i]) {
      assert NewestFirst(es)[i] in multiset(es);
      var j :| 0 <= j < |es| && es[j] == NewestFirst(es)[i];
    }
  }

  lemma PageHoldsItsWindows(q: Query, to: Time)
    ensures PageAt(q, to).entries == NewestFirst(Flat(q, Walk(q, to, 0, 0)))
  {
    FillWalks(q, to, [], 0);
    assert [] + Flat(q, Walk(q, to, 0, 0)) == Flat(q, Walk(q, to, 0, 0));
  }

  // A page is newest first, within the limit, and all of it may be seen, was asked
  // for, and lies between where the page starts and where the next does.
  lemma PageIsSound(q: Query, to: Time)
    requires q.limit > 0 && q.floor > NEVER && to >= q.floor && SoundSource(q)
    ensures var p := PageAt(q, to);
      |p.entries| <= q.limit && InOrder(q, p.entries, if p.next == NEVER then q.floor else p.next, to)
  {
    hide Shown, SoundSource;
    var visits, rest, bottom := VisitsUnfold(q, to);
    PageHoldsItsWindows(q, to);
    FlatBelongs(q, visits, to, bottom);
    WalkFits(q, to, 0, 0);
    SortedBelongs(q, Flat(q, visits), bottom, to);
    NewestFirstSorts(Flat(q, visits));
  }

  // A page that is not full has read seven days, or all there is.
  lemma ShortPageReachesBack(q: Query, to: Time)
    requires q.limit > 0 && q.floor > NEVER && |PageAt(q, to).entries| < q.limit
    ensures PageAt(q, to).next == if to - 7 * WINDOW > q.floor then to - 7 * WINDOW else NEVER
  {
    hide Shown;
    NextIsLower(q, to);
    PageHoldsItsWindows(q, to);
    NewestFirstSorts(Flat(q, Walk(q, to, 0, 0)));
    ShortWalk(q, to, 0, 0);
  }

  lemma {:induction false} ShortWalk(q: Query, to: Time, got: nat, step: nat)
    requires got + |Flat(q, Walk(q, to, got, step))| < q.limit && step <= STEPS
    ensures Bottom(to, Walk(q, to, got, step)) ==
            if to <= q.floor then to else Max(to - (STEPS - step) * WINDOW, q.floor)
    decreases STEPS - step
  {
    hide Shown;
    if step < STEPS && to > q.floor {
      var v := Step(q, to, got);
      var rest := Walk(q, v.from, got + |Shown(q, v)|, step + 1);
      FlatCons(q, v, rest);
      ShortWalk(q, v.from, got + |Shown(q, v)|, step + 1);
    }
  }

  function Entries(pages: seq<Page>): seq<Entry> {
    if pages == [] then [] else pages[0].entries + Entries(pages[1..])
  }

  lemma PagesUnfold(q: Query, to: Time)
    requires q.limit > 0 && q.floor > NEVER && to >= q.floor
    ensures var p := PageAt(q, to);
      Entries(Follow(q, to)) == p.entries + if p.next == NEVER then [] else Entries(Follow(q, p.next))
  {
    hide PageAt;
    NextIsLower(q, to);
    var p := PageAt(q, to);
    var rest := if p.next == NEVER then [] else Follow(q, p.next);
    assert ([p] + rest)[1..] == rest;
  }

  lemma {:induction false} FlatJoin(q: Query, a: seq<Visit>, b: seq<Visit>)
    ensures Flat(q, a + b) == Flat(q, a) + Flat(q, b)
  {
    hide Shown;
    if a == [] {
      assert a + b == b;
    } else {
      FlatJoin(q, a[1..], b);
      assert a + b == [a[0]] + (a[1..] + b);
      FlatCons(q, a[0], a[1..] + b);
      JoinedThrice(Shown(q, a[0]), Flat(q, a[1..]), Flat(q, b));
    }
  }

  // The pages of a run hold what its windows do, and nothing else.
  lemma {:induction false} RunShowsItsWindows(q: Query, to: Time)
    requires q.limit > 0 && q.floor > NEVER && to >= q.floor
    ensures multiset(Entries(Follow(q, to))) == multiset(Flat(q, Visits(q, to)))
    decreases (to - q.floor)
  {
    hide PageAt, Shown;
    var visits, rest, bottom := VisitsUnfold(q, to);
    PageHoldsItsWindows(q, to);
    NewestFirstSorts(Flat(q, visits));
    PagesUnfold(q, to);
    FlatJoin(q, visits, rest);
    if bottom != q.floor { RunShowsItsWindows(q, bottom); }
  }

  // All pages of a run, one after the other, are newest first.
  lemma {:induction false} RunIsInOrder(q: Query, to: Time)
    requires q.limit > 0 && q.floor > NEVER && to >= q.floor && SoundSource(q)
    ensures InOrder(q, Entries(Follow(q, to)), q.floor, to)
    decreases (to - q.floor)
  {
    hide PageAt, SoundSource, InOrder;
    PageIsSound(q, to);
    PagesUnfold(q, to);
    var visits, rest, bottom := VisitsUnfold(q, to);
    var p := PageAt(q, to);
    if bottom != q.floor {
      RunIsInOrder(q, bottom);
      InOrderJoin(q, p.entries, Entries(Follow(q, bottom)), q.floor, bottom, to);
    } else {
      assert p.entries + [] == p.entries;
    }
  }

  // ---- Every moment of the period ----

  function Holding(visits: seq<Visit>, t: Time): nat {
    if visits == [] then 0 else (if visits[0].from <= t <= visits[0].to then 1 else 0) + Holding(visits[1..], t)
  }

  // t is where one window ends and the next one starts.
  ghost predicate Seam(visits: seq<Visit>, t: Time) { exists i :: 0 < i < |visits| && visits[i].to == t }

  lemma {:induction false} TilesDescend(visits: seq<Visit>, hi: Time, lo: Time, t: Time)
    requires Tiles(visits, hi, lo)
    ensures lo <= hi && (t > hi ==> Holding(visits, t) == 0)
    ensures forall i :: 0 <= i < |visits| ==> lo <= visits[i].from < visits[i].to <= hi
    ensures forall i :: 0 < i < |visits| ==> visits[i].to < hi
  {
    if visits != [] { TilesDescend(visits[1..], visits[0].from, lo, t); }
  }

  // Every moment of the period is in one window, or in two if it is a seam.
  lemma {:induction false} EveryMomentIsHeld(visits: seq<Visit>, hi: Time, lo: Time, t: Time)
    requires Tiles(visits, hi, lo) && visits != [] && lo <= t <= hi
    ensures Holding(visits, t) == if Seam(visits, t) then 2 else 1
  {
    var rest, mid := visits[1..], visits[0].from;
    TilesDescend(rest, mid, lo, t);
    TilesDescend(visits, hi, lo, t);
    if rest != [] {
      assert rest[0] == visits[1];
      if t <= mid { EveryMomentIsHeld(rest, mid, lo, t); }
      if t == mid { assert visits[1].to == t; }
      assert forall i :: 0 < i < |rest| ==> rest[i] == visits[i + 1];
      if t < mid {
        if Seam(visits, t) {
          var i :| 0 < i < |visits| && visits[i].to == t;
          assert rest[i - 1].to == t;
        }
        if Seam(rest, t) {
          var i :| 0 < i < |rest| && rest[i].to == t;
          assert visits[i + 1].to == t;
        }
      }
    }
  }

  lemma {:induction false} HeldOnlyWithin(visits: seq<Visit>, hi: Time, lo: Time, t: Time)
    requires Tiles(visits, hi, lo) && Holding(visits, t) > 0
    ensures lo <= t <= hi
  {
    TilesDescend(visits, hi, lo, t);
    if !(visits[0].from <= t <= visits[0].to) { HeldOnlyWithin(visits[1..], visits[0].from, lo, t); }
  }

  lemma NothingBelow(q: Query, to: Time)
    requires q.limit > 0 && q.floor > NEVER && to <= q.floor
    ensures Visits(q, to) == []
  {
    NextIsLower(q, to);
  }

  // ---- What a request asks for ----

  // The moments asked for, by what is given: never further back than the horizon, and
  // never later than now.
  ghost predicate AskedFor(f: Filter, now: Time, horizon: nat, t: Time) {
    && now - horizon <= t <= now
    && (f.since != NEVER ==> f.since <= t)
    && (f.to != NEVER ==> t <= f.to)
  }

  function Room(f: Filter): nat { if 1 <= f.limit <= 500 then f.limit else 200 }

  // What the reader may expect of a page.
  ghost predicate AsAsked(p: Page, sc: Scope, f: Filter, now: Time, horizon: nat) {
    && |p.entries| <= Room(f) && Descending(p.entries)
    && (forall i :: 0 <= i < |p.entries| ==>
          AskedFor(f, now, horizon, p.entries[i].time) && Admits(sc, f.want, p.entries[i]))
    && (p.next != NEVER ==> AskedFor(f, now, horizon, p.next) && AskedFor(f, now, horizon, p.next + WINDOW))
    && (p.next != NEVER && |p.entries| < Room(f) ==>
          AskedFor(f, now, horizon, p.next + 7 * WINDOW) && !AskedFor(f, now, horizon, p.next + 7 * WINDOW + 1))
  }

  // A page over a source that answers as it is asked is as its reader asked for it.
  lemma PageIsAsAsked(source: Source, sc: Scope, f: Filter, now: Time, horizon: nat)
    requires now - horizon > NEVER && Sound(source, sc, f.want)
    ensures AsAsked(PageAt(Asked(source, sc, f, now, horizon), Start(f, now)), sc, f, now, horizon)
  {
    hide PageAt, Admits, Sound;
    var q, to := Asked(source, sc, f, now, horizon), Start(f, now);
    var p := PageAt(q, to);
    assert SoundSource(q);
    NextIsLower(q, to);
    if |p.entries| < q.limit { ShortPageReachesBack(q, to); }
    if to >= q.floor {
      PageIsSound(q, to);
      forall i | 0 <= i < |p.entries|
        ensures AskedFor(f, now, horizon, p.entries[i].time) && Admits(sc, f.want, p.entries[i])
      {
        assert Belongs(q.scope, q.want, q.floor, to, p.entries[i]);
      }
    } else {
      PageHoldsItsWindows(q, to);
      assert Walk(q, to, 0, 0) == [];
    }
  }

  // The windows of the run from it hold the moments asked for and no others, unless
  // only one was asked for, for which no window is read.
  lemma RunCoversWhatIsAsked(source: Source, sc: Scope, f: Filter, now: Time, horizon: nat, t: Time)
    requires now - horizon > NEVER
    ensures var q, to := Asked(source, sc, f, now, horizon), Start(f, now);
      && q.limit > 0 && q.floor > NEVER
      && (Holding(Visits(q, to), t) > 0
          <==> AskedFor(f, now, horizon, t) && exists u :: AskedFor(f, now, horizon, u) && u != t)
  {
    var q, to := Asked(source, sc, f, now, horizon), Start(f, now);
    assert forall u :: AskedFor(f, now, horizon, u) <==> q.floor <= u <= to;
    if to > q.floor {
      WindowsTile(q, to);
      if q.floor <= t <= to { EveryMomentIsHeld(Visits(q, to), to, q.floor, t); }
      if Holding(Visits(q, to), t) > 0 { HeldOnlyWithin(Visits(q, to), to, q.floor, t); }
      assert AskedFor(f, now, horizon, q.floor) && AskedFor(f, now, horizon, to);
    } else {
      NothingBelow(q, to);
    }
  }

  // ---- The next request ----

  // Asking again from where a page says the next one starts, at the same time, is a
  // step of the same run.
  lemma AskingAgain(source: Source, sc: Scope, f: Filter, now: Time, horizon: nat)
    requires now - horizon > NEVER
    ensures var q, to := Asked(source, sc, f, now, horizon), Start(f, now);
      var next := PageAt(q, to).next;
      && q.limit > 0 && q.floor > NEVER
      && (next != NEVER ==> var again := f.(to := next);
            Asked(source, sc, again, now, horizon) == q && Start(again, now) == next)
  {
    NextIsLower(Asked(source, sc, f, now, horizon), Start(f, now));
  }

  // A millisecond, in nanoseconds: a cursor is sent to the page and back in whole ones.
  const MILLISECOND: int := 1_000_000

  function Sent(cursor: Time): Time { cursor - cursor % MILLISECOND }

  // What that costs: of all the moments of a page's period and what lies below it,
  // the page and the run from the cursor that is sent back hold every one but those
  // after the one sent and before the one meant, less than a millisecond, and where
  // the one sent is at the floor or below it, those between the floor and the one meant.
  lemma RoundedCursorLoses(q: Query, to: Time, t: Time)
    requires q.limit > 0 && q.floor > NEVER && q.floor <= t <= to && PageAt(q, to).next != NEVER
    ensures var next := PageAt(q, to).next;
      var sent := Sent(next);
      && next - MILLISECOND < sent <= next
      && (Holding(Walk(q, to, 0, 0), t) == 0 && Holding(Visits(q, sent), t) == 0
          <==> t < next && (sent > q.floor ==> sent < t))
  {
    hide PageAt;
    var visits, rest, next := VisitsUnfold(q, to);
    var sent := Sent(next);
    if t >= next { EveryMomentIsHeld(visits, to, next, t); }
    if t < next && Holding(visits, t) > 0 { HeldOnlyWithin(visits, to, next, t); }
    if sent > q.floor {
      WindowsTile(q, sent);
      if t <= sent {
        EveryMomentIsHeld(Visits(q, sent), sent, q.floor, t);
      } else if Holding(Visits(q, sent), t) > 0 {
        HeldOnlyWithin(Visits(q, sent), sent, q.floor, t);
      }
    } else {
      NothingBelow(q, sent);
    }
  }

}
