// Whole runs of pages over the pod logs: exactly when nothing is missed.

module PodRuns {
  import opened Prelude
  import opened AccessModel
  import opened AuditLog
  import opened Paging
  import opened PagingRuns
  import opened PodLogs

  // ---- What one window shows ----

  // How often e is in the list.
  ghost function Times(es: seq<Entry>, e: Entry): nat { multiset(es)[e] }

  // How often e is in the output.
  function Copies(lines: seq<Line>, e: Entry): nat {
    if lines == [] then 0
    else Copies(lines[..|lines| - 1], e) + if lines[|lines| - 1].entry == Some(e) then 1 else 0
  }

  function LogCopies(log: seq<Container>, e: Entry): nat {
    if log == [] then 0 else LogCopies(log[..|log| - 1], e) + Copies(log[|log| - 1].lines, e)
  }

  // An entry is printed no earlier than what it records.
  ghost predicate Stamped(lines: seq<Line>) {
    forall i :: 0 <= i < |lines| && lines[i].entry.Some? ==> lines[i].entry.value.time <= lines[i].stamp
  }

  // The cluster hands everything out, and no container has printed more since
  // `from` than one pass reads, nor any line that is too long.
  ghost predicate Readable(log: seq<Container>, from: Time) {
    forall i :: 0 <= i < |log| ==>
      && log[i].refused == {} && Stamped(log[i].lines) && |Since(log[i].lines, from)| <= MAX_SCANNED
      && forall j :: 0 <= j < |log[i].lines| && log[i].lines[j].tooLong ==> log[i].lines[j].stamp < from
  }

  lemma {:induction false} FoundTimes(sc: Scope, want: Want, lines: seq<Line>, from: Time, to: Time, e: Entry)
    ensures Times(Found(sc, want, lines, from, to), e) == if Belongs(sc, want, from, to, e) then Copies(lines, e) else 0
  {
    hide Admits;
    if lines != [] { FoundTimes(sc, want, lines[..|lines| - 1], from, to, e); }
  }

  lemma {:induction false} SinceCopies(lines: seq<Line>, from: Time, e: Entry)
    requires Stamped(lines) && e.time >= from
    ensures Copies(Since(lines, from), e) == Copies(lines, e)
  {
    if lines != [] {
      var n := |lines| - 1;
      SinceCopies(lines[..n], from, e);
      var since := Since(lines[..n], from);
      if lines[n].stamp < from {
        assert since + [] == since;
        assert lines[n].entry != Some(e);
      } else {
        assert (since + [lines[n]])[..|since|] == since;
      }
    }
  }

  lemma {:induction false} SinceIsLate(lines: seq<Line>, from: Time, k: nat)
    requires k < |Since(lines, from)|
    ensures exists j :: 0 <= j < |lines| && lines[j] == Since(lines, from)[k] && lines[j].stamp >= from
  {
    var n := |lines| - 1;
    if k < |Since(lines[..n], from)| {
      SinceIsLate(lines[..n], from, k);
      var j :| 0 <= j < n && lines[..n][j] == Since(lines[..n], from)[k] && lines[..n][j].stamp >= from;
      assert lines[j] == Since(lines, from)[k];
    } else {
      assert lines[n] == Since(lines, from)[k];
    }
  }

  // Since a point in time: every line no earlier, as often as it is there, in order.
  lemma {:induction false} SinceKeeps(lines: seq<Line>, from: Time, line: Line)
    ensures multiset(Since(lines, from))[line] == if line.stamp >= from then multiset(lines)[line] else 0
  {
    if lines != [] {
      var n := |lines| - 1;
      var above := Since(lines[..n], from);
      SinceKeeps(lines[..n], from, line);
      assert lines == lines[..n] + [lines[n]];
      assert multiset(lines) == multiset(lines[..n]) + multiset{lines[n]};
      assert Since(lines, from) == if lines[n].stamp < from then above else above + [lines[n]];
    }
  }

  lemma {:induction false} SinceInOrder(a: seq<Line>, b: seq<Line>, from: Time)
    ensures Since(a + b, from) == Since(a, from) + Since(b, from)
  {
    if b == [] {
      assert a + b == a && Since(a, from) + [] == Since(a, from);
    } else {
      var n := |b| - 1;
      SinceInOrder(a, b[..n], from);
      assert (a + b)[..|a + b| - 1] == a + b[..n];
    }
  }

  // What is read of a container: the first two hundred thousand of those lines, or
  // nothing if it is refused or one of them, or the next, is too long.
  lemma ScannedIsTheFirst(c: Container, from: Time)
    ensures var since, read := Since(c.lines, from), Scanned(c, from);
      if from in c.refused || (exists i :: 0 <= i < |since| && i <= 200_000 && since[i].tooLong) then read == []
      else read <= since && |read| == if |since| <= 200_000 then |since| else 200_000
  {
  }

  // A container that can be read is, whatever becomes of the others.
  lemma {:induction false} NoneHidesAnother(sc: Scope, want: Want, log: seq<Container>, from: Time, to: Time, i: nat, e: Entry)
    requires i < |log| && Belongs(sc, want, from, to, e)
    ensures Times(Gathered(sc, want, log, from, to), e) >= Copies(Scanned(log[i], from), e)
  {
    hide Admits, Scanned;
    var n := |log| - 1;
    FoundTimes(sc, want, Scanned(log[n], from), from, to, e);
    if i < n { NoneHidesAnother(sc, want, log[..n], from, to, i, e); }
  }

  lemma ReadableIsScanned(log: seq<Container>, from: Time, i: nat)
    requires Readable(log, from) && i < |log|
    ensures Scanned(log[i], from) == Since(log[i].lines, from) && Stamped(log[i].lines)
  {
    var c := log[i];
    forall k | 0 <= k < |Since(c.lines, from)| ensures !Since(c.lines, from)[k].tooLong {
      SinceIsLate(c.lines, from, k);
    }
  }

  lemma {:induction false} GatheredTimes(sc: Scope, want: Want, log: seq<Container>, from: Time, to: Time, e: Entry)
    requires Readable(log, from)
    ensures Times(Gathered(sc, want, log, from, to), e) == if Belongs(sc, want, from, to, e) then LogCopies(log, e) else 0
  {
    hide Admits, Scanned;
    if log != [] {
      var n := |log| - 1;
      GatheredTimes(sc, want, log[..n], from, to, e);
      ReadableIsScanned(log, from, n);
      FoundTimes(sc, want, Scanned(log[n], from), from, to, e);
      if e.time >= from { SinceCopies(log[n].lines, from, e); }
    }
  }

  lemma {:induction false} FoundBelongs(sc: Scope, want: Want, lines: seq<Line>, from: Time, to: Time, i: nat)
    requires i < |Found(sc, want, lines, from, to)|
    ensures Belongs(sc, want, from, to, Found(sc, want, lines, from, to)[i])
  {
    hide Admits;
    if i < |Found(sc, want, lines[..|lines| - 1], from, to)| { FoundBelongs(sc, want, lines[..|lines| - 1], from, to, i); }
  }

  lemma {:induction false} GatheredBelongs(sc: Scope, want: Want, log: seq<Container>, from: Time, to: Time, i: nat)
    requires i < |Gathered(sc, want, log, from, to)|
    ensures Belongs(sc, want, from, to, Gathered(sc, want, log, from, to)[i])
  {
    hide Belongs, Scanned;
    var n := |log| - 1;
    var above := Gathered(sc, want, log[..n], from, to);
    if i < |above| {
      GatheredBelongs(sc, want, log[..n], from, to, i);
    } else {
      FoundBelongs(sc, want, Scanned(log[n], from), from, to, i - |above|);
    }
  }

  // The pods answer as they are asked, and newest first.
  lemma PodsAreSound(log: seq<Container>, sc: Scope, want: Want, floor: Time, limit: nat)
    ensures SoundSource(Query(PodSource(log, sc, want), sc, want, floor, limit))
  {
    hide Gathered, Belongs;
    forall from, to, room ensures SoundAnswer(Batch(log, sc, want, from, to, room), sc, want, from, to, room) {
      BatchIsSound(log, sc, want, from, to, room);
    }
  }

  lemma BatchIsSound(log: seq<Container>, sc: Scope, want: Want, from: Time, to: Time, room: nat)
    ensures SoundAnswer(Batch(log, sc, want, from, to, room), sc, want, from, to, room)
    ensures Descending(Batch(log, sc, want, from, to, room))
  {
    hide Gathered, Belongs;
    var all, shown := Gathered(sc, want, log, from, to), Batch(log, sc, want, from, to, room);
    NewestFirstSorts(all);
    forall i | 0 <= i < |shown| ensures Belongs(sc, want, from, to, shown[i]) {
      assert shown[i] == NewestFirst(all)[i];
      assert NewestFirst(all)[i] in multiset(all);
      var j :| 0 <= j < |all| && all[j] == NewestFirst(all)[i];
      GatheredBelongs(sc, want, log, from, to, j);
    }
  }

  // Where there is not room for all of it, what is left out is no newer than anything
  // that is shown.
  lemma NewestAreShown(log: seq<Container>, sc: Scope, want: Want, from: Time, to: Time, room: nat, e: Entry)
    ensures var all, shown := Gathered(sc, want, log, from, to), Batch(log, sc, want, from, to, room);
      && |shown| == (if |all| <= room then |all| else room)
      && (Times(shown, e) < Times(all, e) ==> forall i :: 0 <= i < |shown| ==> e.time <= shown[i].time)
      && Times(shown, e) <= Times(all, e)
  {
    hide Gathered;
    var all := Gathered(sc, want, log, from, to);
    var sorted := NewestFirst(all);
    NewestFirstSorts(all);
    if |all| > room {
      var shown, rest := sorted[..room], sorted[room..];
      assert sorted == shown + rest;
      assert Times(all, e) == Times(shown, e) + Times(rest, e);
      if e in rest {
        var j :| 0 <= j < |rest| && rest[j] == e;
        assert sorted[room + j] == e;
      }
    }
  }

  // A query to the pods.
  ghost predicate AsksPods(q: Query, log: seq<Container>) { q.source == PodSource(log, q.scope, q.want) }

  // Everything the log holds for the window was read, and there is room for it.
  predicate Whole(q: Query, log: seq<Container>, v: Visit) {
    |Due(q.scope, q.want, log, v.from, v.to)| == |Gathered(q.scope, q.want, log, v.from, v.to)| <= v.room
  }

  ghost function Expected(q: Query, log: seq<Container>, v: Visit, e: Entry): nat {
    if Belongs(q.scope, q.want, v.from, v.to, e) then LogCopies(log, e) else 0
  }

  lemma {:induction false} DueTimes(sc: Scope, want: Want, log: seq<Container>, from: Time, to: Time, e: Entry)
    ensures Times(Due(sc, want, log, from, to), e) == if Belongs(sc, want, from, to, e) then LogCopies(log, e) else 0
  {
    hide Admits;
    if log != [] {
      var n := |log| - 1;
      DueTimes(sc, want, log[..n], from, to, e);
      FoundTimes(sc, want, log[n].lines, from, to, e);
    }
  }

  lemma {:induction false} SinceCopiesLess(lines: seq<Line>, from: Time, e: Entry)
    ensures Copies(Since(lines, from), e) <= Copies(lines, e)
  {
    if lines != [] {
      var n := |lines| - 1;
      SinceCopiesLess(lines[..n], from, e);
      var since := Since(lines[..n], from);
      if lines[n].stamp < from {
        assert since + [] == since;
      } else {
        assert (since + [lines[n]])[..|since|] == since;
      }
    }
  }

  lemma {:induction false} FirstCopies(lines: seq<Line>, n: nat, e: Entry)
    requires n <= |lines|
    ensures Copies(lines[..n], e) <= Copies(lines, e)
  {
    if n < |lines| {
      FirstCopies(lines[..|lines| - 1], n, e);
      assert lines[..|lines| - 1][..n] == lines[..n];
    } else {
      assert lines[..n] == lines;
    }
  }

  lemma ScannedCopies(c: Container, from: Time, e: Entry)
    ensures Copies(Scanned(c, from), e) <= Copies(c.lines, e)
  {
    SinceCopiesLess(c.lines, from, e);
    if |Since(c.lines, from)| > MAX_SCANNED { FirstCopies(Since(c.lines, from), MAX_SCANNED, e); }
  }

  // Reading less shows less.
  lemma {:induction false} GatheredAtMost(sc: Scope, want: Want, log: seq<Container>, from: Time, to: Time, e: Entry)
    ensures Times(Gathered(sc, want, log, from, to), e) <= Times(Due(sc, want, log, from, to), e)
  {
    hide Admits;
    if log != [] {
      var n := |log| - 1;
      GatheredAtMost(sc, want, log[..n], from, to, e);
      var lines := log[n].lines;
      FoundTimes(sc, want, lines, from, to, e);
      FoundTimes(sc, want, Scanned(log[n], from), from, to, e);
      ScannedCopies(log[n], from, e);
    }
  }

  // A list within another is the same up to order, or lacks something.
  lemma SameOrLacks(a: seq<Entry>, b: seq<Entry>)
    requires forall e :: Times(a, e) <= Times(b, e)
    ensures |a| <= |b| && (|a| == |b| ==> forall e :: Times(a, e) == Times(b, e))
    ensures |a| < |b| ==> exists e :: Times(a, e) < Times(b, e)
  {
    var m, n := multiset(a), multiset(b);
    assert forall e :: Times(a, e) == m[e] && Times(b, e) == n[e];
    assert m <= n;
    assert n == m + (n - m) && |n| == |m| + |n - m|;
    if |a| < |b| {
      var e :| e in n - m;
      assert Times(a, e) < Times(b, e);
    } else {
      assert n - m == multiset{};
    }
  }

  lemma AllGathered(q: Query, log: seq<Container>, v: Visit)
    ensures var g, d := Gathered(q.scope, q.want, log, v.from, v.to), Due(q.scope, q.want, log, v.from, v.to);
      && (forall e :: Times(g, e) <= Times(d, e) == Expected(q, log, v, e))
      && |g| <= |d| && (|g| == |d| ==> forall e :: Times(g, e) == Times(d, e))
      && (|g| < |d| ==> exists e :: Times(g, e) < Times(d, e))
  {
    var g, d := Gathered(q.scope, q.want, log, v.from, v.to), Due(q.scope, q.want, log, v.from, v.to);
    forall e: Entry ensures Times(g, e) <= Times(d, e) == Expected(q, log, v, e) {
      GatheredAtMost(q.scope, q.want, log, v.from, v.to, e);
      DueTimes(q.scope, q.want, log, v.from, v.to, e);
    }
    SameOrLacks(g, d);
  }

  // What is shown of a window is part of what is gathered: all of it if it fits.
  lemma ShownOfGathered(q: Query, log: seq<Container>, v: Visit)
    requires AsksPods(q, log)
    ensures var g := Gathered(q.scope, q.want, log, v.from, v.to);
      && (forall e :: Times(Shown(q, v), e) <= Times(g, e))
      && (|g| <= v.room ==> forall e :: Times(Shown(q, v), e) == Times(g, e))
      && (|g| > v.room ==> exists e :: Times(Shown(q, v), e) < Times(g, e))
  {
    hide Gathered;
    var g := Gathered(q.scope, q.want, log, v.from, v.to);
    NewestFirstSorts(g);
    var sorted := NewestFirst(g);
    if |g| > v.room {
      assert sorted == sorted[..v.room] + sorted[v.room..];
      assert sorted[v.room] in sorted[v.room..];
      assert Times(Shown(q, v), sorted[v.room]) < Times(g, sorted[v.room]);
    }
  }

  lemma ShownTimes(q: Query, log: seq<Container>, v: Visit, e: Entry)
    requires AsksPods(q, log)
    ensures Times(Shown(q, v), e) <= Expected(q, log, v, e)
    ensures Whole(q, log, v) ==> Times(Shown(q, v), e) == Expected(q, log, v, e)
  {
    hide Gathered, Due, Shown, Expected;
    AllGathered(q, log, v);
    ShownOfGathered(q, log, v);
  }

  // If not everything was read, or there is no room for it, something is left out.
  lemma ShortLoses(q: Query, log: seq<Container>, v: Visit) returns (e: Entry)
    requires AsksPods(q, log) && !Whole(q, log, v)
    ensures Times(Shown(q, v), e) < Expected(q, log, v, e)
  {
    hide Gathered, Due, Shown, Expected;
    AllGathered(q, log, v);
    ShownOfGathered(q, log, v);
    var g := Gathered(q.scope, q.want, log, v.from, v.to);
    if |g| > v.room {
      e :| Times(Shown(q, v), e) < Times(g, e);
    } else {
      e :| Times(g, e) < Times(Due(q.scope, q.want, log, v.from, v.to), e);
    }
  }

  // Everything is read for certain where the cluster hands everything out, no
  // container has printed more than one pass reads, or a line that is too long, and
  // entries are printed no earlier than what they record.
  lemma ReadableIsWhole(q: Query, log: seq<Container>, v: Visit)
    requires Readable(log, q.floor) && q.floor <= v.from
    ensures Whole(q, log, v) <==> |Gathered(q.scope, q.want, log, v.from, v.to)| <= v.room
  {
    hide Readable;
    var g, d := Gathered(q.scope, q.want, log, v.from, v.to), Due(q.scope, q.want, log, v.from, v.to);
    StillReadable(log, q.floor, v.from);
    forall e: Entry ensures Times(g, e) == Times(d, e) {
      GatheredTimes(q.scope, q.want, log, v.from, v.to, e);
      DueTimes(q.scope, q.want, log, v.from, v.to, e);
    }
    SameOrLacks(g, d);
  }

  lemma {:induction false} SinceShrinks(lines: seq<Line>, from: Time, later: Time)
    requires from <= later
    ensures |Since(lines, later)| <= |Since(lines, from)|
  {
    if lines != [] { SinceShrinks(lines[..|lines| - 1], from, later); }
  }

  lemma StillReadable(log: seq<Container>, from: Time, later: Time)
    requires Readable(log, from) && from <= later
    ensures Readable(log, later)
  {
    forall i | 0 <= i < |log| ensures |Since(log[i].lines, later)| <= MAX_SCANNED {
      SinceShrinks(log[i].lines, from, later);
    }
  }

  // ---- Nothing is missed, unless a window is cut ----

  // What the windows would show of e if none was cut.
  ghost function Promised(q: Query, log: seq<Container>, visits: seq<Visit>, e: Entry): nat {
    if Admits(q.scope, q.want, e) then LogCopies(log, e) * Holding(visits, e.time) else 0
  }

  ghost predicate Cuts(q: Query, log: seq<Container>, visits: seq<Visit>) {
    exists i :: 0 <= i < |visits| && !Whole(q, log, visits[i])
  }

  lemma {:induction false} FlatTimes(q: Query, log: seq<Container>, visits: seq<Visit>, e: Entry)
    requires AsksPods(q, log)
    ensures Times(Flat(q, visits), e) <= Promised(q, log, visits, e)
    ensures !Cuts(q, log, visits) ==> Times(Flat(q, visits), e) == Promised(q, log, visits, e)
  {
    hide Shown, Whole, Admits;
    if visits != [] {
      var v, rest := visits[0], visits[1..];
      ShownTimes(q, log, v, e);
      if Cuts(q, log, rest) {
        var i :| 0 <= i < |rest| && !Whole(q, log, rest[i]);
        assert !Whole(q, log, visits[i + 1]);
      }
      FlatTimes(q, log, rest, e);
      assert Promised(q, log, visits, e) == Expected(q, log, v, e) + Promised(q, log, rest, e) by { PromisedCons(q, log, visits, e); }
    }
  }

  lemma PromisedCons(q: Query, log: seq<Container>, visits: seq<Visit>, e: Entry)
    requires visits != []
    ensures Promised(q, log, visits, e) == Expected(q, log, visits[0], e) + Promised(q, log, visits[1..], e)
  {
    hide Admits;
    var n, h := LogCopies(log, e), Holding(visits[1..], e.time);
    assert n * (1 + h) == n + n * h;
  }

  // A window that is cut, in reading or in showing, loses something for good.
  lemma {:induction false} CutsLose(q: Query, log: seq<Container>, visits: seq<Visit>) returns (e: Entry)
    requires AsksPods(q, log) && Cuts(q, log, visits)
    ensures Times(Flat(q, visits), e) < Promised(q, log, visits, e)
  {
    hide Shown, Whole, Admits;
    var v, rest := visits[0], visits[1..];
    if !Whole(q, log, v) {
      e := ShortLoses(q, log, v);
      FlatTimes(q, log, rest, e);
    } else {
      var i :| 0 <= i < |visits| && !Whole(q, log, visits[i]);
      assert !Whole(q, log, rest[i - 1]);
      e := CutsLose(q, log, rest);
      ShownTimes(q, log, v, e);
    }
    PromisedCons(q, log, visits, e);
  }

  // Every entry in the period that may be seen and was asked for is among those
  // shown as often as it is in the log, and twice that if its time is a seam.
  ghost predicate ShowsAll(q: Query, log: seq<Container>, visits: seq<Visit>, to: Time, shown: seq<Entry>) {
    forall e: Entry :: Belongs(q.scope, q.want, q.floor, to, e) ==>
      Times(shown, e) == LogCopies(log, e) * if Seam(visits, e.time) then 2 else 1
  }

  lemma UncutShowsAll(q: Query, log: seq<Container>, visits: seq<Visit>, to: Time)
    requires AsksPods(q, log) && Tiles(visits, to, q.floor) && visits != [] && !Cuts(q, log, visits)
    ensures ShowsAll(q, log, visits, to, Flat(q, visits))
  {
    hide Whole, Shown, Admits, Cuts, Seam, Tiles;
    forall e: Entry | Belongs(q.scope, q.want, q.floor, to, e)
      ensures Times(Flat(q, visits), e) == LogCopies(log, e) * if Seam(visits, e.time) then 2 else 1
    {
      FlatTimes(q, log, visits, e);
      EveryMomentIsHeld(visits, to, q.floor, e.time);
    }
  }

  lemma CutHidesSome(q: Query, log: seq<Container>, visits: seq<Visit>, to: Time)
    requires AsksPods(q, log) && Tiles(visits, to, q.floor) && visits != [] && Cuts(q, log, visits)
    ensures !ShowsAll(q, log, visits, to, Flat(q, visits))
  {
    hide Whole, Shown, Admits, Cuts, Seam, Tiles;
    var e := CutsLose(q, log, visits);
    var shown := Times(Flat(q, visits), e);
    assert shown < Promised(q, log, visits, e);
    HeldOnlyWithin(visits, to, q.floor, e.time);
    EveryMomentIsHeld(visits, to, q.floor, e.time);
    assert Belongs(q.scope, q.want, q.floor, to, e);
  }

  // A run shows everything exactly if every window was read to the end and left
  // room for all that was found in it.
  lemma CompleteUnlessCut(q: Query, log: seq<Container>, to: Time)
    requires AsksPods(q, log) && q.limit > 0 && q.floor > NEVER && to > q.floor
    ensures ShowsAll(q, log, Visits(q, to), to, Entries(Follow(q, to))) <==> !Cuts(q, log, Visits(q, to))
  {
    hide Whole, Shown, Admits, Cuts, ShowsAll;
    var visits, shown := Visits(q, to), Entries(Follow(q, to));
    RunShowsItsWindows(q, to);
    WindowsTile(q, to);
    SameTimes(q, log, visits, to, shown, Flat(q, visits));
    if Cuts(q, log, visits) { CutHidesSome(q, log, visits, to); } else { UncutShowsAll(q, log, visits, to); }
  }

  lemma SameTimes(q: Query, log: seq<Container>, visits: seq<Visit>, to: Time, a: seq<Entry>, b: seq<Entry>)
    requires multiset(a) == multiset(b)
    ensures ShowsAll(q, log, visits, to, a) <==> ShowsAll(q, log, visits, to, b)
  {
    hide Belongs, Seam;
    assert forall e :: Times(a, e) == Times(b, e);
  }
}
