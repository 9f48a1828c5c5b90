// What the aligned rows are worth to a reader: nothing is lost, nothing is
// claimed equal that is not, and how close the pairing is to the best possible.

module Alignment {
  import opened Prelude
  import opened LineDiff
  import Lcs

  datatype Side = Left | Right

  function FileOf<T>(side: Side, a: seq<T>, b: seq<T>): seq<T> { if side == Left then a else b }

  // The cell a row shows on one side: the text and its line number.
  datatype Cell<T> = Cell(text: Option<T>, no: Option<nat>)

  function CellOf<T>(side: Side, r: Row<T>): Cell<T> {
    if side == Left then Cell(r.left, r.leftNo) else Cell(r.right, r.rightNo)
  }

  // One column of the page, top to bottom, shows exactly the first n lines of f
  // in order, numbered 1 to n, with blank cells between them.
  ghost predicate Shows<T>(side: Side, rows: seq<Row<T>>, f: seq<T>, n: nat)
    requires n <= |f|
  {
    if rows == [] then n == 0
    else
      var last, above := CellOf(side, rows[|rows| - 1]), rows[..|rows| - 1];
      if last == Cell(None, None) then Shows(side, above, f, n)
      else n > 0 && last == Cell(Some(f[n - 1]), Some(n)) && Shows(side, above, f, n - 1)
  }

  function Count<T>(kind: Kind, rows: seq<Row<T>>): nat {
    if rows == [] then 0
    else Count(kind, rows[..|rows| - 1]) + if rows[|rows| - 1].kind == kind then 1 else 0
  }

  // ---- Pushing and joining ----

  lemma PushShows<T>(side: Side, rows: seq<Row<T>>, r: Row<T>, f: seq<T>, n: nat)
    requires n <= |f| && Shows(side, rows, f, n)
    ensures CellOf(side, r) == Cell(None, None) ==> Shows(side, rows + [r], f, n)
    ensures n < |f| && CellOf(side, r) == Cell(Some(f[n]), Some(n + 1)) ==> Shows(side, rows + [r], f, n + 1)
  {
    assert (rows + [r])[..|rows|] == rows;
  }

  lemma PushCount<T>(kind: Kind, rows: seq<Row<T>>, r: Row<T>)
    ensures Count(kind, rows + [r]) == Count(kind, rows) + if r.kind == kind then 1 else 0
  {
    assert (rows + [r])[..|rows|] == rows;
  }

  // ---- Nothing is lost, in either column ----

  function Pos(side: Side, i: nat, j: nat): nat { if side == Left then i else j }

  // `part` is what f holds from line `offset` on.
  ghost predicate PartOf<T>(f: seq<T>, part: seq<T>, offset: nat) {
    offset + |part| <= |f| && forall k :: 0 <= k < |part| ==> part[k] == f[offset + k]
  }

  lemma {:induction false} WalkShows<T>(side: Side, f: seq<T>, a: seq<T>, b: seq<T>, offset: nat, i: nat, j: nat, rows: seq<Row<T>>)
    requires i <= |a| && j <= |b| && PartOf(f, FileOf(side, a, b), offset)
    requires Shows(side, rows, f, offset + Pos(side, i, j))
    ensures Shows(side, Walk(a, b, offset, i, j, rows), f, offset + |FileOf(side, a, b)|)
    decreases |a| - i + |b| - j
  {
    if !(i == |a| && j == |b|) {
      var r := NextRow(a, b, offset, i, j);
      PushShows(side, rows, r, f, offset + Pos(side, i, j));
      WalkShows(side, f, a, b, offset, i + Used(r.left), j + Used(r.right), rows + [r]);
    }
  }

  lemma {:induction false} CoarseShows<T>(side: Side, f: seq<T>, a: seq<T>, b: seq<T>, offset: nat, i: nat, rows: seq<Row<T>>)
    requires var m := FileOf(side, a, b);
      PartOf(f, m, offset) && Shows(side, rows, f, offset + if i <= |m| then i else |m|)
    ensures Shows(side, Coarse(a, b, offset, i, rows), f, offset + |FileOf(side, a, b)|)
    decreases Max(|a|, |b|) - i
  {
    var m := FileOf(side, a, b);
    if i < Max(|a|, |b|) {
      PushShows(side, rows, CoarseRow(a, b, offset, i), f, offset + if i <= |m| then i else |m|);
      CoarseShows(side, f, a, b, offset, i + 1, rows + [CoarseRow(a, b, offset, i)]);
    }
  }

  lemma {:induction false} PushSameShows<T>(side: Side, a: seq<T>, b: seq<T>, i: nat, j: nat, n: nat, rows: seq<Row<T>>)
    requires Matching(a, b, i, j, n)
    requires Shows(side, rows, FileOf(side, a, b), Pos(side, i, j))
    ensures Shows(side, PushSame(a, b, i, j, n, rows), FileOf(side, a, b), Pos(side, i, j) + n)
  {
    if n > 0 {
      PushSameShows(side, a, b, i, j, n - 1, rows);
      PushShows(side, PushSame(a, b, i, j, n - 1, rows), SameRow(a[i + n - 1], b[j + n - 1], i + n, j + n),
                FileOf(side, a, b), Pos(side, i, j) + n - 1);
    }
  }

  lemma AroundShows<T>(side: Side, a: seq<T>, b: seq<T>, p: nat, n: nat)
    requires Shared(a, b, p, n)
    ensures Shows(side, RowsAround(a, b, p, n), FileOf(side, a, b), |FileOf(side, a, b)|)
  {
    var x, y := a[p..|a| - n], b[p..|b| - n];
    var f := FileOf(side, a, b);
    var top := PushSame(a, b, 0, 0, p, []);
    var middle := PushMiddle(x, y, p, top);
    assert Shows(side, top, f, p) by {
      PushSameShows(side, a, b, 0, 0, p, []);
    }
    assert Shows(side, middle, f, |f| - n) by {
      assert PartOf(f, FileOf(side, x, y), p);
      if WithinLimit(x, y) { WalkShows(side, f, x, y, p, 0, 0, top); } else { CoarseShows(side, f, x, y, p, 0, top); }
    }
    PushSameShows(side, a, b, |a| - n, |b| - n, n, middle);
  }

  // What is put side by side: all but the ends the two files share.
  lemma AlignStrips<T>(a: seq<T>, b: seq<T>) returns (p: nat, n: nat)
    ensures Stripped(a, b, p, n) && AlignRows(a, b) == RowsAround(a, b, p, n)
    ensures Exact(a, b) == WithinLimit(a[p..|a| - n], b[p..|b| - n])
  {
    p := PrefixLen(a, b, 0);
    n := SuffixLen(a, b, p, 0);
    EndsAreStripped(a, b);
    StrippedMiddles(a, b, p, n);
  }

  lemma StrippedMiddles<T>(a: seq<T>, b: seq<T>, p: nat, n: nat)
    requires Stripped(a, b, p, n)
    ensures AlignRows(a, b) == RowsAround(a, b, p, n)
    ensures Exact(a, b) == WithinLimit(a[p..|a| - n], b[p..|b| - n])
  {
    StrippedOnce(a, b, p, n);
    forall q, m | Stripped(a, b, q, m) ensures q == p && m == n { StrippedOnce(a, b, q, m); }
  }

  // The left cells, in order, are exactly a numbered 1..n, and the right cells
  // exactly b numbered 1..m: for any two files, above the exact limit too.
  lemma AlignIsFaithful<T>(a: seq<T>, b: seq<T>)
    ensures Shows(Left, AlignRows(a, b), a, |a|)
    ensures Shows(Right, AlignRows(a, b), b, |b|)
  {
    var p, n := AlignStrips(a, b);
    AroundShows(Left, a, b, p, n);
    AroundShows(Right, a, b, p, n);
  }

  // ---- The label on a row is true ----

  ghost predicate Honest<T>(r: Row<T>, exact: bool) {
    match r.kind
    case Same => r.left.Some? && r.left == r.right
    case Changed => exact ==> r.left.Some? && r.right.Some? && r.left != r.right
    case LeftOnly => r.left.Some? && r.right.None?
    case RightOnly => r.left.None? && r.right.Some?
  }

  ghost predicate AllHonest<T>(rows: seq<Row<T>>, exact: bool) {
    forall k :: 0 <= k < |rows| ==> Honest(rows[k], exact)
  }

  lemma {:induction false} WalkHonest<T>(a: seq<T>, b: seq<T>, offset: nat, i: nat, j: nat, rows: seq<Row<T>>)
    requires i <= |a| && j <= |b| && AllHonest(rows, true)
    ensures AllHonest(Walk(a, b, offset, i, j, rows), true)
    decreases |a| - i + |b| - j
  {
    if !(i == |a| && j == |b|) {
      var r := NextRow(a, b, offset, i, j);
      WalkHonest(a, b, offset, i + Used(r.left), j + Used(r.right), rows + [r]);
    }
  }

  lemma {:induction false} CoarseHonest<T>(a: seq<T>, b: seq<T>, offset: nat, i: nat, rows: seq<Row<T>>)
    requires AllHonest(rows, false)
    ensures AllHonest(Coarse(a, b, offset, i, rows), false)
    decreases Max(|a|, |b|) - i
  {
    if i < Max(|a|, |b|) {
      CoarseHonest(a, b, offset, i + 1, rows + [CoarseRow(a, b, offset, i)]);
    }
  }

  lemma {:induction false} PushSameHonest<T>(a: seq<T>, b: seq<T>, i: nat, j: nat, n: nat, rows: seq<Row<T>>, exact: bool)
    requires Matching(a, b, i, j, n) && AllHonest(rows, exact)
    ensures AllHonest(PushSame(a, b, i, j, n, rows), exact)
  {
    if n > 0 {
      PushSameHonest(a, b, i, j, n - 1, rows, exact);
    }
  }

  // A "same" row shows equal lines, a one-sided row shows one line, and within
  // the exact limit a "changed" row shows two different ones.
  lemma AlignIsHonest<T>(a: seq<T>, b: seq<T>)
    ensures AllHonest(AlignRows(a, b), Exact(a, b))
  {
    var p, n := AlignStrips(a, b);
    AroundHonest(a, b, p, n);
  }

  lemma AroundHonest<T>(a: seq<T>, b: seq<T>, p: nat, n: nat)
    requires Shared(a, b, p, n)
    ensures AllHonest(RowsAround(a, b, p, n), WithinLimit(a[p..|a| - n], b[p..|b| - n]))
  {
    var x, y := a[p..|a| - n], b[p..|b| - n];
    var top := PushSame(a, b, 0, 0, p, []);
    PushSameHonest(a, b, 0, 0, p, [], WithinLimit(x, y));
    if WithinLimit(x, y) { WalkHonest(x, y, p, 0, 0, top); } else { CoarseHonest(x, y, p, 0, top); }
    PushSameHonest(a, b, |a| - n, |b| - n, n, PushMiddle(x, y, p, top), WithinLimit(x, y));
  }

  // ---- How close the pairing is to the longest common subsequence ----

  lemma {:induction false} WalkCounts<T>(a: seq<T>, b: seq<T>, offset: nat, i: nat, j: nat, rows: seq<Row<T>>)
    requires i <= |a| && j <= |b|
    ensures var all, best := Walk(a, b, offset, i, j, rows), Best(a, b, i, j);
      && Count(Same, all) - Count(Same, rows) <= best
      && best <= Count(Same, all) - Count(Same, rows) + Count(Changed, all) - Count(Changed, rows)
    decreases |a| - i + |b| - j
  {
    if !(i == |a| && j == |b|) {
      var r := NextRow(a, b, offset, i, j);
      PushCount(Same, rows, r);
      PushCount(Changed, rows, r);
      WalkCounts(a, b, offset, i + Used(r.left), j + Used(r.right), rows + [r]);
      StepLength(a, b, offset, i, j);
    }
  }

  // One step of the walk: what it spends of the best match it shows as "same",
  // or as "changed".
  lemma StepLength<T>(a: seq<T>, b: seq<T>, offset: nat, i: nat, j: nat)
    requires i <= |a| && j <= |b| && (i < |a| || j < |b|)
    ensures var r := NextRow(a, b, offset, i, j);
      var here := Best(a, b, i, j);
      var there := Best(a, b, i + Used(r.left), j + Used(r.right));
      if r.kind == Same then here == there + 1
      else if r.kind == Changed then there <= here <= there + 1
      else here == there
  {
    if i < |a| && j < |b| {
      Lcs.LengthDropRight(a[i + 1..], b[j..]);
      assert b[j..][1..] == b[j + 1..];
      BestIsLongest(a, b, i + 1, j);
      BestIsLongest(a, b, i + 1, j + 1);
    }
  }

  lemma {:induction false} CoarseCounts<T>(a: seq<T>, b: seq<T>, offset: nat, i: nat, rows: seq<Row<T>>)
    ensures forall kind | kind != Changed :: Count(kind, Coarse(a, b, offset, i, rows)) == Count(kind, rows)
    ensures Count(Changed, Coarse(a, b, offset, i, rows)) == Count(Changed, rows) + Max(0, Max(|a|, |b|) - i)
    decreases Max(|a|, |b|) - i
  {
    if i < Max(|a|, |b|) {
      forall kind { PushCount(kind, rows, CoarseRow(a, b, offset, i)); }
      CoarseCounts(a, b, offset, i + 1, rows + [CoarseRow(a, b, offset, i)]);
    }
  }

  lemma {:induction false} PushSameCounts<T>(kind: Kind, a: seq<T>, b: seq<T>, i: nat, j: nat, n: nat, rows: seq<Row<T>>)
    requires i + n <= |a| && j + n <= |b|
    ensures Count(kind, PushSame(a, b, i, j, n, rows)) == Count(kind, rows) + if kind == Same then n else 0
  {
    if n > 0 {
      PushSameCounts(kind, a, b, i, j, n - 1, rows);
      PushCount(kind, PushSame(a, b, i, j, n - 1, rows), SameRow(a[i + n - 1], b[j + n - 1], i + n, j + n));
    }
  }

  lemma CutInThree<T>(a: seq<T>, i: nat, j: nat)
    requires i <= j <= |a|
    ensures a == a[..i] + a[i..j] + a[j..]
  {
  }

  // Matching off a common start and end loses none of the best match.
  lemma StrippingLosesNothing<T>(a: seq<T>, b: seq<T>, p: nat, n: nat)
    requires Shared(a, b, p, n)
    ensures Lcs.Length(a, b) == p + Lcs.Length(a[p..|a| - n], b[p..|b| - n]) + n
  {
    var x, y := a[p..|a| - n], b[p..|b| - n];
    CutInThree(a, p, |a| - n);
    CutInThree(b, p, |b| - n);
    assert a[..p] == b[..p] && a[|a| - n..] == b[|b| - n..];
    Lcs.StripSuffix(a[..p] + x, a[..p] + y, a[|a| - n..]);
    Lcs.StripPrefix(a[..p], x, y);
  }

  lemma BestOfAll<T>(a: seq<T>, b: seq<T>)
    ensures Best(a, b, 0, 0) == Lcs.Length(a, b)
  {
    BestIsLongest(a, b, 0, 0);
    assert a[0..] == a && b[0..] == b;
  }

  // No pairing shows more "same" rows than the longest common subsequence has
  // lines; within the exact limit the shortfall is at most the "changed" rows,
  // so a result with none of those is the best there is.
  lemma AlignIsNearOptimal<T>(a: seq<T>, b: seq<T>)
    ensures Count(Same, AlignRows(a, b)) <= Lcs.Length(a, b)
    ensures Exact(a, b) ==> Lcs.Length(a, b) <= Count(Same, AlignRows(a, b)) + Count(Changed, AlignRows(a, b))
  {
    var p, n := AlignStrips(a, b);
    var x, y := a[p..|a| - n], b[p..|b| - n];
    StrippingLosesNothing(a, b, p, n);
    AroundCounts(Same, a, b, p, n);
    AroundCounts(Changed, a, b, p, n);
    if WithinLimit(x, y) {
      BestOfAll(x, y);
      WalkCounts(x, y, p, 0, 0, PushSame(a, b, 0, 0, p, []));
    } else {
      CoarseCounts(x, y, p, 0, PushSame(a, b, 0, 0, p, []));
    }
  }

  lemma AroundCounts<T>(kind: Kind, a: seq<T>, b: seq<T>, p: nat, n: nat)
    requires Shared(a, b, p, n)
    ensures var top := PushSame(a, b, 0, 0, p, []);
      var middle := PushMiddle(a[p..|a| - n], b[p..|b| - n], p, top);
      && Count(kind, top) == (if kind == Same then p else 0)
      && Count(kind, RowsAround(a, b, p, n)) == Count(kind, middle) + if kind == Same then n else 0
  {
    var top := PushSame(a, b, 0, 0, p, []);
    hide PushMiddle;
    PushSameCounts(kind, a, b, 0, 0, p, []);
    var middle := PushMiddle(a[p..|a| - n], b[p..|b| - n], p, top);
    PushSameCounts(kind, a, b, |a| - n, |b| - n, n, middle);
  }

  // ---- Exactly how close ----

  // The walk takes a line of each file where leaving out either would do as well,
  // although leaving out both does not: what is left is worth one less.
  predicate Misses<T(==)>(a: seq<T>, b: seq<T>, i: nat, j: nat)
    requires i < |a| && j < |b|
  {
    a[i] != b[j] && Best(a, b, i + 1, j) == Best(a, b, i, j + 1) > Best(a, b, i + 1, j + 1)
  }

  // How often it does so from (i, j) on.
  function Missed<T(==)>(a: seq<T>, b: seq<T>, i: nat, j: nat): nat
    requires i <= |a| && j <= |b|
    decreases |a| - i + |b| - j
  {
    if i == |a| || j == |b| then 0
    else if a[i] == b[j] then Missed(a, b, i + 1, j + 1)
    else if Best(a, b, i + 1, j) > Best(a, b, i, j + 1) then Missed(a, b, i + 1, j)
    else if Best(a, b, i + 1, j) < Best(a, b, i, j + 1) then Missed(a, b, i, j + 1)
    else Missed(a, b, i + 1, j + 1) + if Misses(a, b, i, j) then 1 else 0
  }

  // Each miss costs one "same" row, and nothing else does.
  lemma {:induction false} WalkMisses<T>(a: seq<T>, b: seq<T>, offset: nat, i: nat, j: nat, rows: seq<Row<T>>)
    requires i <= |a| && j <= |b|
    ensures Count(Same, Walk(a, b, offset, i, j, rows)) - Count(Same, rows) + Missed(a, b, i, j) == Best(a, b, i, j)
    decreases |a| - i + |b| - j
  {
    if !(i == |a| && j == |b|) {
      var r := NextRow(a, b, offset, i, j);
      PushCount(Same, rows, r);
      WalkMisses(a, b, offset, i + Used(r.left), j + Used(r.right), rows + [r]);
      StepLength(a, b, offset, i, j);
    }
  }

  // The pairing falls short of the longest common subsequence by exactly the
  // misses of the walk, or above the limit by all that the middles have in common.
  // So it is the longest one if and only if there is no miss, or nothing in common.
  lemma AlignIsLongestIff<T>(a: seq<T>, b: seq<T>, p: nat, n: nat)
    requires Stripped(a, b, p, n)
    ensures var x, y := a[p..|a| - n], b[p..|b| - n];
      var short := if Exact(a, b) then Missed(x, y, 0, 0) else Lcs.Length(x, y);
      && Count(Same, AlignRows(a, b)) + short == Lcs.Length(a, b)
      && (Count(Same, AlignRows(a, b)) == Lcs.Length(a, b) <==> short == 0)
  {
    StrippedMiddles(a, b, p, n);
    MissesAround(a, b, p, n);
  }

  // Above the limit the shared ends show as "same", and every other line of the
  // longer middle is a "changed" row of its own.
  lemma AboveTheLimit<T>(a: seq<T>, b: seq<T>, p: nat, n: nat)
    requires Stripped(a, b, p, n) && !Exact(a, b)
    ensures Count(Same, AlignRows(a, b)) == p + n
    ensures Count(Changed, AlignRows(a, b)) == Max(|a|, |b|) - p - n
    ensures Count(LeftOnly, AlignRows(a, b)) == Count(RightOnly, AlignRows(a, b)) == 0
  {
    var x, y := a[p..|a| - n], b[p..|b| - n];
    var top := PushSame(a, b, 0, 0, p, []);
    StrippedMiddles(a, b, p, n);
    forall kind { AroundCounts(kind, a, b, p, n); }
    CoarseCounts(x, y, p, 0, top);
  }

  lemma MissesAround<T>(a: seq<T>, b: seq<T>, p: nat, n: nat)
    requires Shared(a, b, p, n)
    ensures var x, y := a[p..|a| - n], b[p..|b| - n];
      var short := if WithinLimit(x, y) then Missed(x, y, 0, 0) else Lcs.Length(x, y);
      Count(Same, RowsAround(a, b, p, n)) + short == Lcs.Length(a, b)
  {
    var x, y := a[p..|a| - n], b[p..|b| - n];
    StrippingLosesNothing(a, b, p, n);
    AroundCounts(Same, a, b, p, n);
    var top := PushSame(a, b, 0, 0, p, []);
    if WithinLimit(x, y) {
      BestOfAll(x, y);
      WalkMisses(x, y, p, 0, 0, top);
    } else {
      CoarseCounts(x, y, p, 0, top);
    }
  }

  // ---- Pure insertion and pure deletion ----

  // Rows that only ever leave out lines on one side.
  ghost predicate OneSided<T>(rows: seq<Row<T>>, longer: Kind) {
    forall k :: 0 <= k < |rows| ==> rows[k].kind == Same || rows[k].kind == longer
  }

  lemma BestBounded<T>(a: seq<T>, b: seq<T>, i: nat, j: nat)
    requires i <= |a| && j <= |b|
    ensures Best(a, b, i, j) <= |a| - i && Best(a, b, i, j) <= |b| - j
  {
    BestIsLongest(a, b, i, j);
    Lcs.LengthBounded(a[i..], b[j..]);
  }

  lemma {:induction false} WalkOneSided<T>(a: seq<T>, b: seq<T>, offset: nat, i: nat, j: nat, rows: seq<Row<T>>, longer: Kind)
    requires i <= |a| && j <= |b| && OneSided(rows, longer)
    requires longer == RightOnly ==> Best(a, b, i, j) == |a| - i
    requires longer == LeftOnly ==> Best(a, b, i, j) == |b| - j
    requires longer == RightOnly || longer == LeftOnly
    ensures OneSided(Walk(a, b, offset, i, j, rows), longer)
    decreases |a| - i + |b| - j
  {
    if !(i == |a| && j == |b|) {
      var r := NextRow(a, b, offset, i, j);
      StepLength(a, b, offset, i, j);
      if i < |a| { BestBounded(a, b, i + 1, j); }
      if j < |b| { BestBounded(a, b, i, j + 1); }
      WalkOneSided(a, b, offset, i + Used(r.left), j + Used(r.right), rows + [r], longer);
    }
  }

  lemma {:induction false} PushSameOneSided<T>(a: seq<T>, b: seq<T>, i: nat, j: nat, n: nat, rows: seq<Row<T>>, longer: Kind)
    requires i + n <= |a| && j + n <= |b| && OneSided(rows, longer)
    ensures OneSided(PushSame(a, b, i, j, n, rows), longer)
  {
    if n > 0 {
      PushSameOneSided(a, b, i, j, n - 1, rows, longer);
    }
  }

  lemma AroundOneSided<T>(a: seq<T>, b: seq<T>, p: nat, n: nat, longer: Kind)
    requires p + n <= |a| && p + n <= |b|
    requires longer == RightOnly || longer == LeftOnly
    requires var x, y := a[p..|a| - n], b[p..|b| - n];
      WithinLimit(x, y) && Best(x, y, 0, 0) == if longer == RightOnly then |x| else |y|
    ensures OneSided(RowsAround(a, b, p, n), longer)
  {
    var x, y := a[p..|a| - n], b[p..|b| - n];
    var top := PushSame(a, b, 0, 0, p, []);
    PushSameOneSided(a, b, 0, 0, p, [], longer);
    WalkOneSided(x, y, p, 0, 0, top, longer);
    PushSameOneSided(a, b, |a| - n, |b| - n, n, PushMiddle(x, y, p, top), longer);
  }

  lemma AlignOneSided<T>(a: seq<T>, b: seq<T>, longer: Kind)
    requires longer == RightOnly || longer == LeftOnly
    requires Lcs.Length(a, b) == if longer == RightOnly then |a| else |b|
    ensures OneSided(AlignRows(a, b), longer) <==> Exact(a, b)
    ensures Exact(a, b) ==> Count(Same, AlignRows(a, b)) == Lcs.Length(a, b)
  {
    var p, n := AlignStrips(a, b);
    var x, y := a[p..|a| - n], b[p..|b| - n];
    if Exact(a, b) {
      StrippingLosesNothing(a, b, p, n);
      BestOfAll(x, y);
      AroundOneSided(a, b, p, n, longer);
      NoneCounted(Changed, AlignRows(a, b));
      AlignIsNearOptimal(a, b);
    } else {
      AroundCounts(Changed, a, b, p, n);
      CoarseCounts(x, y, p, 0, PushSame(a, b, 0, 0, p, []));
      if OneSided(AlignRows(a, b), longer) { NoneCounted(Changed, AlignRows(a, b)); }
    }
  }

  lemma {:induction false} NoneCounted<T>(kind: Kind, rows: seq<Row<T>>)
    requires forall k :: 0 <= k < |rows| ==> rows[k].kind != kind
    ensures Count(kind, rows) == 0
  {
    if rows != [] {
      NoneCounted(kind, rows[..|rows| - 1]);
    }
  }

  // Lines were only inserted: then, exactly when the middles are within the
  // limit, every row is "same" or right-only, with one "same" row for each line
  // of the shorter file.
  lemma InsertionShowsAsInsertion<T>(a: seq<T>, b: seq<T>)
    requires Lcs.Subseq(a, b)
    ensures OneSided(AlignRows(a, b), RightOnly) <==> Exact(a, b)
    ensures Exact(a, b) ==> Count(Same, AlignRows(a, b)) == |a|
  {
    Lcs.LengthOfSubseq(a, b);
    AlignOneSided(a, b, RightOnly);
  }

  // Lines were only deleted.
  lemma DeletionShowsAsDeletion<T>(a: seq<T>, b: seq<T>)
    requires Lcs.Subseq(b, a)
    ensures OneSided(AlignRows(a, b), LeftOnly) <==> Exact(a, b)
    ensures Exact(a, b) ==> Count(Same, AlignRows(a, b)) == |b|
  {
    Lcs.LengthOfSubseq(b, a);
    Lcs.LengthSymmetric(a, b);
    AlignOneSided(a, b, LeftOnly);
  }

  // The pairing need not be the longest one: two lines that changed places show
  // no "same" row at all, although one of them could.
  lemma SwappedLinesShowNothingSame<T>(x: T, y: T)
    requires x != y
    ensures Lcs.Length([x, y], [y, x]) == 1
    ensures Count(Same, AlignRows([x, y], [y, x])) == 0
  {
    var a, b := [x, y], [y, x];
    assert a[0..2] == a && b[0..2] == b;
    assert PrefixLen(a, b, 0) == 0 && SuffixLen(a, b, 0, 0) == 0;
    assert Best(a, b, 1, 1) == 0 && Best(a, b, 1, 0) == 1 && Best(a, b, 0, 1) == 1;
    BestOfAll(a, b);
    var r, s := NextRow(a, b, 0, 0, 0), NextRow(a, b, 0, 1, 1);
    assert AlignRows(a, b) == Walk(a, b, 0, 0, 0, []) == Walk(a, b, 0, 1, 1, [] + [r]) == Walk(a, b, 0, 2, 2, [] + [r] + [s]);
    PushCount(Same, [], r);
    PushCount(Same, [] + [r], s);
  }

  // ---- "No differences" ----

  ghost predicate NoDifferences<T>(rows: seq<Row<T>>) {
    forall k :: 0 <= k < |rows| ==> rows[k].kind == Same
  }

  lemma {:induction false} AllSameShows<T>(side: Side, rows: seq<Row<T>>, f: seq<T>, n: nat)
    requires n <= |f| && Shows(side, rows, f, n) && NoDifferences(rows) && AllHonest(rows, false)
    ensures Count(Same, rows) == |rows| == n
  {
    if rows != [] {
      AllSameShows(side, rows[..|rows| - 1], f, n - 1);
    }
  }

  // The page says "No differences." exactly when the two files are equal.
  lemma NoDifferencesMeansEqual<T>(a: seq<T>, b: seq<T>)
    ensures NoDifferences(AlignRows(a, b)) <==> a == b
  {
    var rows := AlignRows(a, b);
    if NoDifferences(rows) {
      AlignIsFaithful(a, b);
      AlignIsHonest(a, b);
      AllSameShows(Left, rows, a, |a|);
      AllSameShows(Right, rows, b, |b|);
      AlignIsNearOptimal(a, b);
      Lcs.LengthBounded(a, b);
      Lcs.LengthOfSubseq(a, b);
      Lcs.FullSubseq(a, b);
    }
    if a == b {
      PrefixMatches(a, b, 0);
      PushSameOneSided(a, b, 0, 0, |a|, [], Same);
    }
  }
}
