// Pairing two versions of a file line by line (web/src/lib/lineDiff.ts).
//
// `AlignRows` says which rows the aligner produces; the methods compute them the
// way the page does, with index loops and a table filled in place. The lemmas
// after it say what those rows are worth to a reader.

module LineDiff {
  import opened Prelude
  import Lcs

  datatype Kind = Same | Changed | LeftOnly | RightOnly

  datatype Row<T> = Row(left: Option<T>, right: Option<T>,
                     leftNo: Option<nat>, rightNo: Option<nat>, kind: Kind)

  const EXACT_LIMIT: nat := 600

  function SameRow<T>(s: T, t: T, i: nat, j: nat): Row<T> { Row(Some(s), Some(t), Some(i), Some(j), Same) }
  function ChangedRow<T>(s: T, t: T, i: nat, j: nat): Row<T> { Row(Some(s), Some(t), Some(i), Some(j), Changed) }
  function LeftRow<T>(s: T, i: nat): Row<T> { Row(Some(s), None, Some(i), None, LeftOnly) }
  function RightRow<T>(t: T, j: nat): Row<T> { Row(None, Some(t), None, Some(j), RightOnly) }

  // ---- The rows, as a function of the two files ----

  // How many lines match from the top, given that the first k do.
  function PrefixLen<T(==)>(a: seq<T>, b: seq<T>, k: nat): (n: nat)
    requires k <= |a| && k <= |b|
    ensures k <= n <= |a| && n <= |b|
    decreases |a| - k
  {
    if k < |a| && k < |b| && a[k] == b[k] then PrefixLen(a, b, k + 1) else k
  }

  // How many match from the bottom, stopping at `start`, given that k do.
  function SuffixLen<T(==)>(a: seq<T>, b: seq<T>, start: nat, k: nat): (n: nat)
    requires start + k <= |a| && start + k <= |b|
    ensures k <= n && start + n <= |a| && start + n <= |b|
    decreases |a| - k
  {
    if start + k < |a| && start + k < |b| && a[|a| - 1 - k] == b[|b| - 1 - k] then SuffixLen(a, b, start, k + 1) else k
  }

  // n lines of a from line i on are the same as those of b from line j on.
  ghost predicate Matching<T>(a: seq<T>, b: seq<T>, i: nat, j: nat, n: nat) {
    i + n <= |a| && j + n <= |b| && forall x :: i <= x < i + n ==> a[x] == b[x - i + j]
  }

  lemma {:induction false} PrefixMatches<T>(a: seq<T>, b: seq<T>, k: nat)
    requires Matching(a, b, 0, 0, k)
    ensures var n := PrefixLen(a, b, k); Matching(a, b, 0, 0, n) && (n < |a| && n < |b| ==> a[n] != b[n])
    decreases |a| - k
  {
    if k < |a| && k < |b| && a[k] == b[k] {
      PrefixMatches(a, b, k + 1);
    }
  }

  lemma {:induction false} SuffixMatches<T>(a: seq<T>, b: seq<T>, start: nat, k: nat)
    requires start + k <= |a| && start + k <= |b| && Matching(a, b, |a| - k, |b| - k, k)
    ensures var n := SuffixLen(a, b, start, k);
      && Matching(a, b, |a| - n, |b| - n, n)
      && (start + n < |a| && start + n < |b| ==> a[|a| - 1 - n] != b[|b| - 1 - n])
    decreases |a| - k
  {
    if start + k < |a| && start + k < |b| && a[|a| - 1 - k] == b[|b| - 1 - k] {
      SuffixMatches(a, b, start, k + 1);
    }
  }

  // The first p lines and the last n lines of the two files are the same.
  ghost predicate Shared<T>(a: seq<T>, b: seq<T>, p: nat, n: nat) {
    && p + n <= |a| && p + n <= |b|
    && Matching(a, b, 0, 0, p)
    && Matching(a, b, |a| - n, |b| - n, n)
  }

  predicate WithinLimit<T>(a: seq<T>, b: seq<T>) {
    |a| <= EXACT_LIMIT && |b| <= EXACT_LIMIT
  }

  // And no more can be matched off: the lines next to them differ, the top first.
  ghost predicate Stripped<T>(a: seq<T>, b: seq<T>, p: nat, n: nat) {
    && Shared(a, b, p, n)
    && (p < |a| && p < |b| ==> a[p] != b[p])
    && (p + n < |a| && p + n < |b| ==> a[|a| - 1 - n] != b[|b| - 1 - n])
  }

  // The ends that are matched off are those, and there are no others.
  lemma EndsAreStripped<T>(a: seq<T>, b: seq<T>)
    ensures var p := PrefixLen(a, b, 0); Stripped(a, b, p, SuffixLen(a, b, p, 0))
  {
    PrefixMatches(a, b, 0);
    SuffixMatches(a, b, PrefixLen(a, b, 0), 0);
  }

  lemma SharedEnd<T>(a: seq<T>, b: seq<T>, p: nat, n: nat, k: nat)
    requires Shared(a, b, p, n) && k < n
    ensures a[|a| - 1 - k] == b[|b| - 1 - k]
  {
    var x := |a| - 1 - k;
    assert |a| - n <= x < |a| - n + n && x - (|a| - n) + (|b| - n) == |b| - 1 - k;
  }

  lemma NoLongerEnd<T>(a: seq<T>, b: seq<T>, p: nat, n: nat, m: nat)
    requires Stripped(a, b, p, n) && Shared(a, b, p, m)
    ensures m <= n
  {
    if n < m { SharedEnd(a, b, p, m, n); }
  }

  lemma StrippedOnce<T>(a: seq<T>, b: seq<T>, p: nat, n: nat)
    requires Stripped(a, b, p, n)
    ensures p == PrefixLen(a, b, 0) && n == SuffixLen(a, b, p, 0)
  {
    EndsAreStripped(a, b);
    var q := PrefixLen(a, b, 0);
    var m := SuffixLen(a, b, q, 0);
    assert Matching(a, b, 0, 0, q) && Matching(a, b, 0, 0, p);
    assert p == q;
    NoLongerEnd(a, b, p, n, m);
    NoLongerEnd(a, b, p, m, n);
  }

  // The middles left after matching off both ends are small enough to match exactly.
  ghost predicate Exact<T>(a: seq<T>, b: seq<T>) {
    forall p, n :: Stripped(a, b, p, n) ==> |a| - p - n <= EXACT_LIMIT && |b| - p - n <= EXACT_LIMIT
  }

  // Beyond the limit: the blocks side by side, nothing claimed to be the same.
  function CoarseRow<T>(a: seq<T>, b: seq<T>, offset: nat, i: nat): Row<T> {
    Row(if i < |a| then Some(a[i]) else None,
        if i < |b| then Some(b[i]) else None,
        if i < |a| then Some(offset + i + 1) else None,
        if i < |b| then Some(offset + i + 1) else None,
        Changed)
  }

  // `rows` with a row pushed for each remaining line of the longer block.
  function Coarse<T>(a: seq<T>, b: seq<T>, offset: nat, i: nat, rows: seq<Row<T>>): seq<Row<T>>
    decreases Max(|a|, |b|) - i
  {
    if i < Max(|a|, |b|) then Coarse(a, b, offset, i + 1, rows + [CoarseRow(a, b, offset, i)]) else rows
  }

  // What the table holds at (i, j): the best match of what remains of each file.
  function Best<T(==)>(a: seq<T>, b: seq<T>, i: nat, j: nat): nat
    requires i <= |a| && j <= |b|
    decreases |a| - i + |b| - j
  {
    if i == |a| || j == |b| then 0
    else if a[i] == b[j] then Best(a, b, i + 1, j + 1) + 1
    else Max(Best(a, b, i + 1, j), Best(a, b, i, j + 1))
  }

  lemma {:induction false} BestIsLongest<T>(a: seq<T>, b: seq<T>, i: nat, j: nat)
    requires i <= |a| && j <= |b|
    ensures Best(a, b, i, j) == Lcs.Length(a[i..], b[j..])
    decreases |a| - i + |b| - j
  {
    if i < |a| && j < |b| {
      assert a[i..][1..] == a[i + 1..] && b[j..][1..] == b[j + 1..];
      if a[i] == b[j] {
        BestIsLongest(a, b, i + 1, j + 1);
      } else {
        BestIsLongest(a, b, i + 1, j);
        BestIsLongest(a, b, i, j + 1);
      }
    }
  }

  // The row the walk produces at (i, j). A row with a left cell uses up a line
  // of a, a row with a right cell a line of b.
  function NextRow<T(==)>(a: seq<T>, b: seq<T>, offset: nat, i: nat, j: nat): Row<T>
    requires i <= |a| && j <= |b| && (i < |a| || j < |b|)
  {
    if j == |b| then LeftRow(a[i], offset + i + 1)
    else if i == |a| then RightRow(b[j], offset + j + 1)
    else if a[i] == b[j] then SameRow(a[i], b[j], offset + i + 1, offset + j + 1)
    else
      var down, right := Best(a, b, i + 1, j), Best(a, b, i, j + 1);
      if down == right then ChangedRow(a[i], b[j], offset + i + 1, offset + j + 1)
      else if down > right then LeftRow(a[i], offset + i + 1)
      else RightRow(b[j], offset + j + 1)
  }

  function Used<T>(cell: Option<T>): nat { if cell.Some? then 1 else 0 }

  // `rows` with the rest of the walk from (i, j) pushed onto it.
  function Walk<T(==)>(a: seq<T>, b: seq<T>, offset: nat, i: nat, j: nat, rows: seq<Row<T>>): seq<Row<T>>
    requires i <= |a| && j <= |b|
    decreases |a| - i + |b| - j
  {
    if i == |a| && j == |b| then rows
    else
      var r := NextRow(a, b, offset, i, j);
      Walk(a, b, offset, i + Used(r.left), j + Used(r.right), rows + [r])
  }

  // `rows` with the unmatched middle of the two files pushed onto it.
  function PushMiddle<T(==)>(a: seq<T>, b: seq<T>, offset: nat, rows: seq<Row<T>>): seq<Row<T>> {
    if WithinLimit(a, b) then Walk(a, b, offset, 0, 0, rows) else Coarse(a, b, offset, 0, rows)
  }

  // `rows` with n matching lines pushed, from line i of a and line j of b.
  function PushSame<T>(a: seq<T>, b: seq<T>, i: nat, j: nat, n: nat, rows: seq<Row<T>>): seq<Row<T>>
    requires i + n <= |a| && j + n <= |b|
  {
    if n == 0 then rows
    else PushSame(a, b, i, j, n - 1, rows) + [SameRow(a[i + n - 1], b[j + n - 1], i + n, j + n)]
  }

  // The rows once p lines are matched off the top and n off the bottom.
  function RowsAround<T(==)>(a: seq<T>, b: seq<T>, p: nat, n: nat): seq<Row<T>>
    requires p + n <= |a| && p + n <= |b|
  {
    var top := PushSame(a, b, 0, 0, p, []);
    var middle := PushMiddle(a[p..|a| - n], b[p..|b| - n], p, top);
    PushSame(a, b, |a| - n, |b| - n, n, middle)
  }

  function AlignRows<T(==)>(a: seq<T>, b: seq<T>): seq<Row<T>> {
    var p := PrefixLen(a, b, 0);
    RowsAround(a, b, p, SuffixLen(a, b, p, 0))
  }

  // ---- The algorithm ----

  ghost predicate IsTable<T>(lcs: array2<nat>, a: seq<T>, b: seq<T>)
    reads lcs
  {
    && lcs.Length0 == |a| + 1 && lcs.Length1 == |b| + 1
    && forall i, j :: 0 <= i <= |a| && 0 <= j <= |b| ==> lcs[i, j] == Best(a, b, i, j)
  }

  method FillTable<T(==)>(a: seq<T>, b: seq<T>) returns (lcs: array2<nat>)
    ensures IsTable(lcs, a, b)
  {
    var n, m := |a|, |b|;
    lcs := new nat[n + 1, m + 1]((_, _) => 0);
    var i := n;
    while i > 0
      invariant 0 <= i <= n
      invariant forall x, y :: i <= x <= n && 0 <= y <= m ==> lcs[x, y] == Best(a, b, x, y)
      invariant forall x :: 0 <= x <= n ==> lcs[x, m] == 0
    {
      i := i - 1;
      var j := m;
      while j > 0
        invariant 0 <= j <= m
        invariant forall x, y :: i < x <= n && 0 <= y <= m ==> lcs[x, y] == Best(a, b, x, y)
        invariant forall y :: j <= y <= m ==> lcs[i, y] == Best(a, b, i, y)
        invariant forall x :: 0 <= x <= n ==> lcs[x, m] == 0
      {
        j := j - 1;
        lcs[i, j] := if a[i] == b[j] then lcs[i + 1, j + 1] + 1 else Max(lcs[i + 1, j], lcs[i, j + 1]);
      }
    }
  }

  method AlignMiddle<T(==)>(a: seq<T>, b: seq<T>, offset: nat) returns (rows: seq<Row<T>>)
    ensures rows == PushMiddle(a, b, offset, [])
  {
    rows := [];
    if |a| == 0 && |b| == 0 {
      return;
    }
    if |a| > EXACT_LIMIT || |b| > EXACT_LIMIT {
      rows := AlignCoarsely(a, b, offset);
      return;
    }

    var lcs := FillTable(a, b);
    ghost var all := Walk(a, b, offset, 0, 0, []);
    var i, j := 0, 0;
    while i < |a| && j < |b|
      invariant 0 <= i <= |a| && 0 <= j <= |b|
      invariant IsTable(lcs, a, b)
      invariant Walk(a, b, offset, i, j, rows) == all
      decreases |a| - i + |b| - j
    {
      if a[i] == b[j] {
        rows := rows + [SameRow(a[i], b[j], offset + i + 1, offset + j + 1)];
        i, j := i + 1, j + 1;
      } else if lcs[i + 1, j] >= lcs[i, j + 1] {
        var rightOnlyNext := lcs[i + 1, j] == lcs[i, j + 1];
        if rightOnlyNext && j < |b| {
          rows := rows + [ChangedRow(a[i], b[j], offset + i + 1, offset + j + 1)];
          i, j := i + 1, j + 1;
        } else {
          rows := rows + [LeftRow(a[i], offset + i + 1)];
          i := i + 1;
        }
      } else {
        rows := rows + [RightRow(b[j], offset + j + 1)];
        j := j + 1;
      }
    }
    while i < |a|
      invariant 0 <= i <= |a| && 0 <= j <= |b| && (i == |a| || j == |b|)
      invariant Walk(a, b, offset, i, j, rows) == all
    {
      rows := rows + [LeftRow(a[i], offset + i + 1)];
      i := i + 1;
    }
    while j < |b|
      invariant i == |a| && 0 <= j <= |b|
      invariant Walk(a, b, offset, i, j, rows) == all
    {
      rows := rows + [RightRow(b[j], offset + j + 1)];
      j := j + 1;
    }
  }

  method AlignCoarsely<T>(a: seq<T>, b: seq<T>, offset: nat) returns (rows: seq<Row<T>>)
    ensures rows == Coarse(a, b, offset, 0, [])
  {
    rows := [];
    var k := 0;
    while k < Max(|a|, |b|)
      invariant 0 <= k <= Max(|a|, |b|)
      invariant Coarse(a, b, offset, k, rows) == Coarse(a, b, offset, 0, [])
    {
      rows := rows + [CoarseRow(a, b, offset, k)];
      k := k + 1;
    }
  }

  lemma {:induction false} WalkOnto<T>(a: seq<T>, b: seq<T>, offset: nat, i: nat, j: nat, top: seq<Row<T>>, rows: seq<Row<T>>)
    requires i <= |a| && j <= |b|
    ensures Walk(a, b, offset, i, j, top + rows) == top + Walk(a, b, offset, i, j, rows)
    decreases |a| - i + |b| - j
  {
    if !(i == |a| && j == |b|) {
      var r := NextRow(a, b, offset, i, j);
      assert (top + rows) + [r] == top + (rows + [r]);
      WalkOnto(a, b, offset, i + Used(r.left), j + Used(r.right), top, rows + [r]);
    }
  }

  lemma {:induction false} CoarseOnto<T>(a: seq<T>, b: seq<T>, offset: nat, i: nat, top: seq<Row<T>>, rows: seq<Row<T>>)
    ensures Coarse(a, b, offset, i, top + rows) == top + Coarse(a, b, offset, i, rows)
    decreases Max(|a|, |b|) - i
  {
    if i < Max(|a|, |b|) {
      var r := CoarseRow(a, b, offset, i);
      assert (top + rows) + [r] == top + (rows + [r]);
      CoarseOnto(a, b, offset, i + 1, top, rows + [r]);
    }
  }

  lemma PushMiddleOnto<T>(a: seq<T>, b: seq<T>, offset: nat, top: seq<Row<T>>)
    ensures PushMiddle(a, b, offset, top) == top + PushMiddle(a, b, offset, [])
  {
    assert top + [] == top;
    if WithinLimit(a, b) { WalkOnto(a, b, offset, 0, 0, top, []); } else { CoarseOnto(a, b, offset, 0, top, []); }
  }

  method Align<T(==)>(a: seq<T>, b: seq<T>) returns (rows: seq<Row<T>>)
    ensures rows == AlignRows(a, b)
  {
    var start, endA, endB := MatchEnds(a, b);
    ghost var n := |a| - 1 - endA;
    rows := PushSameRows(a, b, 0, 0, start, []);
    var midA, midB := a[start..endA + 1], b[start..endB + 1];
    var middle := AlignMiddle(midA, midB, start);
    PushMiddleOnto(midA, midB, start, rows);
    rows := rows + middle;
    rows := PushSameRows(a, b, endA + 1, endB + 1, |a| - (endA + 1), rows);
    assert rows == RowsAround(a, b, start, n);
  }

  // The two loops that match off the common start and the common end.
  method MatchEnds<T(==)>(a: seq<T>, b: seq<T>) returns (start: nat, endA: int, endB: int)
    ensures start == PrefixLen(a, b, 0)
    ensures |a| - 1 - endA == |b| - 1 - endB == SuffixLen(a, b, start, 0)
    ensures Stripped(a, b, start, |a| - 1 - endA)
    ensures start - 1 <= endA < |a| && start - 1 <= endB < |b|
  {
    start := 0;
    while start < |a| && start < |b| && a[start] == b[start]
      invariant 0 <= start <= |a| && start <= |b|
      invariant PrefixLen(a, b, start) == PrefixLen(a, b, 0)
    {
      start := start + 1;
    }
    endA, endB := |a| - 1, |b| - 1;
    while endA >= start && endB >= start && a[endA] == b[endB]
      invariant start - 1 <= endA < |a| && start - 1 <= endB < |b| && |a| - endA == |b| - endB
      invariant SuffixLen(a, b, start, |a| - 1 - endA) == SuffixLen(a, b, start, 0)
    {
      endA, endB := endA - 1, endB - 1;
    }
    EndsAreStripped(a, b);
  }

  // The two loops that push what was matched off, above and below the middle.
  method PushSameRows<T>(a: seq<T>, b: seq<T>, i: nat, j: nat, n: nat, above: seq<Row<T>>)
    returns (rows: seq<Row<T>>)
    requires i + n <= |a| && j + n <= |b|
    ensures rows == PushSame(a, b, i, j, n, above)
  {
    rows := above;
    for k := 0 to n
      invariant rows == PushSame(a, b, i, j, k, above)
    {
      rows := rows + [SameRow(a[i + k], b[j + k], i + k + 1, j + k + 1)];
    }
  }
}
