// The service's own pod logs as a source of audit entries
// (internal/auditlog/podsource.go).

module PodLogs {
  import opened Prelude
  import opened AccessModel
  import opened AuditLog
  import opened Paging

  const MAX_SCANNED: nat := 200_000

  // One line of a container's output; most are not audit entries. It is stamped
  // when it reaches the log, so no earlier than the entry in it. A line over a
  // mebibyte is too long to be read.
  datatype Line = Line(stamp: Time, entry: Option<Entry>, tooLong: bool)

  // A container's output, and the points in time for which the cluster refuses to
  // hand it out. One that never ran has no output.
  datatype Container = Container(lines: seq<Line>, refused: set<Time>)

  // ---- One window ----

  // What the cluster returns of a log since a point in time.
  function Since(lines: seq<Line>, from: Time): seq<Line> {
    if lines == [] then []
    else
      var last := lines[|lines| - 1];
      Since(lines[..|lines| - 1], from) + if last.stamp < from then [] else [last]
  }

  predicate Wanted(sc: Scope, want: Want, from: Time, to: Time, line: Line) {
    line.entry.Some? && from <= line.entry.value.time <= to && Admits(sc, want, line.entry.value)
  }

  function Found(sc: Scope, want: Want, lines: seq<Line>, from: Time, to: Time): seq<Entry> {
    if lines == [] then []
    else
      var last := lines[|lines| - 1];
      Found(sc, want, lines[..|lines| - 1], from, to) + if Wanted(sc, want, from, to, last) then [last.entry.value] else []
  }

  // A pass over the output comes to its end: the first line it looks at after the
  // last one it reads may be too long as well.
  predicate Ends(c: Container, from: Time) {
    var since := Since(c.lines, from);
    from !in c.refused && forall i :: 0 <= i < |since| && i <= MAX_SCANNED ==> !since[i].tooLong
  }

  function First(lines: seq<Line>): seq<Line> { if |lines| > MAX_SCANNED then lines[..MAX_SCANNED] else lines }

  // What such a pass reads. If it does not come to its end, nothing of it is kept.
  function Scanned(c: Container, from: Time): seq<Line> { if Ends(c, from) then First(Since(c.lines, from)) else [] }

  // Everything the log holds for a window,
  function Due(sc: Scope, want: Want, log: seq<Container>, from: Time, to: Time): seq<Entry> {
    if log == [] then []
    else Due(sc, want, log[..|log| - 1], from, to) + Found(sc, want, log[|log| - 1].lines, from, to)
  }

  // and what is gathered of it.
  function Gathered(sc: Scope, want: Want, log: seq<Container>, from: Time, to: Time): seq<Entry> {
    if log == [] then []
    else Gathered(sc, want, log[..|log| - 1], from, to) + Found(sc, want, Scanned(log[|log| - 1], from), from, to)
  }

  function Cut(es: seq<Entry>, limit: nat): seq<Entry> {
    if |es| > limit then es[..limit] else es
  }

  function Batch(log: seq<Container>, sc: Scope, want: Want, from: Time, to: Time, room: nat): seq<Entry> {
    Cut(NewestFirst(Gathered(sc, want, log, from, to)), room)
  }

  function PodSource(log: seq<Container>, sc: Scope, want: Want): Source {
    (from: Time, to: Time, room: nat) => Batch(log, sc, want, from, to, room)
  }

  method Scan(c: Container, sc: Scope, want: Want, from: Time, to: Time) returns (out: seq<Entry>, ok: bool)
    ensures ok <==> Ends(c, from)
    ensures ok ==> out == Found(sc, want, Scanned(c, from), from, to)
  {
    if from in c.refused { return [], false; }
    var since := Since(c.lines, from);
    out, ok := [], true;
    var scanned := 0;
    while scanned < |since|
      invariant scanned <= |since| && scanned <= MAX_SCANNED && ok
      invariant forall i :: 0 <= i < scanned ==> !since[i].tooLong
      invariant out == Found(sc, want, since[..scanned], from, to)
    {
      var line := since[scanned];
      if line.tooLong { return out, false; }
      if scanned >= MAX_SCANNED { break; }
      assert since[..scanned + 1][..scanned] == since[..scanned];
      scanned := scanned + 1;
      if line.entry.None? || line.entry.value.time < from || line.entry.value.time > to { continue; }
      var keep := Keep(line.entry.value, sc, want);
      if keep { out := out + [line.entry.value]; }
    }
    assert since[..|since|] == since;
  }

  method ReadPods(log: seq<Container>, sc: Scope, want: Want, from: Time, to: Time, limit: nat)
    returns (out: seq<Entry>)
    ensures out == PodSource(log, sc, want)(from, to, limit)
  {
    out := [];
    for i := 0 to |log|
      invariant out == Gathered(sc, want, log[..i], from, to)
    {
      assert log[..i + 1][..i] == log[..i];
      var es, ok := Scan(log[i], sc, want, from, to);
      // A container that cannot be read is passed over, with what was read of it.
      if !ok {
        assert out + [] == out;
        continue;
      }
      out := out + es;
    }
    assert log[..|log|] == log;
    out := NewestFirst(out);
    if |out| > limit { out := out[..limit]; }
  }
}
