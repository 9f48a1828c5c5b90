// The reader of the audit trail, over whichever source the deployment has
// (internal/auditlog/auditlog.go).

module AuditReader {
  import opened Prelude
  import opened AccessModel
  import opened AuditLog
  import opened Paging
  import opened PagingRuns
  import opened PodLogs

  // Lines of Loki's, each with the entry in it if there is one.
  type Lines = seq<Option<Entry>>

  // What the reader asks: the service's own pods, Loki, whose answer to a range
  // query of at most so many lines is given, or nothing.
  datatype Backend = Pods(log: seq<Container>) | Loki(query: (Time, Time, nat) -> Lines) | Nowhere

  function Kept(lines: Lines, sc: Scope, want: Want): seq<Entry> {
    if lines == [] then []
    else
      var last := lines[|lines| - 1];
      Kept(lines[..|lines| - 1], sc, want) + if last.Some? && Admits(sc, want, last.value) then [last.value] else []
  }

  function SourceOf(backend: Backend, sc: Scope, want: Want): Source {
    match backend
    case Pods(log) => PodSource(log, sc, want)
    case Loki(query) => (from: Time, to: Time, room: nat) => Kept(query(from, to, room), sc, want)
    case Nowhere => (from: Time, to: Time, room: nat) => []
  }

  method ReadWindow(backend: Backend, sc: Scope, want: Want, from: Time, to: Time, limit: nat) returns (out: seq<Entry>)
    ensures out == SourceOf(backend, sc, want)(from, to, limit)
  {
    match backend
    case Pods(log) => out := ReadPods(log, sc, want, from, to, limit);
    case Loki(query) =>
      var lines := query(from, to, limit);
      out := [];
      for i := 0 to |lines|
        invariant out == Kept(lines[..i], sc, want)
      {
        assert lines[..i + 1][..i] == lines[..i];
        if lines[i].None? { continue; }
        var keep := Keep(lines[i].value, sc, want);
        if keep { out := out + [lines[i].value]; }
      }
      assert lines[..|lines|] == lines;
    case Nowhere => out := [];
  }

  // A page, or none where there is nothing to read from.
  method Read(backend: Backend, sc: Scope, f: Filter, now: Time, horizon: nat) returns (page: Option<Page>)
    ensures page == if backend.Nowhere? then None
                    else if sc.Empty() then Some(Page([], NEVER))
                    else Some(PageAt(Asked(SourceOf(backend, sc, f.want), sc, f, now, horizon), Start(f, now)))
    ensures page.Some? && now - horizon > NEVER && Sound(SourceOf(backend, sc, f.want), sc, f.want) ==>
      AsAsked(page.value, sc, f, now, horizon)
  {
    if backend.Nowhere? { return None; }
    if sc.Empty() { return Some(Page([], NEVER)); }
    var limit := if f.limit <= 0 || f.limit > MAX_LIMIT then DEFAULT_LIMIT else f.limit;
    var to := f.to;
    if to == NEVER || to > now { to := now; }
    var floor := now - horizon;
    if f.since != NEVER && f.since > floor { floor := f.since; }
    ghost var source := SourceOf(backend, sc, f.want);
    hide SourceOf, Sound, AsAsked;
    assert Query(source, sc, f.want, floor, limit) == Asked(source, sc, f, now, horizon);
    var out;
    out, to := ReadBack(backend, sc, f.want, floor, limit, to);
    page := Some(Page(NewestFirst(out), if to > floor then to else NEVER));
    if now - horizon > NEVER && Sound(source, sc, f.want) { PageIsAsAsked(source, sc, f, now, horizon); }
  }

  method ReadBack(backend: Backend, sc: Scope, want: Want, floor: Time, limit: nat, start: Time)
    returns (out: seq<Entry>, to: Time)
    ensures (out, to) == Fill(Query(SourceOf(backend, sc, want), sc, want, floor, limit), start, [], 0)
  {
    hide SourceOf;
    ghost var q := Query(SourceOf(backend, sc, want), sc, want, floor, limit);
    out, to := [], start;
    var step := 0;
    while step < STEPS && to > floor && |out| < limit
      invariant step <= STEPS && Fill(q, to, out, step) == Fill(q, start, [], 0)
    {
      var from := to - WINDOW;
      if from < floor { from := floor; }
      var batch := ReadWindow(backend, sc, want, from, to, limit - |out|);
      assert batch == Shown(q, Step(q, to, |out|)) && from == Step(q, to, |out|).from;
      out := out + batch;
      to := from;
      step := step + 1;
    }
  }

  // ---- Sources that answer as they are asked ----

  lemma {:induction false} KeptIsAdmitted(lines: Lines, sc: Scope, want: Want)
    ensures |Kept(lines, sc, want)| <= |lines|
    ensures forall i :: 0 <= i < |Kept(lines, sc, want)| ==>
      Some(Kept(lines, sc, want)[i]) in lines && Admits(sc, want, Kept(lines, sc, want)[i])
  {
    hide Admits;
    if lines != [] {
      KeptIsAdmitted(lines[..|lines| - 1], sc, want);
      assert lines == lines[..|lines| - 1] + [lines[|lines| - 1]];
    }
  }

  // Of Loki's lines every entry that is admitted is kept, as often as it is there.
  lemma {:induction false} KeptIsAllAdmitted(lines: Lines, sc: Scope, want: Want, e: Entry)
    ensures multiset(Kept(lines, sc, want))[e] == if Admits(sc, want, e) then multiset(lines)[Some(e)] else 0
  {
    hide Admits;
    if lines != [] {
      var n := |lines| - 1;
      var above := Kept(lines[..n], sc, want);
      KeptIsAllAdmitted(lines[..n], sc, want, e);
      assert lines == lines[..n] + [lines[n]];
      assert multiset(lines) == multiset(lines[..n]) + multiset{lines[n]};
      if lines[n].Some? && Admits(sc, want, lines[n].value) {
        assert Kept(lines, sc, want) == above + [lines[n].value];
      } else {
        assert Kept(lines, sc, want) == above;
      }
    }
  }

  // Loki keeps to the limit and to the range, by the times of the entries.
  ghost predicate Obliging(query: (Time, Time, nat) -> Lines) {
    forall from, to, room :: |query(from, to, room)| <= room &&
      forall e :: Some(e) in query(from, to, room) ==> from <= e.time <= to
  }

  lemma LokiIsSound(query: (Time, Time, nat) -> Lines, sc: Scope, want: Want, floor: Time, limit: nat)
    requires Obliging(query)
    ensures SoundSource(Query(SourceOf(Loki(query), sc, want), sc, want, floor, limit))
  {
    hide Admits;
    var source := SourceOf(Loki(query), sc, want);
    forall from, to, room ensures SoundAnswer(source(from, to, room), sc, want, from, to, room) {
      KeptIsAdmitted(query(from, to, room), sc, want);
    }
  }
}
