// Listings kept and served while a newer one is fetched behind them
// (internal/configsource/cache.go).
//
// The state machine keeps, beside the cache's own fields, when each fetch began
// and was installed and when each save dropped the listing, counted in steps.
// `Cached` is the object itself; each of its methods is one step.

module ListingCache {
  import opened Prelude
  import opened AccessModel

  // Thirty seconds and ten minutes, in nanoseconds.
  const LIST_TTL: nat := 30_000_000_000
  const STALE_LIMIT: nat := 600_000_000_000

  type Listing = seq<string>

  // What the source answers. A listing that is nil is taken like any other, but
  // never served from the cache.
  datatype Answer = Listed(listing: Option<Listing>) | Failed

  // A listing put in the cache: when its fetch began, when and at what time it was installed.
  datatype Install = Install(listing: Option<Listing>, begun: nat, done: nat, at: Time)

  // A save that dropped the listing, and whether a refresh was in flight then.
  datatype Drop = Drop(step: nat, busy: bool)

  datatype State = State(entries: Option<Listing>, at: Time, refreshing: bool,
                         step: nat, clock: Time, flights: set<nat>, installs: seq<Install>, drops: seq<Drop>)

  datatype Step =
    // The answer is there if the source is asked, which ends at `later`.
    | List(now: Time, answer: Answer, later: Time)
    | Refresh(begun: nat, answer: Answer, now: Time)
    | Put(ok: bool, now: Time)

  predicate Usable(s: State, now: Time) { s.entries.Some? && now - s.at < STALE_LIMIT }

  predicate Enabled(s: State, x: Step) {
    match x
    case List(now, _, later) => s.clock <= now <= later
    case Refresh(begun, _, now) => s.clock <= now && begun in s.flights
    case Put(_, now) => s.clock <= now
  }

  function Installed(s: State, listing: Option<Listing>, begun: nat, now: Time): State {
    s.(entries := listing, at := now, installs := s.installs + [Install(listing, begun, s.step, now)])
  }

  function After(s: State, x: Step): State
    requires Enabled(s, x)
  {
    var s' := s.(step := s.step + 1);
    match x
    case List(now, answer, later) =>
      if Usable(s, now) then
        if now - s.at >= LIST_TTL && !s.refreshing
        then s'.(clock := now, refreshing := true, flights := s.flights + {s.step})
        else s'.(clock := now)
      else if answer.Listed? then Installed(s', answer.listing, s.step, later).(clock := later, step := s.step + 2)
      else s'.(clock := later)
    case Refresh(begun, answer, now) =>
      var s'' := s'.(clock := now, refreshing := false, flights := s.flights - {begun});
      if answer.Listed? then Installed(s'', answer.listing, begun, now).(step := s.step + 2) else s''
    case Put(ok, now) =>
      if ok then s'.(clock := now, entries := None, at := NEVER, drops := s.drops + [Drop(s.step, s.flights != {})])
      else s'.(clock := now)
  }

  // What a reader is given.
  function Given(s: State, now: Time, answer: Answer): Answer {
    if Usable(s, now) then Listed(s.entries) else answer
  }

  // ---- What every step keeps ----

  ghost predicate InFlight(s: State) {
    && (if s.refreshing then |s.flights| == 1 else s.flights == {})
    && forall b :: b in s.flights ==> b < s.step
  }

  // The listing was installed after the save, and unless a refresh was in
  // flight when it was made, it was fetched after it too.
  predicate Follows(begun: nat, done: nat, d: Drop) {
    d.step < done && (d.busy || d.step < begun)
  }

  ghost predicate Backed(s: State) {
    s.entries.Some? ==>
      && s.installs != [] && s.at <= s.clock
      && var last := s.installs[|s.installs| - 1];
      && last.listing == s.entries && last.at == s.at
      && forall i :: 0 <= i < |s.drops| ==> Follows(last.begun, last.done, s.drops[i])
  }

  ghost predicate Inv(s: State) {
    && InFlight(s) && Backed(s)
    && (forall i :: 0 <= i < |s.drops| ==> s.drops[i].step < s.step)
    && (forall b, i :: b in s.flights && 0 <= i < |s.drops| ==> s.drops[i].busy || s.drops[i].step < b)
  }

  lemma OnlyOne(flights: set<nat>, b: nat)
    requires |flights| == 1 && b in flights
    ensures flights == {b}
  {
    var rest := flights - {b};
    assert |rest| == 0;
    assert flights == rest + {b};
  }

  lemma StepKeeps(s: State, x: Step)
    requires Inv(s) && Enabled(s, x)
    ensures Inv(After(s, x))
  {
    var s' := After(s, x);
    match x
    case List(now, answer, later) =>
    case Refresh(begun, answer, now) => OnlyOne(s.flights, begun);
    case Put(ok, now) =>
  }

  // ---- Every run ----

  const COLD: State := State(None, NEVER, false, 0, NEVER, {}, [], [])

  ghost predicate Legal(s: State, run: seq<Step>)
    decreases |run|
  {
    run == [] || (Enabled(s, run[0]) && Legal(After(s, run[0]), run[1..]))
  }

  ghost function End(s: State, run: seq<Step>): State
    requires Legal(s, run)
    decreases |run|
  {
    if run == [] then s else End(After(s, run[0]), run[1..])
  }

  lemma {:induction false} RunKeeps(s: State, run: seq<Step>)
    requires Inv(s) && Legal(s, run)
    ensures Inv(End(s, run))
    decreases |run|
  {
    if run != [] {
      StepKeeps(s, run[0]);
      RunKeeps(After(s, run[0]), run[1..]);
    }
  }

  // After any run, a listing served without asking the source is one the source
  // gave, installed less than ten minutes ago; it was installed after every
  // successful save so far, and fetched after each of them that found no
  // refresh in flight. And a refresh is in flight exactly while it is marked so.
  lemma ServedIsBacked(run: seq<Step>, now: Time)
    requires Legal(COLD, run)
    ensures var s := End(COLD, run);
      && (Usable(s, now) ==>
            exists k :: 0 <= k < |s.installs| && s.installs[k].listing == s.entries
                        && now - s.installs[k].at < STALE_LIMIT
                        && forall i :: 0 <= i < |s.drops| ==> Follows(s.installs[k].begun, s.installs[k].done, s.drops[i]))
      && |s.flights| == (if s.refreshing then 1 else 0)
  {
    RunKeeps(COLD, run);
    var s := End(COLD, run);
    if Usable(s, now) {
      var k := |s.installs| - 1;
      assert s.installs[k].listing == s.entries;
    }
  }

  // A source that fails, or a save that does, changes nothing that is served.
  lemma FailuresChangeNothingServed(s: State, x: Step, now: Time, answer: Answer)
    requires Enabled(s, x) && (if x.Put? then !x.ok else x.answer.Failed?)
    ensures Given(After(s, x), now, answer) == Given(s, now, answer)
    ensures After(s, x).installs == s.installs && After(s, x).drops == s.drops
  {
  }

  // ---- What is asked of the source ----

  // A listing under ten minutes old is served as it is, and one of thirty seconds or
  // more is then fetched anew behind the reader unless that is going on already. Any
  // other reader is given what the source answers.
  lemma ReadingServes(s: State, now: Time, answer: Answer, later: Time)
    requires Inv(s) && Enabled(s, List(now, answer, later))
    ensures var s' := After(s, List(now, answer, later));
      var served := s.entries.Some? && now - s.at < 600_000_000_000;
      && Given(s, now, answer) == (if served then Listed(s.entries) else answer)
      && (served ==> s'.entries == s.entries && s'.at == s.at)
      && (s.step in s'.flights <==> served && now - s.at >= 30_000_000_000 && !s.refreshing)
      && (s'.refreshing <==> s.refreshing || s.step in s'.flights)
      && s'.flights - {s.step} == s.flights
  {
  }

  // What the source gives, to a reader or behind one, is served for ten minutes and no
  // longer; a refresh, failed or not, may be followed by another.
  lemma FetchedIsServed(s: State, x: Step, listing: Listing, now: Time, answer: Answer)
    requires Inv(s) && Enabled(s, x) && !x.Put? && x.answer == Listed(Some(listing)) && (x.List? ==> !Usable(s, x.now))
    ensures Given(After(s, x), now, answer) ==
            if now - Fetched(x) < 600_000_000_000 then Listed(Some(listing)) else answer
    ensures x.Refresh? ==> !After(s, x).refreshing && !After(s, Refresh(x.begun, Failed, x.now)).refreshing
  {
  }

  function Fetched(x: Step): Time
    requires !x.Put?
  {
    match x
    case List(_, _, later) => later
    case Refresh(_, _, now) => now
  }

  // After a save that succeeded the next reader asks the source.
  lemma SavedIsDropped(s: State, now: Time, later: Time, answer: Answer)
    requires Enabled(s, Put(true, now))
    ensures Given(After(s, Put(true, now)), later, answer) == answer
  {
  }

  // ---- A save and the refresh it crosses ----

  // Any refresh in flight during a save can put back what it fetched before it.
  lemma SaveCanBeOverwritten(s: State, begun: nat, listing: Listing, now: Time, later: Time)
    requires Inv(s) && begun in s.flights && s.clock <= now <= later
    ensures var saved := After(s, Put(true, now));
      && Enabled(saved, Refresh(begun, Listed(Some(listing)), later))
      && var s' := After(saved, Refresh(begun, Listed(Some(listing)), later));
      && Usable(s', later) && Given(s', later, Failed) == Listed(Some(listing))
      && s'.drops == s.drops + [Drop(s.step, true)] && !FetchedSince(s', s.step)
  {
  }

  // What the cache holds, if anything, was fetched after step d.
  predicate FetchedSince(s: State, d: nat) {
    s.entries.Some? ==> s.installs != [] && s.installs[|s.installs| - 1].begun > d
  }

  lemma {:induction false} DropsStay(s: State, run: seq<Step>)
    requires Legal(s, run)
    ensures s.drops <= End(s, run).drops
    decreases |run|
  {
    if run != [] { DropsStay(After(s, run[0]), run[1..]); }
  }

  lemma IdleSaveHolds(s: State, now: Time, run: seq<Step>)
    requires Inv(s) && Enabled(s, Put(true, now)) && !s.refreshing && Legal(After(s, Put(true, now)), run)
    ensures FetchedSince(End(After(s, Put(true, now)), run), s.step)
  {
    var saved := After(s, Put(true, now));
    StepKeeps(s, Put(true, now));
    RunKeeps(saved, run);
    DropsStay(saved, run);
    var s' := End(saved, run);
    assert s'.drops[|s.drops|] == saved.drops[|s.drops|] == Drop(s.step, false);
  }

  lemma OneStep(s: State, x: Step)
    requires Enabled(s, x)
    ensures Legal(s, [x]) && End(s, [x]) == After(s, x)
  {
    var s', rest := After(s, x), [x][1..];
    assert rest == [];
    assert Legal(s', rest) && End(s', rest) == s';
  }

  // Whatever happens after a successful save, all that is ever served was fetched
  // after it, if and only if no refresh was in flight when the save was made.
  lemma SaveHoldsIffIdle(s: State, now: Time)
    requires Inv(s) && Enabled(s, Put(true, now))
    ensures (forall run :: Legal(After(s, Put(true, now)), run) ==> FetchedSince(End(After(s, Put(true, now)), run), s.step))
            <==> !s.refreshing
  {
    var saved := After(s, Put(true, now));
    if s.refreshing {
      assert s.flights != {};
      var begun :| begun in s.flights;
      SaveCanBeOverwritten(s, begun, [], now, now);
      var x := Refresh(begun, Listed(Some([])), now);
      OneStep(saved, x);
      assert Legal(saved, [x]) && !FetchedSince(End(saved, [x]), s.step);
    } else {
      forall run | Legal(saved, run) ensures FetchedSince(End(saved, run), s.step) { IdleSaveHolds(s, now, run); }
    }
  }

  // ---- The object ----

  class Cached {
    var entries: Option<Listing>
    var at: Time
    var refreshing: bool

    ghost var state: State

    ghost predicate Valid() reads this {
      Inv(state) && state.entries == entries && state.at == at && state.refreshing == refreshing
    }

    constructor ()
      ensures Valid() && state == COLD
    {
      entries, at, refreshing, state := None, NEVER, false, COLD;
    }

    // starts says that the caller has to run a refresh, which ends in Refreshed.
    method ListEntries(now: Time, answer: Answer, later: Time) returns (given: Answer, starts: bool)
      requires Valid() && Enabled(state, List(now, answer, later))
      modifies this
      ensures Valid() && state == After(old(state), List(now, answer, later))
      ensures given == Given(old(state), now, answer)
      ensures starts <==> old(state.flights) != state.flights
    {
      StepKeeps(state, List(now, answer, later));
      ghost var s := state;
      state := After(state, List(now, answer, later));
      starts := false;
      if entries.Some? && now - at < STALE_LIMIT {
        given := Listed(entries);
        if now - at >= LIST_TTL && !refreshing {
          refreshing := true;
          starts := true;
          assert s.step in state.flights && s.step !in s.flights;
        }
        return;
      }
      given := answer;
      if answer.Listed? { entries, at := answer.listing, later; }
    }

    // A refresh ends.
    method Refreshed(answer: Answer, now: Time, ghost begun: nat)
      requires Valid() && Enabled(state, Refresh(begun, answer, now))
      modifies this
      ensures Valid() && state == After(old(state), Refresh(begun, answer, now))
    {
      StepKeeps(state, Refresh(begun, answer, now));
      state := After(state, Refresh(begun, answer, now));
      refreshing := false;
      if answer.Failed? { return; }
      entries, at := answer.listing, now;
    }

    // A file was saved, if ok: its listing has to show it at once.
    method Saved(ok: bool, now: Time)
      requires Valid() && Enabled(state, Put(ok, now))
      modifies this
      ensures Valid() && state == After(old(state), Put(ok, now))
    {
      StepKeeps(state, Put(ok, now));
      state := After(state, Put(ok, now));
      if ok { entries, at := None, NEVER; }
    }
  }
}
