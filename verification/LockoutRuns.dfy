// Whole runs of the lockout: how many get through at most, that so many do, and
// exactly when the shared lock keeps the number down.

module LockoutRuns {
  import opened Prelude
  import opened AccessModel
  import opened Limiter
  import opened Lockout

  // Whatever locks and records there already are.
  predicate Initial(s: State) { s.attempts == [] }

  ghost predicate Legal(s: State, d: Deployment, run: seq<Step>)
    decreases |run|
  {
    run == [] || (Enabled(s, d, run[0]) && Legal(After(s, d, run[0]), d, run[1..]))
  }

  ghost function End(s: State, d: Deployment, run: seq<Step>): State
    requires Legal(s, d, run)
    decreases |run|
  {
    if run == [] then s else End(After(s, d, run[0]), d, run[1..])
  }

  // Begun and let past the check between t and five minutes later.
  ghost function ThroughIn(t: Time, lo: nat, hi: nat): Attempt -> bool {
    (a: Attempt) => Past(a) && t <= a.start <= a.checked <= t + LOCKOUT_WINDOW && lo <= a.record < hi
  }

  // ---- At most so many ----

  lemma {:induction false} RunKeepsRecord(s: State, d: Deployment, t: Time, r: nat, run: seq<Step>)
    requires RecordInv(s, d, t, r) && Legal(s, d, run)
    ensures RecordInv(End(s, d, run), d, t, r)
    decreases |run|
  {
    if run != [] {
      StepKeepsRecord(s, d, t, r, run[0]);
      RunKeepsRecord(After(s, d, run[0]), d, t, r, run[1..]);
    }
  }

  lemma {:induction false} RunKeeps(s: State, d: Deployment, t: Time, run: seq<Step>)
    requires Inv(s, d, t) && Reliable(d) && Legal(s, d, run)
    ensures Inv(End(s, d, run), d, t)
    decreases |run|
  {
    if run != [] {
      StepKeeps(s, d, t, run[0]);
      RunKeeps(After(s, d, run[0]), d, t, run[1..]);
    }
  }

  lemma {:induction false} PassedByRecord(attempts: seq<Attempt>, t: Time, lo: nat, hi: nat, most: nat)
    requires lo <= hi && forall r: nat :: lo <= r < hi ==> Count(attempts, PassedAt(t, r)) <= most
    ensures Count(attempts, PassedIn(t, lo, hi)) <= most * (hi - lo)
    decreases hi
  {
    if lo == hi {
      CountNone(attempts, PassedIn(t, lo, hi));
    } else {
      PassedByRecord(attempts, t, lo, hi - 1, most);
      CountSplits(attempts, PassedIn(t, lo, hi), PassedIn(t, lo, hi - 1), PassedAt(t, hi - 1));
      assert most * (hi - lo) == most * (hi - 1 - lo) + most;
    }
  }

  // In every run, whatever becomes of the locks, and for every window of five
  // minutes: at most 4 + k attempts are let past one record in it, and so at most
  // 4 + k for each of any neighbouring records.
  lemma EachRecordHolds(s: State, d: Deployment, run: seq<Step>, t: Time, lo: nat, hi: nat)
    requires Initial(s) && Legal(s, d, run) && lo <= hi
    ensures Count(End(s, d, run).attempts, PassedIn(t, lo, hi)) <= (4 + d.k) * (hi - lo)
  {
    forall r: nat ensures Count(End(s, d, run).attempts, PassedAt(t, r)) <= 4 + d.k {
      assert Count(s.attempts, PassedAt(t, r)) == 0 && Count(s.attempts, CountedAt(t, r)) == 0;
      RunKeepsRecord(s, d, t, r, run);
    }
    PassedByRecord(End(s, d, run).attempts, t, lo, hi, 4 + d.k);
  }

  // If locks can be relied on, any neighbouring records let at most 4 for each of
  // them and k more through of the attempts begun in a window: over all n of them
  // 4n + k, and over a single one 4 + k.
  lemma AtMostThisManyGetThrough(s: State, d: Deployment, run: seq<Step>, t: Time, lo: nat, hi: nat)
    requires Initial(s) && Reliable(d) && Legal(s, d, run) && lo <= hi <= d.n
    ensures var attempts := End(s, d, run).attempts;
      Count(attempts, ThroughIn(t, lo, hi)) <= Count(attempts, LetIn(t, lo, hi)) <= 4 * (hi - lo) + d.k
  {
    assert forall p: Attempt -> bool :: Count(s.attempts, p) == 0;
    RunKeeps(s, d, t, run);
    CountAtMost(End(s, d, run).attempts, ThroughIn(t, lo, hi), LetIn(t, lo, hi));
  }

  // ---- Putting runs together ----

  ghost predicate Reaches(s: State, d: Deployment, run: seq<Step>, s': State) { Legal(s, d, run) && End(s, d, run) == s' }

  ghost predicate Leads(s: State, d: Deployment, s': State) { exists run :: Reaches(s, d, run, s') }

  lemma {:induction false} RunsJoin(s: State, d: Deployment, a: seq<Step>, b: seq<Step>)
    requires Legal(s, d, a) && Legal(End(s, d, a), d, b)
    ensures Reaches(s, d, a + b, End(End(s, d, a), d, b))
    decreases |a|
  {
    if a == [] {
      assert a + b == b;
    } else {
      assert (a + b)[1..] == a[1..] + b;
      RunsJoin(After(s, d, a[0]), d, a[1..], b);
    }
  }

  lemma LeadsOn(s0: State, d: Deployment, s1: State, s2: State)
    requires Leads(s0, d, s1) && Leads(s1, d, s2)
    ensures Leads(s0, d, s2)
  {
    var a :| Reaches(s0, d, a, s1);
    var b :| Reaches(s1, d, b, s2);
    RunsJoin(s0, d, a, b);
  }

  lemma LeadsNowhere(s: State, d: Deployment)
    ensures Leads(s, d, s)
  {
    assert Reaches(s, d, [], s);
  }

  lemma Takes(s: State, d: Deployment, step: Step, s': State)
    requires Enabled(s, d, step) && s' == After(s, d, step)
    ensures Leads(s, d, s')
  {
    var run := [step];
    assert run[0] == step && run[1..] == [];
    assert Legal(s', d, []) && End(s', d, []) == s';
    assert Legal(s, d, run);
    assert End(s, d, run) == End(s', d, run[1..]);
    assert Reaches(s, d, run, s');
  }

  lemma TakesThen(s0: State, d: Deployment, s: State, step: Step, s': State)
    requires Leads(s0, d, s) && Enabled(s, d, step) && s' == After(s, d, step)
    ensures Leads(s0, d, s')
  {
    Takes(s, d, step, s');
    LeadsOn(s0, d, s, s');
  }

  // ---- Failures one after the other ----

  // How many more failures a record shows.
  function Failures(s: State, r: nat): nat {
    if r in s.records && !Elapsed(s.records[r], s.now) then s.records[r].failures else 0
  }

  function Added(s: State, a: Attempt): State { s.(attempts := s.attempts + [a]) }

  // One attempt let past its record.
  lemma PassOne(s: State, d: Deployment, r: nat)
    requires r < d.n && !Live(s.lock, s.now) && Count(s.attempts, Open()) < d.k && Failures(s, r) < 5
    ensures Leads(s, d, Added(s, Attempt(r, s.now, s.now, Trying)).(records := SetRecord(s.records, r, Checked(Lookup(s.records, r), s.now).0)))
  {
    var m := |s.attempts|;
    var s1 := After(s, d, Arrive(r));
    Takes(s, d, Arrive(r), s1);
    assert s1.attempts[m] == Attempt(r, s.now, NEVER, Arrived);
    var s2 := After(s1, d, Check(m));
    assert s2.attempts == s.attempts + [Attempt(r, s.now, s.now, Trying)];
    TakesThen(s, d, s1, Check(m), s2);
  }

  // One that fails, short of the fifth failure.
  lemma FailOne(s: State, d: Deployment, r: nat)
    requires r < d.n && !Live(s.lock, s.now) && Count(s.attempts, Open()) < d.k && Failures(s, r) < 4
    ensures Leads(s, d, Added(s, Attempt(r, s.now, s.now, Done))
                          .(records := s.records[r := Record(Failures(s, r) + 1, s.now + LOCKOUT_WINDOW)]))
  {
    var m := |s.attempts|;
    var s1 := Added(s, Attempt(r, s.now, s.now, Trying)).(records := SetRecord(s.records, r, Checked(Lookup(s.records, r), s.now).0));
    PassOne(s, d, r);
    var s2 := After(s1, d, Fail(m));
    assert s2.attempts == s.attempts + [Attempt(r, s.now, s.now, Done)];
    assert s2.records == s.records[r := Record(Failures(s, r) + 1, s.now + LOCKOUT_WINDOW)];
    TakesThen(s, d, s1, Fail(m), s2);
  }

  function Tries(r: nat, now: Time, j: nat, stage: Stage): seq<Attempt> {
    if j == 0 then [] else Tries(r, now, j - 1, stage) + [Attempt(r, now, now, stage)]
  }

  lemma {:induction false} CountTries(r: nat, now: Time, j: nat, stage: Stage, p: Attempt -> bool)
    ensures Count(Tries(r, now, j, stage), p) == (if p(Attempt(r, now, now, stage)) then j else 0)
    ensures |Tries(r, now, j, stage)| == j && forall i :: 0 <= i < j ==> Tries(r, now, j, stage)[i] == Attempt(r, now, now, stage)
  {
    if j > 0 {
      CountTries(r, now, j - 1, stage, p);
      CountPush(Tries(r, now, j - 1, stage), Attempt(r, now, now, stage), p);
    }
  }

  lemma {:induction false} CountJoin(a: seq<Attempt>, b: seq<Attempt>, p: Attempt -> bool)
    ensures Count(a + b, p) == Count(a, p) + Count(b, p)
  {
    if b == [] {
      assert a + b == a;
    } else {
      var n := |b| - 1;
      CountJoin(a, b[..n], p);
      assert a + b == (a + b[..n]) + [b[n]];
      CountPush(a + b[..n], b[n], p);
    }
  }

  lemma {:induction false} TriesCons(r: nat, now: Time, j: nat, stage: Stage)
    ensures [Attempt(r, now, now, stage)] + Tries(r, now, j, stage) == Tries(r, now, j + 1, stage)
  {
    if j > 0 {
      TriesCons(r, now, j - 1, stage);
      var a := Attempt(r, now, now, stage);
      assert [a] + Tries(r, now, j, stage) == ([a] + Tries(r, now, j - 1, stage)) + [a];
    }
  }

  // ---- Four failures ----

  function WithFour(s: State, r: nat): State
    requires Failures(s, r) <= 4
  {
    s.(attempts := s.attempts + Tries(r, s.now, 4 - Failures(s, r), Done),
       records := s.records[r := Record(4, s.now + LOCKOUT_WINDOW)])
  }

  function WithOne(s: State, r: nat): State {
    Added(s, Attempt(r, s.now, s.now, Done)).(records := s.records[r := Record(Failures(s, r) + 1, s.now + LOCKOUT_WINDOW)])
  }

  lemma OneOfFour(s: State, r: nat)
    requires Failures(s, r) < 4
    ensures Failures(WithOne(s, r), r) == Failures(s, r) + 1 && WithFour(WithOne(s, r), r) == WithFour(s, r)
    ensures Failures(s, r) == 3 ==> WithFour(s, r) == WithOne(s, r)
  {
    var f, a := Failures(s, r), Attempt(r, s.now, s.now, Done);
    TriesCons(r, s.now, 3 - f, Done);
    Reassociate(s.attempts, [a], Tries(r, s.now, 3 - f, Done));
    assert s.attempts + [a] + [] == s.attempts + [a];
  }

  lemma Reassociate<T>(a: seq<T>, b: seq<T>, c: seq<T>)
    ensures (a + b) + c == a + (b + c)
  {
  }

  lemma {:induction false} FailUpTo(s: State, d: Deployment, r: nat)
    requires r < d.n && !Live(s.lock, s.now) && Count(s.attempts, Open()) < d.k && Failures(s, r) < 4
    ensures Leads(s, d, WithFour(s, r))
    decreases 4 - Failures(s, r)
  {
    hide WithFour, Leads;
    FailOne(s, d, r);
    OneOfFour(s, r);
    if Failures(s, r) < 3 {
      CountPush(s.attempts, Attempt(r, s.now, s.now, Done), Open());
      FailUpTo(WithOne(s, r), d, r);
      LeadsOn(s, d, WithOne(s, r), WithFour(s, r));
    }
  }

  // ---- Several at once ----

  function Crowded(s: State, r: nat, j: nat): State { s.(attempts := s.attempts + Tries(r, s.now, j, Trying)) }

  // j attempts let past a record that shows four failures.
  lemma {:induction false} Crowd(s: State, d: Deployment, r: nat, j: nat)
    requires r < d.n && !Live(s.lock, s.now) && Count(s.attempts, Open()) + j <= d.k
    requires r in s.records && !Elapsed(s.records[r], s.now) && s.records[r].failures == 4
    ensures Leads(s, d, Crowded(s, r, j))
  {
    if j == 0 {
      assert s.attempts + [] == s.attempts;
      LeadsNowhere(s, d);
    } else {
      hide Leads, Elapsed;
      var s1 := Crowded(s, r, j - 1);
      Crowd(s, d, r, j - 1);
      CountJoin(s.attempts, Tries(r, s.now, j - 1, Trying), Open());
      CountTries(r, s.now, j - 1, Trying, Open());
      PassAgain(s1, d, r);
      Reassociate(s.attempts, Tries(r, s.now, j - 1, Trying), [Attempt(r, s.now, s.now, Trying)]);
      LeadsOn(s, d, s1, Crowded(s, r, j));
    }
  }

  lemma PassAgain(s: State, d: Deployment, r: nat)
    requires r < d.n && !Live(s.lock, s.now) && Count(s.attempts, Open()) < d.k
    requires r in s.records && !Elapsed(s.records[r], s.now) && s.records[r].failures == 4
    ensures Leads(s, d, Added(s, Attempt(r, s.now, s.now, Trying)))
  {
    PassOne(s, d, r);
    assert SetRecord(s.records, r, Checked(Lookup(s.records, r), s.now).0) == s.records;
  }

  // ---- Failures that the lock does not follow ----

  // One of those fails as the fifth or a later one, and is about to set the lock.
  function AboutToLock(s: State, r: nat, m: nat): State
    requires m < |s.attempts| && r in s.records
  {
    s.(attempts := s.attempts[m := Attempt(r, s.now, s.now, Locking(s.now + LOCKOUT_WINDOW))],
       records := s.records[r := Record(s.records[r].failures + 1, s.now + LOCKOUT_WINDOW)])
  }

  lemma FailsFifth(s: State, d: Deployment, r: nat, m: nat)
    requires !Live(s.lock, s.now) && m < |s.attempts| && s.attempts[m] == Attempt(r, s.now, s.now, Trying)
    requires r in s.records && !Elapsed(s.records[r], s.now) && s.records[r].failures >= 4
    ensures Leads(s, d, AboutToLock(s, r, m))
  {
    hide Leads;
    var s1 := After(s, d, Fail(m));
    Takes(s, d, Fail(m), s1);
    var s2 := After(s1, d, Share(m));
    TakesThen(s, d, s1, Share(m), s2);
    assert s2.attempts == AboutToLock(s, r, m).attempts;
  }

  // Its lock is not set.
  lemma FinishOne(s: State, d: Deployment, r: nat, m: nat)
    requires d.fails && !Live(s.lock, s.now) && m < |s.attempts| && s.attempts[m] == Attempt(r, s.now, s.now, Trying)
    requires r in s.records && !Elapsed(s.records[r], s.now) && s.records[r].failures >= 4
    ensures Leads(s, d, s.(attempts := s.attempts[m := Attempt(r, s.now, s.now, Done)],
                           records := s.records[r := Record(s.records[r].failures + 1, s.now + LOCKOUT_WINDOW)]))
  {
    hide Leads;
    FailsFifth(s, d, r, m);
    var s1 := AboutToLock(s, r, m);
    var s2 := After(s1, d, LockFails(m));
    TakesThen(s, d, s1, LockFails(m), s2);
    assert s2.attempts == s.attempts[m := Attempt(r, s.now, s.now, Done)];
  }

  lemma {:induction false} FinishAll(s: State, d: Deployment, r: nat, base: seq<Attempt>, j: nat, l: nat)
    requires d.fails && !Live(s.lock, s.now)
    requires s.attempts == base + Tries(r, s.now, j, Trying) + Tries(r, s.now, l, Done)
    requires r in s.records && !Elapsed(s.records[r], s.now) && s.records[r].failures >= 4
    ensures exists s' :: Leads(s, d, s') && s'.now == s.now && s'.lock == s.lock
                         && s'.attempts == base + Tries(r, s.now, j + l, Done)
                         && forall q: nat :: q != r ==> Lookup(s'.records, q) == Lookup(s.records, q)
    decreases j
  {
    CountTries(r, s.now, j, Trying, Open());
    if j == 0 {
      assert base + [] == base;
      LeadsNowhere(s, d);
    } else {
      var m := |base| + j - 1;
      var a := Attempt(r, s.now, s.now, Done);
      FinishOne(s, d, r, m);
      var s1 := s.(attempts := s.attempts[m := a],
                   records := s.records[r := Record(s.records[r].failures + 1, s.now + LOCKOUT_WINDOW)]);
      TriesCons(r, s.now, l, Done);
      assert s1.attempts == base + Tries(r, s.now, j - 1, Trying) + ([a] + Tries(r, s.now, l, Done)) by {
        Swapped(base, Tries(r, s.now, j - 1, Trying), Attempt(r, s.now, s.now, Trying), a, Tries(r, s.now, l, Done));
      }
      FinishAll(s1, d, r, base, j - 1, l + 1);
      var s' :| Leads(s1, d, s') && s'.now == s.now && s'.lock == s.lock
                && s'.attempts == base + Tries(r, s.now, j + l, Done)
                && forall q: nat :: q != r ==> Lookup(s'.records, q) == Lookup(s1.records, q);
      LeadsOn(s, d, s1, s');
    }
  }

  lemma Swapped(base: seq<Attempt>, above: seq<Attempt>, was: Attempt, now: Attempt, below: seq<Attempt>)
    ensures (base + (above + [was]) + below)[|base| + |above| := now] == base + above + ([now] + below)
  {
  }

  // ---- Record after record ----

  // c more attempts through each of the records lo to hi - 1, none of them still
  // in progress, and everything else as it was.
  ghost predicate More(s: State, s': State, d: Deployment, t: Time, lo: nat, hi: nat, c: nat) {
    && s'.now == s.now && s'.lock == s.lock && lo <= hi
    && Count(s'.attempts, Open()) == Count(s.attempts, Open())
    && Count(s'.attempts, ThroughIn(t, 0, d.n)) == Count(s.attempts, ThroughIn(t, 0, d.n)) + c * (hi - lo)
    && forall r: nat :: !(lo <= r < hi) ==> Lookup(s'.records, r) == Lookup(s.records, r)
  }

  lemma CountsMore(s: State, s': State, d: Deployment, t: Time, r: nat, j: nat)
    requires s'.attempts == s.attempts + Tries(r, s.now, j, Done) && t <= s.now <= t + LOCKOUT_WINDOW && r < d.n
    ensures Count(s'.attempts, Open()) == Count(s.attempts, Open())
    ensures Count(s'.attempts, ThroughIn(t, 0, d.n)) == Count(s.attempts, ThroughIn(t, 0, d.n)) + j
  {
    CountJoin(s.attempts, Tries(r, s.now, j, Done), Open());
    CountJoin(s.attempts, Tries(r, s.now, j, Done), ThroughIn(t, 0, d.n));
    CountTries(r, s.now, j, Done, Open());
    CountTries(r, s.now, j, Done, ThroughIn(t, 0, d.n));
  }

  lemma StillNone(s: State, s1: State, lo: nat, hi: nat)
    requires s1.now == s.now && forall r: nat :: lo <= r < hi ==> Failures(s, r) == 0
    requires forall r: nat :: lo <= r < hi ==> Lookup(s1.records, r) == Lookup(s.records, r)
    ensures forall r: nat :: lo <= r < hi ==> Failures(s1, r) == 0
  {
    forall r: nat | lo <= r < hi ensures Failures(s1, r) == 0 {
      assert Failures(s, r) == 0 && Lookup(s1.records, r) == Lookup(s.records, r);
    }
  }

  lemma {:induction false} FillFrom(s: State, d: Deployment, t: Time, lo: nat, hi: nat) returns (s': State)
    requires lo <= hi <= d.n && !Live(s.lock, s.now) && Count(s.attempts, Open()) < d.k && t <= s.now <= t + LOCKOUT_WINDOW
    requires forall r: nat :: lo <= r < hi ==> Failures(s, r) == 0
    ensures Leads(s, d, s') && More(s, s', d, t, lo, hi, 4)
    decreases hi - lo
  {
    if lo == hi {
      LeadsNowhere(s, d);
      s' := s;
    } else {
      var s1 := WithFour(s, lo);
      FailUpTo(s, d, lo);
      CountsMore(s, s1, d, t, lo, 4);
      StillNone(s, s1, lo + 1, hi);
      s' := FillFrom(s1, d, t, lo + 1, hi);
      LeadsOn(s, d, s1, s');
    }
  }

  // Where locks may fail, all k that are let past besides the four may fail in turn.
  lemma SaturateOne(s: State, d: Deployment, t: Time, r: nat) returns (s': State)
    requires r < d.n && d.fails && !Live(s.lock, s.now) && Count(s.attempts, Open()) == 0 && Failures(s, r) == 0 && d.k > 0
    requires t <= s.now <= t + LOCKOUT_WINDOW
    ensures Leads(s, d, s') && More(s, s', d, t, r, r + 1, 4 + d.k)
  {
    var s1 := WithFour(s, r);
    FailUpTo(s, d, r);
    CountsMore(s, s1, d, t, r, 4);
    var s2 := Crowded(s1, r, d.k);
    Crowd(s1, d, r, d.k);
    LeadsOn(s, d, s1, s2);
    assert s2.attempts == s1.attempts + Tries(r, s.now, d.k, Trying) + Tries(r, s.now, 0, Done);
    FinishAll(s2, d, r, s1.attempts, d.k, 0);
    s' :| Leads(s2, d, s') && s'.now == s.now && s'.lock == s.lock
          && s'.attempts == s1.attempts + Tries(r, s.now, d.k, Done)
          && forall q: nat :: q != r ==> Lookup(s'.records, q) == Lookup(s2.records, q);
    LeadsOn(s, d, s2, s');
    CountsMore(s1, s', d, t, r, d.k);
  }

  lemma {:induction false} SaturateFrom(s: State, d: Deployment, t: Time, lo: nat, hi: nat) returns (s': State)
    requires lo <= hi <= d.n && d.fails && d.k > 0 && !Live(s.lock, s.now) && Count(s.attempts, Open()) == 0
    requires t <= s.now <= t + LOCKOUT_WINDOW
    requires forall r: nat :: lo <= r < hi ==> Failures(s, r) == 0
    ensures Leads(s, d, s') && More(s, s', d, t, lo, hi, 4 + d.k)
    decreases hi - lo
  {
    if lo == hi {
      LeadsNowhere(s, d);
      s' := s;
    } else {
      var s1 := SaturateOne(s, d, t, lo);
      StillNone(s, s1, lo + 1, hi);
      s' := SaturateFrom(s1, d, t, lo + 1, hi);
      LeadsOn(s, d, s1, s');
      assert (4 + d.k) * (hi - lo) == (4 + d.k) * (hi - lo - 1) + (4 + d.k);
    }
  }

  // ---- So many do ----

  // Four through every other record, then four and k at once through the first.
  lemma FillAndCrowd(s: State, d: Deployment, t: Time, from: nat) returns (s': State)
    requires 1 <= from <= d.n && d.k > 0 && !Live(s.lock, s.now) && Count(s.attempts, Open()) == 0
    requires t <= s.now <= t + LOCKOUT_WINDOW && Failures(s, 0) == 0
    requires forall r: nat :: from <= r < d.n ==> Failures(s, r) == 0
    ensures Leads(s, d, s') && s'.now == s.now
    ensures Count(s'.attempts, ThroughIn(t, 0, d.n)) ==
            Count(s.attempts, ThroughIn(t, 0, d.n)) + 4 * (d.n - from) + 4 + d.k
    ensures Count(s'.attempts, ThroughIn(t, 0, 1)) >= 4 + d.k
  {
    var s1 := FillFrom(s, d, t, from, d.n);
    assert Lookup(s1.records, 0) == Lookup(s.records, 0);
    var s2 := WithFour(s1, 0);
    FailUpTo(s1, d, 0);
    LeadsOn(s, d, s1, s2);
    CountsMore(s1, s2, d, t, 0, 4);
    s' := Crowded(s2, 0, d.k);
    Crowd(s2, d, 0, d.k);
    LeadsOn(s, d, s2, s');
    CountJoin(s2.attempts, Tries(0, s.now, d.k, Trying), ThroughIn(t, 0, d.n));
    CountTries(0, s.now, d.k, Trying, ThroughIn(t, 0, d.n));
    CrowdCounts(s1.attempts, s.now, d.k, t);
  }

  lemma CrowdCounts(attempts: seq<Attempt>, now: Time, k: nat, t: Time)
    requires t <= now <= t + LOCKOUT_WINDOW
    ensures Count(attempts + Tries(0, now, 4, Done) + Tries(0, now, k, Trying), ThroughIn(t, 0, 1)) >= 4 + k
  {
    CountJoin(attempts + Tries(0, now, 4, Done), Tries(0, now, k, Trying), ThroughIn(t, 0, 1));
    CountJoin(attempts, Tries(0, now, 4, Done), ThroughIn(t, 0, 1));
    CountTries(0, now, 4, Done, ThroughIn(t, 0, 1));
    CountTries(0, now, k, Trying, ThroughIn(t, 0, 1));
  }

  // For any number of records and of attempts at once, with locks of any kind, some
  // run lets 4n + k through together and 4 + k through one record.
  lemma BoundIsMet(d: Deployment) returns (s: State, run: seq<Step>, t: Time)
    requires d.n > 0 && d.k > 0
    ensures Initial(s) && Legal(s, d, run)
    ensures Count(End(s, d, run).attempts, ThroughIn(t, 0, d.n)) == 4 * d.n + d.k
    ensures Count(End(s, d, run).attempts, ThroughIn(t, 0, 1)) == 4 + d.k
  {
    s, t := State(1, NEVER, map[], []), 1;
    var s' := FillAndCrowd(s, d, t, 1);
    run :| Reaches(s, d, run, s');
    EachRecordHolds(s, d, run, t, 0, 1);
    CountAtMost(s'.attempts, ThroughIn(t, 0, 1), PassedIn(t, 0, 1));
  }

  // Where locks may fail, some run lets 4 + k through each of n records.
  lemma WithoutLocksTheRecordsAreAll(d: Deployment) returns (s: State, run: seq<Step>, t: Time)
    requires d.n > 0 && d.k > 0 && d.fails
    ensures Initial(s) && Legal(s, d, run)
    ensures Count(End(s, d, run).attempts, ThroughIn(t, 0, d.n)) == (4 + d.k) * d.n
  {
    s, t := State(1, NEVER, map[], []), 1;
    var s' := SaturateFrom(s, d, t, 0, d.n);
    run :| Reaches(s, d, run, s');
  }

  // ---- A lock that lands late ----

  const BEFORE: State := State(1, NEVER, map[0 := Record(4, 1 + LOCKOUT_WINDOW)], [])

  // The fifth failure on the first record is to lock the account for five minutes
  // from time 1, and does so at time 2. By then the second record has seen four
  // failures, and a fifth attempt is past its check: it fails, finds the account
  // locked and sets no lock of its own. Five minutes after time 2 the lock is over.
  lemma LateLockStarts(d: Deployment) returns (s: State)
    requires d.late && d.k >= 2 && d.n >= 2
    ensures Leads(BEFORE, d, s) && s.now == 2 + LOCKOUT_WINDOW && s.lock == 1 + LOCKOUT_WINDOW
    ensures Count(s.attempts, Open()) == 0 && Count(s.attempts, ThroughIn(2, 0, d.n)) == 5
    ensures s.records.Keys == {0, 1} && Failures(s, 0) == 0
  {
    var s1 := LateLockPending(d);
    var s2 := WithFour(s1, 1);
    FailUpTo(s1, d, 1);
    LeadsOn(BEFORE, d, s1, s2);
    CountJoin(s1.attempts, Tries(1, 2, 4, Done), Open());
    CountTries(1, 2, 4, Done, Open());
    var s3 := Added(s2, Attempt(1, 2, 2, Trying));
    PassAgain(s2, d, 1);
    LeadsOn(BEFORE, d, s2, s3);
    s := LateLockLands(d, s3);
  }

  lemma LateLockPending(d: Deployment) returns (s: State)
    requires d.late && d.k >= 2 && d.n >= 2
    ensures Leads(BEFORE, d, s)
    ensures s == State(2, NEVER, map[0 := Record(5, 1 + LOCKOUT_WINDOW)], [Attempt(0, 1, 1, Locking(1 + LOCKOUT_WINDOW))])
    ensures Count(s.attempts, Open()) == 1
  {
    hide Leads;
    PassAgain(BEFORE, d, 0);
    var s1 := Added(BEFORE, Attempt(0, 1, 1, Trying));
    FailsFifth(s1, d, 0, 0);
    var s2 := AboutToLock(s1, 0, 0);
    LeadsOn(BEFORE, d, s1, s2);
    s := After(s2, d, Tick(1));
    TakesThen(BEFORE, d, s2, Tick(1), s);
    assert [] + [s.attempts[0]] == s.attempts;
    CountPush([], s.attempts[0], Open());
  }

  lemma LateLockLands(d: Deployment, s3: State) returns (s: State)
    requires d.late && d.k >= 2 && d.n >= 2 && Leads(BEFORE, d, s3) && s3.now == 2
    requires s3.attempts == [Attempt(0, 1, 1, Locking(1 + LOCKOUT_WINDOW))] + Tries(1, 2, 4, Done) + [Attempt(1, 2, 2, Trying)]
    requires s3.records == map[0 := Record(5, 1 + LOCKOUT_WINDOW), 1 := Record(4, 2 + LOCKOUT_WINDOW)]
    ensures Leads(BEFORE, d, s) && s.now == 2 + LOCKOUT_WINDOW && s.lock == 1 + LOCKOUT_WINDOW
    ensures Count(s.attempts, Open()) == 0 && Count(s.attempts, ThroughIn(2, 0, d.n)) == 5
    ensures s.records.Keys == {0, 1} && Failures(s, 0) == 0
  {
    CountTries(1, 2, 4, Done, Open());
    var s4 := After(s3, d, Lock(0));
    TakesThen(BEFORE, d, s3, Lock(0), s4);
    var s5 := After(s4, d, Fail(5));
    TakesThen(BEFORE, d, s4, Fail(5), s5);
    var s6 := After(s5, d, Share(5));
    TakesThen(BEFORE, d, s5, Share(5), s6);
    s := After(s6, d, Tick(LOCKOUT_WINDOW));
    TakesThen(BEFORE, d, s6, Tick(LOCKOUT_WINDOW), s);
    var first, last := Attempt(0, 1, 1, Done), Attempt(1, 2, 2, Done);
    assert s.attempts == [first] + Tries(1, 2, 4, Done) + [last];
    FiveThrough(first, last, d);
  }

  lemma FiveThrough(first: Attempt, last: Attempt, d: Deployment)
    requires d.n >= 2 && first == Attempt(0, 1, 1, Done) && last == Attempt(1, 2, 2, Done)
    ensures var attempts := [first] + Tries(1, 2, 4, Done) + [last];
      Count(attempts, Open()) == 0 && Count(attempts, ThroughIn(2, 0, d.n)) == 5
  {
    assert [] + [first] == [first];
    forall p: Attempt -> bool
      ensures Count([first] + Tries(1, 2, 4, Done) + [last], p) ==
              (if p(first) then 1 else 0) + (if p(last) then 5 else 0)
    {
      CountPush([], first, p);
      CountJoin([first], Tries(1, 2, 4, Done), p);
      CountTries(1, 2, 4, Done, p);
      CountPush([first] + Tries(1, 2, 4, Done), last, p);
    }
  }

  // One more than 4n + k get through.
  lemma LateLockLetsOneMoreThrough(d: Deployment) returns (run: seq<Step>)
    requires d.late && d.k >= 2 && d.n >= 2
    ensures Initial(BEFORE) && Legal(BEFORE, d, run)
    ensures Count(End(BEFORE, d, run).attempts, ThroughIn(2, 0, d.n)) == 4 * d.n + d.k + 1
  {
    var s := LateLockStarts(d);
    var s' := FillAndCrowd(s, d, 2, 2);
    LeadsOn(BEFORE, d, s, s');
    run :| Reaches(BEFORE, d, run, s');
  }

  // ---- Exactly when the bound holds ----

  ghost predicate Exceeds(s: State, d: Deployment, run: seq<Step>, t: Time) {
    Initial(s) && Legal(s, d, run) && Count(End(s, d, run).attempts, ThroughIn(t, 0, d.n)) > 4 * d.n + d.k
  }

  // More than 4n + k can get through in five minutes if and only if there are two
  // records or more, and locks may fail, or land late while more is in progress.
  lemma BoundFailsIff(d: Deployment)
    requires d.n > 0 && d.k > 0
    ensures (exists s, run, t :: Exceeds(s, d, run, t)) <==> d.n >= 2 && (d.fails || (d.late && d.k >= 2))
  {
    if d.n >= 2 && d.fails {
      var s, run, t := WithoutLocksTheRecordsAreAll(d);
      assert (4 + d.k) * d.n > 4 * d.n + d.k;
      assert Exceeds(s, d, run, t);
    } else if d.n >= 2 && d.late && d.k >= 2 {
      var run := LateLockLetsOneMoreThrough(d);
      assert Exceeds(BEFORE, d, run, 2);
    } else {
      forall s, run, t ensures !Exceeds(s, d, run, t) {
        if Initial(s) && Legal(s, d, run) { Holds(s, d, run, t); }
      }
    }
  }

  lemma Holds(s: State, d: Deployment, run: seq<Step>, t: Time)
    requires Initial(s) && Legal(s, d, run) && (d.n == 1 || Reliable(d)) && d.n > 0
    ensures Count(End(s, d, run).attempts, ThroughIn(t, 0, d.n)) <= 4 * d.n + d.k
  {
    if d.n == 1 {
      EachRecordHolds(s, d, run, t, 0, 1);
      CountAtMost(End(s, d, run).attempts, ThroughIn(t, 0, 1), PassedIn(t, 0, 1));
    } else {
      AtMostThisManyGetThrough(s, d, run, t, 0, d.n);
    }
  }

  // ---- A sign-in is a run of these steps ----

  // What record r and the directory hold of the name.
  ghost predicate Mirrors(s: State, r: nat, record: Option<Record>, lockouts: map<string, Time>, username: string) {
    && Lookup(s.records, r) == record
    && s.lock == if Key(username) in lockouts then lockouts[Key(username)] else NEVER
  }

  // One more attempt, and no other record changed.
  ghost predicate OneAttempt(s: State, s': State, a: Attempt) {
    && s'.now == s.now && s'.attempts == s.attempts + [a]
    && forall q: nat :: q != a.record ==> Lookup(s'.records, q) == Lookup(s.records, q)
  }

  // A sign-in refused by the record alone: an attempt that arrives and is checked.
  lemma RefusedLoginIsARun(s: State, d: Deployment, r: nat, record: Option<Record>, lockouts: map<string, Time>, username: string)
    returns (s': State)
    requires r < d.n && Count(s.attempts, Open()) < d.k
    requires Mirrors(s, r, record, lockouts, username) && !Locked(lockouts, username, s.now) && !Checked(record, s.now).1
    ensures Leads(s, d, s') && OneAttempt(s, s', Attempt(r, s.now, NEVER, TurnedAway))
    ensures Mirrors(s', r, Checked(record, s.now).0, lockouts, username)
  {
    var m := |s.attempts|;
    var s1 := After(s, d, Arrive(r));
    Takes(s, d, Arrive(r), s1);
    assert s1.attempts[m] == Attempt(r, s.now, NEVER, Arrived);
    s' := After(s1, d, Check(m));
    TakesThen(s, d, s1, Check(m), s');
  }

  // A rejected sign-in of a known account: an attempt that arrives, is checked and
  // fails, and from the fifth failure on shares the lock, which lands or does not.
  // It leaves the record and the lockouts that the limiter's `Fail` leaves.
  lemma RejectedLoginIsARun(s: State, d: Deployment, r: nat, record: Option<Record>, lockouts: map<string, Time>,
                            accounts: set<string>, username: string, lands: bool)
    returns (s': State)
    requires r < d.n && Count(s.attempts, Open()) < d.k && Key(username) in accounts && (lands || d.fails)
    requires Mirrors(s, r, record, lockouts, username) && !Locked(lockouts, username, s.now) && Checked(record, s.now).1
    ensures Leads(s, d, s') && OneAttempt(s, s', Attempt(r, s.now, s.now, Done))
    ensures var failed := Failing(record, s.now);
      Mirrors(s', r, Some(failed), if lands then AfterFailure(failed, lockouts, accounts, username, s.now) else lockouts, username)
  {
    var m := |s.attempts|;
    var s1 := Added(s, Attempt(r, s.now, s.now, Trying)).(records := SetRecord(s.records, r, Checked(Lookup(s.records, r), s.now).0));
    PassOne(s, d, r);
    var s2 := After(s1, d, Fail(m));
    TakesThen(s, d, s1, Fail(m), s2);
    if Failing(record, s.now).failures < MAX_FAILED_ATTEMPTS {
      s' := s2;
    } else {
      var s3 := After(s2, d, Share(m));
      TakesThen(s, d, s2, Share(m), s3);
      assert s3.attempts[m].stage == Locking(s.now + LOCKOUT_WINDOW);
      var step := if lands then Lock(m) else LockFails(m);
      s' := After(s3, d, step);
      TakesThen(s, d, s3, step, s');
    }
  }

  // ---- Several spellings of one name ----

  // A replica keeps one record for each spelling: with m spellings on each of n
  // replicas, replica p has the records pm to pm + m - 1. It lets (4 + k)m through
  // whatever becomes of the locks, and 4m + k, of 4mn + k in all, if they can be
  // relied on.
  lemma SpellingsMultiply(s: State, d: Deployment, n: nat, m: nat, run: seq<Step>, t: Time, p: nat)
    requires Initial(s) && d.n == m * n && Legal(s, d, run) && p < n
    ensures var attempts := End(s, d, run).attempts;
      && Count(attempts, PassedIn(t, p * m, p * m + m)) <= (4 + d.k) * m
      && (Reliable(d) ==>
            && Count(attempts, ThroughIn(t, 0, m * n)) <= 4 * (m * n) + d.k
            && Count(attempts, ThroughIn(t, p * m, p * m + m)) <= 4 * m + d.k)
  {
    Fits(p, m, n);
    EachRecordHolds(s, d, run, t, p * m, p * m + m);
    if Reliable(d) {
      AtMostThisManyGetThrough(s, d, run, t, 0, m * n);
      AtMostThisManyGetThrough(s, d, run, t, p * m, p * m + m);
    }
  }

  lemma Fits(p: nat, m: nat, n: nat)
    requires p < n
    ensures p * m + m <= m * n
  {
    assert (p + 1) * m <= n * m;
  }
}
