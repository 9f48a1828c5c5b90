// How many failed sign-ins N replicas let through together.
//
// The machine below is one known account that nobody signs in to successfully,
// the records kept of it, and one lock that everybody sees as soon as it is set.
// A record is one replica's of one spelling of the name; with a single spelling
// there are as many records as replicas. An attempt is several steps, with
// anything in between: it reads the lock, checks and later updates its record,
// and if that was the fifth failure looks at the lock again, reads the clock for
// when a lock is to end, and sets it. Setting it may take a while, may put an
// earlier end over a later one, and may fail.
//
// Without counting on the lock, at most 4 + K attempts get past the check of one
// record in any window of five minutes, where K are in progress at most. If locks
// never fail, and are set at the instant their end was read or attempts do not
// overlap, it is 4N + K together; and otherwise more, for two records or more.

module Lockout {
  import opened Prelude
  import opened AccessModel
  import opened Limiter

  // Locking says when the lock is to end.
  datatype Stage = Arrived | TurnedAway | Trying | Sharing | Locking(until: Time) | Done

  // checked is when it was let past the record, if it was.
  datatype Attempt = Attempt(record: nat, start: Time, checked: Time, stage: Stage)

  datatype State = State(now: Instant, lock: Time, records: map<nat, Record>, attempts: seq<Attempt>)

  // n records and at most k attempts in progress. Locks may land late, or fail.
  datatype Deployment = Deployment(n: nat, k: nat, late: bool, fails: bool)

  datatype Step =
    | Tick(span: nat)
    | Arrive(r: nat)        // one that sees a live lock is turned away, and nothing changes
    | Check(i: nat)
    | Fail(i: nat)
    | Share(i: nat)
    | Lock(i: nat)
    | LockFails(i: nat)     // logged, and no lock is set
    | Prune
    | CleanUp(r: nat)

  // ---- Counting attempts ----

  function Count(attempts: seq<Attempt>, p: Attempt -> bool): nat {
    if attempts == [] then 0
    else Count(attempts[..|attempts| - 1], p) + if p(attempts[|attempts| - 1]) then 1 else 0
  }

  predicate InProgress(a: Attempt) { !a.stage.TurnedAway? && !a.stage.Done? }

  // Past the check of its record, so that the password is looked at.
  predicate Past(a: Attempt) { !a.stage.Arrived? && !a.stage.TurnedAway? }

  // Its failure has been counted.
  predicate Counted(a: Attempt) { a.stage.Sharing? || a.stage.Locking? || a.stage.Done? }

  ghost function Open(): Attempt -> bool { (a: Attempt) => InProgress(a) }

  // Let past between t and five minutes later, by the records lo to hi - 1.
  ghost function PassedIn(t: Time, lo: nat, hi: nat): Attempt -> bool {
    (a: Attempt) => Past(a) && t <= a.checked <= t + LOCKOUT_WINDOW && lo <= a.record < hi
  }

  ghost function PassedAt(t: Time, r: nat): Attempt -> bool {
    (a: Attempt) => Past(a) && t <= a.checked <= t + LOCKOUT_WINDOW && a.record == r
  }

  // Of those, the ones whose failure has been counted.
  ghost function CountedAt(t: Time, r: nat): Attempt -> bool {
    (a: Attempt) => Counted(a) && t <= a.checked <= t + LOCKOUT_WINDOW && a.record == r
  }

  // Begun between t and five minutes later:
  predicate Within(a: Attempt, t: Time) { t <= a.start <= t + LOCKOUT_WINDOW }

  ghost function Begun(t: Time): Attempt -> bool { (a: Attempt) => Within(a, t) }

  // those not turned away, be it that they have yet to be checked,
  ghost function LetIn(t: Time, lo: nat, hi: nat): Attempt -> bool {
    (a: Attempt) => Within(a, t) && !a.stage.TurnedAway? && lo <= a.record < hi
  }

  // those whose failure has been counted,
  ghost function FailedAt(t: Time, r: nat): Attempt -> bool { (a: Attempt) => Within(a, t) && Counted(a) && a.record == r }

  // and those that are over.
  ghost function OverAt(t: Time, r: nat): Attempt -> bool { (a: Attempt) => Within(a, t) && a.stage.Done? && a.record == r }

  ghost function OverIn(t: Time, lo: nat, hi: nat): Attempt -> bool {
    (a: Attempt) => Within(a, t) && a.stage.Done? && lo <= a.record < hi
  }

  // ---- The steps ----

  ghost predicate Enabled(s: State, d: Deployment, step: Step) {
    match step
    case Arrive(r) => r < d.n && !Live(s.lock, s.now) && Count(s.attempts, Open()) < d.k
    case Check(i) => i < |s.attempts| && s.attempts[i].stage.Arrived?
    case Fail(i) => i < |s.attempts| && s.attempts[i].stage.Trying?
    case Share(i) => i < |s.attempts| && s.attempts[i].stage.Sharing?
    case Lock(i) => i < |s.attempts| && s.attempts[i].stage.Locking?
                    && (d.late || s.attempts[i].stage.until == s.now + LOCKOUT_WINDOW)
    case LockFails(i) => i < |s.attempts| && s.attempts[i].stage.Locking? && d.fails
    case CleanUp(r) => r in s.records && Elapsed(s.records[r], s.now)
    case _ => true
  }

  function Moved(s: State, i: nat, stage: Stage): State
    requires i < |s.attempts|
  {
    s.(attempts := s.attempts[i := s.attempts[i].(stage := stage)])
  }

  function SetRecord(records: map<nat, Record>, r: nat, record: Option<Record>): map<nat, Record> {
    if record.Some? then records[r := record.value] else records - {r}
  }

  ghost function After(s: State, d: Deployment, step: Step): State
    requires Enabled(s, d, step)
  {
    match step
    case Tick(span) => s.(now := s.now + span)
    case Arrive(r) => s.(attempts := s.attempts + [Attempt(r, s.now, NEVER, Arrived)])
    case Check(i) =>
      var a := s.attempts[i];
      var (record, ok) := Checked(Lookup(s.records, a.record), s.now);
      s.(attempts := s.attempts[i := if ok then a.(stage := Trying, checked := s.now) else a.(stage := TurnedAway)],
         records := SetRecord(s.records, a.record, record))
    case Fail(i) =>
      var r := s.attempts[i].record;
      var record := Failing(Lookup(s.records, r), s.now);
      Moved(s, i, if record.failures >= MAX_FAILED_ATTEMPTS then Sharing else Done).(records := s.records[r := record])
    case Share(i) => Moved(s, i, if Live(s.lock, s.now) then Done else Locking(s.now + LOCKOUT_WINDOW))
    case Lock(i) => Moved(s, i, Done).(lock := s.attempts[i].stage.until)
    case LockFails(i) => Moved(s, i, Done)
    case Prune => if Live(s.lock, s.now) then s else s.(lock := NEVER)
    case CleanUp(r) => s.(records := s.records - {r})
  }

  // ---- Counting, step by step ----

  lemma {:induction false} CountUpdate(attempts: seq<Attempt>, i: nat, a: Attempt, p: Attempt -> bool)
    requires i < |attempts|
    ensures Count(attempts[i := a], p) == Count(attempts, p) - (if p(attempts[i]) then 1 else 0) + (if p(a) then 1 else 0)
  {
    var n := |attempts| - 1;
    if i == n {
      assert attempts[i := a][..n] == attempts[..n];
    } else {
      assert attempts[i := a][..n] == attempts[..n][i := a];
      CountUpdate(attempts[..n], i, a, p);
    }
  }

  lemma CountPush(attempts: seq<Attempt>, a: Attempt, p: Attempt -> bool)
    ensures Count(attempts + [a], p) == Count(attempts, p) + if p(a) then 1 else 0
  {
    assert (attempts + [a])[..|attempts|] == attempts;
  }

  lemma {:induction false} CountSplits(attempts: seq<Attempt>, p: Attempt -> bool, q: Attempt -> bool, r: Attempt -> bool)
    requires forall a :: p(a) ==> q(a) || r(a)
    ensures Count(attempts, p) <= Count(attempts, q) + Count(attempts, r)
  {
    if attempts != [] { CountSplits(attempts[..|attempts| - 1], p, q, r); }
  }

  lemma {:induction false} OverByRecord(attempts: seq<Attempt>, t: Time, lo: nat, hi: nat)
    requires lo <= hi && forall r: nat :: lo <= r < hi ==> Count(attempts, OverAt(t, r)) <= 4
    ensures Count(attempts, OverIn(t, lo, hi)) <= 4 * (hi - lo)
    decreases hi
  {
    if lo == hi {
      CountNone(attempts, OverIn(t, lo, hi));
    } else {
      OverByRecord(attempts, t, lo, hi - 1);
      CountSplits(attempts, OverIn(t, lo, hi), OverIn(t, lo, hi - 1), OverAt(t, hi - 1));
    }
  }

  lemma {:induction false} CountNone(attempts: seq<Attempt>, p: Attempt -> bool)
    requires forall a :: !p(a)
    ensures Count(attempts, p) == 0
  {
    if attempts != [] { CountNone(attempts[..|attempts| - 1], p); }
  }

  lemma {:induction false} CountSame(attempts: seq<Attempt>, p: Attempt -> bool, q: Attempt -> bool)
    requires forall i :: 0 <= i < |attempts| ==> p(attempts[i]) == q(attempts[i])
    ensures Count(attempts, p) == Count(attempts, q)
  {
    if attempts != [] { CountSame(attempts[..|attempts| - 1], p, q); }
  }

  lemma {:induction false} CountAtMost(attempts: seq<Attempt>, p: Attempt -> bool, q: Attempt -> bool)
    requires forall a :: p(a) ==> q(a)
    ensures Count(attempts, p) <= Count(attempts, q)
  {
    if attempts != [] { CountAtMost(attempts[..|attempts| - 1], p, q); }
  }

  lemma {:induction false} CountFinds(attempts: seq<Attempt>, p: Attempt -> bool)
    ensures Count(attempts, p) >= 1 <==> exists i :: 0 <= i < |attempts| && p(attempts[i])
  {
    if attempts != [] {
      var n := |attempts| - 1;
      CountFinds(attempts[..n], p);
      if Count(attempts[..n], p) >= 1 {
        var i :| 0 <= i < n && p(attempts[..n][i]);
        assert p(attempts[i]);
      }
    }
  }

  // ---- What every step keeps ----

  predicate InOrder(a: Attempt, now: Time) {
    && a.start <= now && a.checked <= now && (Past(a) ==> a.start <= a.checked)
    && (a.stage.Locking? ==> a.start + LOCKOUT_WINDOW <= a.stage.until)
  }

  ghost predicate Sound(s: State, d: Deployment) {
    && (forall i :: 0 <= i < |s.attempts| ==> s.attempts[i].record < d.n && InOrder(s.attempts[i], s.now))
    && Count(s.attempts, Open()) <= d.k
  }

  lemma StepSound(s: State, d: Deployment, step: Step)
    requires Sound(s, d) && Enabled(s, d, step)
    ensures Sound(After(s, d, step), d)
  {
    var s' := After(s, d, step);
    if step.Arrive? {
      CountPush(s.attempts, s'.attempts[|s.attempts|], Open());
    } else if s'.attempts != s.attempts {
      CountUpdate(s.attempts, step.i, s'.attempts[step.i], Open());
    }
  }

  // ---- One record, whatever becomes of the lock ----

  // While the window lasts, the record has not lapsed since the first failure of
  // an attempt let past in it.
  ghost predicate Remembered(s: State, t: Time, r: nat) {
    Count(s.attempts, CountedAt(t, r)) >= 1 ==>
      && r in s.records && s.records[r].failures >= Count(s.attempts, CountedAt(t, r))
      && s.records[r].until >= t + LOCKOUT_WINDOW
  }

  ghost predicate RecordInv(s: State, d: Deployment, t: Time, r: nat) {
    && Sound(s, d) && Count(s.attempts, PassedAt(t, r)) <= 4 + d.k
    && (s.now <= t + LOCKOUT_WINDOW ==> Remembered(s, t, r))
  }

  lemma StepKeepsRecord(s: State, d: Deployment, t: Time, r: nat, step: Step)
    requires RecordInv(s, d, t, r) && Enabled(s, d, step)
    ensures RecordInv(After(s, d, step), d, t, r)
  {
    StepSound(s, d, step);
    match step
    case Arrive(q) =>
      CountPush(s.attempts, Attempt(q, s.now, NEVER, Arrived), PassedAt(t, r));
      CountPush(s.attempts, Attempt(q, s.now, NEVER, Arrived), CountedAt(t, r));
    case Check(i) => CheckKeepsRecord(s, d, t, r, i);
    case Fail(i) => FailKeepsRecord(s, d, t, r, i);
    case Share(i) => MovedKeepsRecord(s, d, t, r, i, After(s, d, step).attempts[i].stage);
    case Lock(i) => MovedKeepsRecord(s, d, t, r, i, Done);
    case LockFails(i) => MovedKeepsRecord(s, d, t, r, i, Done);
    case _ =>
  }

  lemma MovedKeepsRecord(s: State, d: Deployment, t: Time, r: nat, i: nat, stage: Stage)
    requires RecordInv(s, d, t, r) && i < |s.attempts| && Counted(s.attempts[i])
    requires stage.Locking? || stage.Done?
    ensures Count(Moved(s, i, stage).attempts, PassedAt(t, r)) == Count(s.attempts, PassedAt(t, r))
    ensures Count(Moved(s, i, stage).attempts, CountedAt(t, r)) == Count(s.attempts, CountedAt(t, r))
  {
    CountUpdate(s.attempts, i, s.attempts[i].(stage := stage), PassedAt(t, r));
    CountUpdate(s.attempts, i, s.attempts[i].(stage := stage), CountedAt(t, r));
  }

  // One more is let past only while the record shows fewer than five failures:
  // the others are still in progress.
  lemma CheckKeepsRecord(s: State, d: Deployment, t: Time, r: nat, i: nat)
    requires RecordInv(s, d, t, r) && Enabled(s, d, Check(i)) && Sound(After(s, d, Check(i)), d)
    ensures RecordInv(After(s, d, Check(i)), d, t, r)
  {
    var s' := After(s, d, Check(i));
    CountUpdate(s.attempts, i, s'.attempts[i], PassedAt(t, r));
    CountUpdate(s.attempts, i, s'.attempts[i], CountedAt(t, r));
    CountSplits(s'.attempts, PassedAt(t, r), CountedAt(t, r), Open());
  }

  lemma FailKeepsRecord(s: State, d: Deployment, t: Time, r: nat, i: nat)
    requires RecordInv(s, d, t, r) && Enabled(s, d, Fail(i)) && Sound(After(s, d, Fail(i)), d)
    ensures RecordInv(After(s, d, Fail(i)), d, t, r)
  {
    var s' := After(s, d, Fail(i));
    CountUpdate(s.attempts, i, s'.attempts[i], PassedAt(t, r));
    CountUpdate(s.attempts, i, s'.attempts[i], CountedAt(t, r));
    if Count(s'.attempts, CountedAt(t, r)) >= 1 { CountedBy(s', d, t, r); }
  }

  lemma CountedBy(s: State, d: Deployment, t: Time, r: nat)
    requires Sound(s, d) && Count(s.attempts, CountedAt(t, r)) >= 1
    ensures t <= s.now
  {
    CountFinds(s.attempts, CountedAt(t, r));
    var i :| 0 <= i < |s.attempts| && CountedAt(t, r)(s.attempts[i]);
  }

  // ---- All records, where locks can be relied on ----

  // Locks never fail, and land at the instant their end was read, or else while
  // nothing else is in progress.
  predicate Reliable(d: Deployment) { !d.fails && (!d.late || d.k <= 1) }

  // The lock outlasts the window that starts at t.
  predicate Outlasts(lock: Time, t: Time) { lock >= t + LOCKOUT_WINDOW }

  // While the window lasts, a record has not lapsed since its first failure in it,
  // and five attempts that are over mean the lock outlasts it.
  ghost predicate Kept(s: State, t: Time, r: nat) {
    && (Count(s.attempts, FailedAt(t, r)) >= 1 ==>
          && r in s.records && s.records[r].failures >= Count(s.attempts, FailedAt(t, r))
          && s.records[r].until >= t + LOCKOUT_WINDOW)
    && (Count(s.attempts, OverAt(t, r)) > 4 ==> Outlasts(s.lock, t))
  }

  // No attempt begins in the window under a lock that then ends in it.
  ghost predicate LockKept(s: State, t: Time) {
    Count(s.attempts, Begun(t)) >= 1 ==> !Live(s.lock, s.now) || Outlasts(s.lock, t)
  }

  // One at a time: while an attempt from before the window is in progress, none
  // has begun in it.
  ghost predicate Alone(s: State, t: Time) {
    forall i :: 0 <= i < |s.attempts| && InProgress(s.attempts[i]) && s.attempts[i].start < t ==> Count(s.attempts, Begun(t)) == 0
  }

  ghost predicate Bounded(s: State, d: Deployment, t: Time) {
    forall lo: nat, hi: nat :: lo <= hi <= d.n ==> Count(s.attempts, LetIn(t, lo, hi)) <= 4 * (hi - lo) + d.k
  }

  ghost predicate Inv(s: State, d: Deployment, t: Time) {
    && Sound(s, d) && Bounded(s, d, t) && (d.late ==> Alone(s, t))
    && (s.now <= t + LOCKOUT_WINDOW ==> LockKept(s, t) && forall r: nat :: r < d.n ==> Kept(s, t, r))
  }

  // ---- Attempts that move on ----

  // Attempt i as a: further on, and not begun at another time.
  ghost predicate MovesOn(s: State, i: nat, a: Attempt) {
    i < |s.attempts| && InProgress(s.attempts[i]) && !a.stage.Arrived?
    && a.record == s.attempts[i].record && a.start == s.attempts[i].start
  }

  lemma MovedBounded(s: State, d: Deployment, t: Time, i: nat, a: Attempt, s': State)
    requires MovesOn(s, i, a) && s'.attempts == s.attempts[i := a] && Bounded(s, d, t)
    ensures Bounded(s', d, t) && Count(s'.attempts, Begun(t)) == Count(s.attempts, Begun(t))
    ensures Alone(s, t) ==> Alone(s', t)
  {
    CountUpdate(s.attempts, i, a, Begun(t));
    forall lo: nat, hi: nat | lo <= hi <= d.n ensures Count(s'.attempts, LetIn(t, lo, hi)) <= 4 * (hi - lo) + d.k {
      CountUpdate(s.attempts, i, a, LetIn(t, lo, hi));
    }
  }

  lemma MovedCounts(s: State, i: nat, a: Attempt, s': State, t: Time, r: nat)
    requires MovesOn(s, i, a) && s'.attempts == s.attempts[i := a]
    ensures var mine := Within(a, t) && a.record == r;
      && Count(s'.attempts, FailedAt(t, r)) == Count(s.attempts, FailedAt(t, r))
           + (if mine && Counted(a) && !Counted(s.attempts[i]) then 1 else 0)
           - (if mine && !Counted(a) && Counted(s.attempts[i]) then 1 else 0)
      && Count(s'.attempts, OverAt(t, r)) == Count(s.attempts, OverAt(t, r)) + (if mine && a.stage.Done? then 1 else 0)
  {
    CountUpdate(s.attempts, i, a, FailedAt(t, r));
    CountUpdate(s.attempts, i, a, OverAt(t, r));
  }

  lemma BegunBy(s: State, d: Deployment, t: Time)
    requires Sound(s, d) && Count(s.attempts, Begun(t)) >= 1
    ensures t <= s.now
  {
    CountFinds(s.attempts, Begun(t));
    var i :| 0 <= i < |s.attempts| && Begun(t)(s.attempts[i]);
  }

  lemma OverIsFailed(attempts: seq<Attempt>, t: Time, r: nat)
    ensures Count(attempts, OverAt(t, r)) <= Count(attempts, FailedAt(t, r)) <= Count(attempts, Begun(t))
  {
    CountAtMost(attempts, OverAt(t, r), FailedAt(t, r));
    CountAtMost(attempts, FailedAt(t, r), Begun(t));
  }

  // ---- Step by step ----

  lemma CheckKeeps(s: State, d: Deployment, t: Time, i: nat)
    requires Inv(s, d, t) && Enabled(s, d, Check(i))
    ensures Inv(After(s, d, Check(i)), d, t)
  {
    var s' := After(s, d, Check(i));
    StepSound(s, d, Check(i));
    MovedBounded(s, d, t, i, s'.attempts[i], s');
    if s.now <= t + LOCKOUT_WINDOW {
      forall r: nat | r < d.n ensures Kept(s', t, r) {
        assert Kept(s, t, r);
        MovedCounts(s, i, s'.attempts[i], s', t, r);
      }
    }
  }

  lemma FailKeeps(s: State, d: Deployment, t: Time, i: nat)
    requires Inv(s, d, t) && Enabled(s, d, Fail(i))
    ensures Inv(After(s, d, Fail(i)), d, t)
  {
    var s' := After(s, d, Fail(i));
    StepSound(s, d, Fail(i));
    MovedBounded(s, d, t, i, s'.attempts[i], s');
    if s.now <= t + LOCKOUT_WINDOW {
      forall r: nat | r < d.n ensures Kept(s', t, r) { FailKept(s, d, t, i, r); }
    }
  }

  lemma FailKept(s: State, d: Deployment, t: Time, i: nat, r: nat)
    requires Inv(s, d, t) && Enabled(s, d, Fail(i)) && r < d.n && s.now <= t + LOCKOUT_WINDOW
    ensures Kept(After(s, d, Fail(i)), t, r)
  {
    var s' := After(s, d, Fail(i));
    assert Kept(s, t, r);
    MovedCounts(s, i, s'.attempts[i], s', t, r);
    OverIsFailed(s.attempts, t, r);
    OverIsFailed(s'.attempts, t, r);
    if Count(s.attempts, FailedAt(t, r)) >= 1 { BegunBy(s, d, t); }
  }

  lemma ShareKeeps(s: State, d: Deployment, t: Time, i: nat)
    requires Inv(s, d, t) && Enabled(s, d, Share(i))
    ensures Inv(After(s, d, Share(i)), d, t)
  {
    var s' := After(s, d, Share(i));
    StepSound(s, d, Share(i));
    MovedBounded(s, d, t, i, s'.attempts[i], s');
    CountFinds(s.attempts, Begun(t));
    if s.now <= t + LOCKOUT_WINDOW {
      forall r: nat | r < d.n ensures Kept(s', t, r) {
        assert Kept(s, t, r);
        MovedCounts(s, i, s'.attempts[i], s', t, r);
        if Within(s.attempts[i], t) { assert Begun(t)(s.attempts[i]); }
      }
    }
  }

  // The lock that lands outlasts the window, unless nothing has begun in it.
  lemma LockOutlasts(s: State, d: Deployment, t: Time, i: nat)
    requires Inv(s, d, t) && Reliable(d) && Enabled(s, d, Lock(i)) && s.now <= t + LOCKOUT_WINDOW
    ensures Count(s.attempts, Begun(t)) >= 1 ==> Outlasts(s.attempts[i].stage.until, t)
    ensures Within(s.attempts[i], t) ==> Outlasts(s.attempts[i].stage.until, t)
  {
    if Count(s.attempts, Begun(t)) >= 1 { BegunBy(s, d, t); }
  }

  lemma LockKeeps(s: State, d: Deployment, t: Time, i: nat)
    requires Inv(s, d, t) && Reliable(d) && Enabled(s, d, Lock(i))
    ensures Inv(After(s, d, Lock(i)), d, t)
  {
    var s' := After(s, d, Lock(i));
    StepSound(s, d, Lock(i));
    MovedBounded(s, d, t, i, s'.attempts[i], s');
    if s.now <= t + LOCKOUT_WINDOW {
      LockOutlasts(s, d, t, i);
      forall r: nat | r < d.n ensures Kept(s', t, r) {
        assert Kept(s, t, r);
        MovedCounts(s, i, s'.attempts[i], s', t, r);
        OverIsFailed(s'.attempts, t, r);
      }
    }
  }

  // Time passes, an elapsed lock or record is dropped.
  lemma QuietKeeps(s: State, d: Deployment, t: Time, step: Step)
    requires Inv(s, d, t) && Enabled(s, d, step) && (step.Tick? || step.Prune? || step.CleanUp?)
    ensures Inv(After(s, d, step), d, t)
  {
    var s' := After(s, d, step);
    StepSound(s, d, step);
    if s'.now <= t + LOCKOUT_WINDOW {
      forall r: nat | r < d.n ensures Kept(s', t, r) { assert Kept(s, t, r); }
    }
  }

  lemma ArriveKeeps(s: State, d: Deployment, t: Time, q: nat)
    requires Inv(s, d, t) && Reliable(d) && Enabled(s, d, Arrive(q))
    ensures Inv(After(s, d, Arrive(q)), d, t)
  {
    var s' := After(s, d, Arrive(q));
    var a := Attempt(q, s.now, NEVER, Arrived);
    StepSound(s, d, Arrive(q));
    if Within(a, t) { ArriveBounded(s, d, t, q); } else { ArriveOutside(s, d, t, q); }
    if d.late { ArriveAlone(s, d, t, q); }
    if s.now <= t + LOCKOUT_WINDOW {
      forall r: nat | r < d.n ensures Kept(s', t, r) {
        assert Kept(s, t, r);
        CountPush(s.attempts, a, FailedAt(t, r));
        CountPush(s.attempts, a, OverAt(t, r));
      }
    }
  }

  // With one attempt at a time, what arrives finds none in progress.
  lemma ArriveAlone(s: State, d: Deployment, t: Time, q: nat)
    requires Sound(s, d) && Alone(s, t) && d.k <= 1 && Enabled(s, d, Arrive(q))
    ensures Alone(After(s, d, Arrive(q)), t)
  {
    var a := Attempt(q, s.now, NEVER, Arrived);
    CountPush(s.attempts, a, Begun(t));
    CountFinds(s.attempts, Open());
    forall i | 0 <= i < |s.attempts| ensures !InProgress(s.attempts[i]) {
      assert !Open()(s.attempts[i]);
    }
    if s.now < t && Count(s.attempts, Begun(t)) >= 1 { BegunBy(s, d, t); }
  }

  lemma ArriveOutside(s: State, d: Deployment, t: Time, q: nat)
    requires Inv(s, d, t) && Enabled(s, d, Arrive(q)) && !Within(Attempt(q, s.now, NEVER, Arrived), t)
    ensures Bounded(After(s, d, Arrive(q)), d, t)
  {
    var a := Attempt(q, s.now, NEVER, Arrived);
    forall lo: nat, hi: nat | lo <= hi <= d.n ensures Count(s.attempts + [a], LetIn(t, lo, hi)) <= 4 * (hi - lo) + d.k {
      CountPush(s.attempts, a, LetIn(t, lo, hi));
    }
  }

  // One more is let in only while no record has seen five over.
  lemma ArriveBounded(s: State, d: Deployment, t: Time, q: nat)
    requires Inv(s, d, t) && Enabled(s, d, Arrive(q)) && Within(Attempt(q, s.now, NEVER, Arrived), t)
    ensures Bounded(After(s, d, Arrive(q)), d, t)
  {
    var s' := After(s, d, Arrive(q));
    var a := Attempt(q, s.now, NEVER, Arrived);
    assert !Outlasts(s.lock, t);
    CountPush(s.attempts, a, Open());
    forall r: nat | r < d.n ensures Count(s'.attempts, OverAt(t, r)) <= 4 {
      assert Kept(s, t, r);
      CountPush(s.attempts, a, OverAt(t, r));
    }
    forall lo: nat, hi: nat | lo <= hi <= d.n ensures Count(s'.attempts, LetIn(t, lo, hi)) <= 4 * (hi - lo) + d.k {
      OverByRecord(s'.attempts, t, lo, hi);
      CountSplits(s'.attempts, LetIn(t, lo, hi), OverIn(t, lo, hi), Open());
    }
  }

  lemma StepKeeps(s: State, d: Deployment, t: Time, step: Step)
    requires Inv(s, d, t) && Reliable(d) && Enabled(s, d, step)
    ensures Inv(After(s, d, step), d, t)
  {
    match step
    case Arrive(r) => ArriveKeeps(s, d, t, r);
    case Check(i) => CheckKeeps(s, d, t, i);
    case Fail(i) => FailKeeps(s, d, t, i);
    case Share(i) => ShareKeeps(s, d, t, i);
    case Lock(i) => LockKeeps(s, d, t, i);
    case LockFails(i) =>
    case _ => QuietKeeps(s, d, t, step);
  }
}
