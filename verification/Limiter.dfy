// Failed sign-ins are counted on each replica and the lockout they lead to is
// shared (internal/auth/limiter.go, internal/auth/auth.go, internal/store/users.go).

module Limiter {
  import opened Prelude
  import opened AccessModel
  import opened Changes

  const MAX_FAILED_ATTEMPTS: nat := 5
  // Five minutes, in nanoseconds.
  const LOCKOUT_WINDOW: nat := 300_000_000_000
  const CROWDED: nat := 10_000

  datatype Record = Record(failures: nat, until: Time)

  function Lookup<K, V>(m: map<K, V>, k: K): Option<V> {
    if k in m then Some(m[k]) else None
  }

  // ---- One account on one replica ----

  predicate Elapsed(r: Record, now: Time) { now > r.until }

  // The record as `allow` leaves it, and whether another attempt may be made.
  function Checked(r: Option<Record>, now: Time): (Option<Record>, bool) {
    if r.None? || Elapsed(r.value, now) then (None, true) else (r, r.value.failures < MAX_FAILED_ATTEMPTS)
  }

  // The record after one more failure.
  function Failing(r: Option<Record>, now: Time): Record {
    Record(if r.None? || Elapsed(r.value, now) then 1 else r.value.failures + 1, now + LOCKOUT_WINDOW)
  }

  // A lockout that still holds.
  predicate Live(until: Time, now: Time) { !(until < now) }

  predicate Locked(lockouts: map<string, Time>, username: string, now: Time) {
    Key(username) in lockouts && Live(lockouts[Key(username)], now)
  }

  // Pruning and cleaning up never let anybody back in early: what is dropped
  // no longer locked anyone out.
  lemma PruningReleasesNobody(lockouts: map<string, Time>, now: Time, username: string)
    ensures Locked(Prune(lockouts, now), username, now) <==> Locked(lockouts, username, now)
    ensures forall later: Time :: now <= later ==>
      (Locked(Prune(lockouts, now), username, later) <==> Locked(lockouts, username, later))
  {
  }

  lemma CleaningReleasesNobody(r: Record, now: Time, later: Time)
    requires Elapsed(r, now) && now <= later
    ensures Checked(None, later) == Checked(Some(r), later) && Failing(None, later) == Failing(Some(r), later)
  {
  }

  // ---- What every replica sees at once ----

  class Directory {
    var lockouts: map<string, Time>
    var accounts: set<string>

    method LockedUntil(username: string, now: Instant) returns (until: Time)
      ensures until != NEVER <==> Locked(lockouts, username, now)
      ensures until != NEVER ==> until == lockouts[Key(username)]
    {
      until := if Key(username) in lockouts then lockouts[Key(username)] else NEVER;
      if until < now { until := NEVER; }
    }

    method Known(username: string) returns (known: bool)
      ensures known <==> Key(username) in accounts
    {
      known := Key(username) in accounts;
    }

    // A write may fail, with or without having been carried out.
    method LockUntil(username: string, until: Time, now: Instant, fate: Fate) returns (ok: bool)
      modifies this`lockouts
      ensures ok <==> fate.Answered?
      ensures fate.Lost? ==> lockouts == old(lockouts)
      ensures !fate.Lost? ==> lockouts == Prune(old(lockouts), now)[Key(username) := until]
    {
      if !fate.Lost? {
        lockouts := Prune(lockouts, now);
        lockouts := lockouts[Key(username) := until];
      }
      ok := fate.Answered?;
    }

    // Where there is nothing to lift, nothing is written.
    method Unlock(username: string, now: Instant, fate: Fate) returns (ok: bool)
      modifies this`lockouts
      ensures ok <==> fate.Answered? || Key(username) !in old(lockouts)
      ensures fate.Lost? || Key(username) !in old(lockouts) ==> lockouts == old(lockouts)
      ensures !fate.Lost? && Key(username) in old(lockouts) ==> lockouts == Prune(old(lockouts) - {Key(username)}, now)
    {
      if Key(username) !in lockouts { return true; }
      if !fate.Lost? { lockouts := Prune(lockouts - {Key(username)}, now); }
      ok := fate.Answered?;
    }
  }

  // ---- The limiter ----

  datatype SignIn = NotAllowed | Rejected | Accepted

  class LoginLimiter {
    var records: map<string, Record>
    // Null when the directory cannot hold lockouts.
    const shared: Directory?

    constructor (d: Directory?)
      ensures records == map[] && shared == d
    {
      records, shared := map[], d;
    }

    ghost predicate SharedLock(username: string, now: Time) reads shared {
      shared != null && Locked(shared.lockouts, username, now)
    }

    // Failures are remembered until their window has gone by.
    ghost predicate Remembers(username: string, now: Time) reads this {
      username in records && now <= records[username].until
    }

    // Whether another attempt may be made: no live lockout anywhere, and fewer
    // than five failures here since the last quiet window.
    method Allow(username: string, now: Instant) returns (ok: bool)
      modifies this`records
      ensures ok <==> !SharedLock(username, now) && Checked(Lookup(old(records), username), now).1
      ensures ok <==> !SharedLock(username, now) && !old(Remembers(username, now) && records[username].failures >= 5)
      ensures ok ==> (username in records <==> old(Remembers(username, now)))
      ensures Lookup(records, username) ==
        if SharedLock(username, now) then Lookup(old(records), username) else Checked(Lookup(old(records), username), now).0
      ensures forall o :: o != username ==> Lookup(records, o) == Lookup(old(records), o)
      ensures !ok ==> records == old(records)
    {
      if shared != null {
        var until := shared.LockedUntil(username, now);
        if until != NEVER { return false; }
      }
      if username !in records { return true; }
      if now > records[username].until {
        records := records - {username};
        return true;
      }
      ok := records[username].failures < MAX_FAILED_ATTEMPTS;
    }

    // A failure counted here, and where there are many records the elapsed ones dropped;
    // the fifth locks the account everywhere if the write is carried out, and it is
    // logged exactly if no answer says it was.
    method Fail(username: string, now: Instant, fate: Fate) returns (logged: bool)
      modifies this`records, shared
      ensures Lookup(records, username) == Some(Failing(Lookup(old(records), username), now))
      ensures forall o :: o != username && o in old(records) && !Elapsed(old(records)[o], now) ==> Lookup(records, o) == Lookup(old(records), o)
      ensures forall o :: o != username && o in records ==> Lookup(records, o) == Lookup(old(records), o)
      ensures |records| > 10_000 ==> forall o :: o in records ==> !Elapsed(records[o], now)
      ensures shared != null ==> shared.accounts == old(shared.accounts)
      ensures shared != null ==> shared.lockouts == if fate.Lost? then old(shared.lockouts) else
        AfterFailure(Failing(Lookup(old(records), username), now), old(shared.lockouts), shared.accounts, username, now)
      ensures var tries := records[username].failures >= 5 && old(LocksOut(username, now));
        && (logged <==> tries && !fate.Answered?)
        && (tries && !fate.Lost? ==> LeavesOthers(old(shared.lockouts), shared.lockouts, username, now)
                                     && shared.lockouts[Key(username)] == now + LOCKOUT_WINDOW)
        && (shared != null && (!tries || fate.Lost?) ==> shared.lockouts == old(shared.lockouts))
    {
      logged := false;
      if username !in records || now > records[username].until {
        records := records[username := Record(0, NEVER)];
      }
      var failures := records[username].failures + 1;
      records := records[username := Record(failures, now + LOCKOUT_WINDOW)];
      var reached := failures >= MAX_FAILED_ATTEMPTS;
      if |records| > CROWDED { CleanUp(now); }
      if reached { logged := Share(username, now, fate); }
    }

    // Only what has elapsed is dropped.
    method CleanUp(now: Instant)
      modifies this`records
      ensures records == map k | k in old(records) && !Elapsed(old(records)[k], now) :: old(records)[k]
    {
      var todo := records.Keys;
      while todo != {}
        invariant todo <= old(records).Keys
        invariant records == map k | k in old(records) && (k in todo || !Elapsed(old(records)[k], now)) :: old(records)[k]
        decreases |todo|
      {
        var k :| k in todo;
        todo := todo - {k};
        if now > records[k].until { records := records - {k}; }
      }
    }

    // A failure of this account is to be shared: it exists and is not locked yet.
    ghost predicate LocksOut(username: string, now: Time) reads this, shared {
      shared != null && Key(username) in shared.accounts && !Locked(shared.lockouts, username, now)
    }

    method Share(username: string, now: Instant, fate: Fate) returns (logged: bool)
      modifies shared
      ensures shared != null ==> shared.accounts == old(shared.accounts)
      ensures shared != null ==> shared.lockouts == if fate.Lost? then old(shared.lockouts) else
        SharedAfter(old(shared.lockouts), shared.accounts, username, now)
      ensures logged <==> old(LocksOut(username, now)) && !fate.Answered?
    {
      if shared == null { return false; }
      var known := shared.Known(username);
      if !known { return false; }
      var until := shared.LockedUntil(username, now);
      if until != NEVER { return false; }
      var ok := shared.LockUntil(username, now + LOCKOUT_WINDOW, now, fate);
      return !ok;
    }

    // A lockout that still holds is lifted by signing in, if the write is carried out.
    method Reset(username: string, now: Instant, fate: Fate) returns (logged: bool)
      modifies this`records, shared
      ensures records == old(records) - {username}
      ensures shared != null ==> shared.accounts == old(shared.accounts)
      ensures shared != null ==> shared.lockouts == if fate.Lost? then old(shared.lockouts) else
        AfterSuccess(old(shared.lockouts), username, now)
      ensures var tries := old(SharedLock(username, now));
        && (logged <==> tries && !fate.Answered?)
        && (tries && !fate.Lost? ==> LeavesOthers(old(shared.lockouts), shared.lockouts, username, now)
                                     && Key(username) !in shared.lockouts)
        && (shared != null && (!tries || fate.Lost?) ==> shared.lockouts == old(shared.lockouts))
    {
      records := records - {username};
      logged := false;
      if shared != null {
        var until := shared.LockedUntil(username, now);
        if until != NEVER {
          var ok := shared.Unlock(username, now, fate);
          logged := !ok;
        }
      }
    }

    // One sign-in: refused before the password is looked at, or counted.
    method Login(username: string, breakGlass: bool, verified: bool, now: Instant, fate: Fate)
      returns (answer: SignIn, logged: bool)
      modifies this`records, shared
      ensures answer.NotAllowed? <==> old(SharedLock(username, now)) || old(Remembers(username, now) && records[username].failures >= 5)
      ensures !answer.NotAllowed? ==> (answer.Accepted? <==> breakGlass || verified)
      ensures shared != null ==> shared.accounts == old(shared.accounts)
      ensures answer.NotAllowed? ==> records == old(records) && !logged
      ensures answer.Accepted? ==> username !in records && !SharedLock(username, now) && !logged
      ensures !answer.Rejected? && shared != null ==> shared.lockouts == old(shared.lockouts)
      ensures answer.Rejected? ==>
        var before := old(if Remembers(username, now) then records[username].failures else 0);
        Lookup(records, username) == Some(Record(before + 1, now + LOCKOUT_WINDOW))
      ensures answer.Rejected? ==>
        var tries := records[username].failures >= 5 && shared != null && Key(username) in shared.accounts;
        && (logged <==> tries && !fate.Answered?)
        && (tries && !fate.Lost? ==> forall t :: now <= t <= now + LOCKOUT_WINDOW ==> SharedLock(username, t))
        && (shared != null && (!tries || fate.Lost?) ==> shared.lockouts == old(shared.lockouts))
    {
      logged := false;
      var allowed := Allow(username, now);
      if !allowed {
        answer := NotAllowed;
      } else if breakGlass || verified {
        logged := Reset(username, now, fate);
        answer := Accepted;
      } else {
        logged := Fail(username, now, fate);
        answer := Rejected;
      }
    }
  }

  // Nothing is done to the other lockouts but that the elapsed ones are dropped.
  ghost predicate LeavesOthers(before: map<string, Time>, after: map<string, Time>, username: string, now: Time) {
    forall k | k != Key(username) ::
      && (k in after <==> k in before && before[k] >= now)
      && (k in after ==> after[k] == before[k])
  }

  // The lockouts once this one has been shared.
  function SharedAfter(lockouts: map<string, Time>, accounts: set<string>, username: string, now: Time): map<string, Time> {
    if Key(username) !in accounts || Locked(lockouts, username, now) then lockouts
    else Prune(lockouts, now)[Key(username) := now + LOCKOUT_WINDOW]
  }

  // A lockout is shared once enough failures have been counted,
  function AfterFailure(r: Record, lockouts: map<string, Time>, accounts: set<string>, username: string, now: Time): map<string, Time> {
    if r.failures >= MAX_FAILED_ATTEMPTS then SharedAfter(lockouts, accounts, username, now) else lockouts
  }

  // and lifted by signing in.
  function AfterSuccess(lockouts: map<string, Time>, username: string, now: Time): map<string, Time> {
    if Locked(lockouts, username, now) then Prune(lockouts - {Key(username)}, now) else lockouts
  }

  // What the limiter does to the lockouts is what the store does to its own.
  lemma LockoutsAreTheStores(m: Model, accounts: set<string>, username: string, now: Instant)
    requires Key(username) in accounts
    ensures !Locked(m.lockouts, username, now) ==>
      SharedAfter(m.lockouts, accounts, username, now) == Apply(LockUntil(username, now + LOCKOUT_WINDOW), now, m).model.lockouts
    ensures Locked(m.lockouts, username, now) ==>
      AfterSuccess(m.lockouts, username, now) == Apply(Unlock(username), now, m).model.lockouts
  {
  }
}
