/** The lockout table of auth/lockout.go: five failures lock an account for
    fifteen minutes, after which counting starts again. */
module Lockout {
  import opened Common

  datatype Entry = Entry(failures: nat, lockedAt: Option<int>)

  type Table = map<string, Entry>

  const MAX_FAILED_ATTEMPTS := 5
  const LOCKOUT_DURATION := 15 * MINUTE

  predicate Expired(e: Entry, now: int) {
    e.lockedAt.Some? && now - e.lockedAt.value >= LOCKOUT_DURATION
  }

  /** The check also drops a lock that has run out. */
  function IsLockedOut(t: Table, user: string, now: int): (Table, bool) {
    if user !in t then (t, false)
    else if t[user].lockedAt.Some? && now - t[user].lockedAt.value < LOCKOUT_DURATION then (t, true)
    else if t[user].lockedAt.Some? then (t - {user}, false)
    else (t, false)
  }

  function RecordFailure(t: Table, user: string, now: int): Table {
    var failures := (if user in t then t[user].failures else 0) + 1;
    var kept := if user in t then t[user].lockedAt else None;
    t[user := Entry(failures, if failures >= MAX_FAILED_ATTEMPTS then Some(now) else kept)]
  }

  function ClearFailures(t: Table, user: string): Table {
    t - {user}
  }

  function Swept(t: Table, now: int): Table {
    map user | user in t && !Expired(t[user], now) :: t[user]
  }

  // ---- what a sweep can change -------------------------------------------

  /** The entries that still matter at `now`. */
  ghost function Current(t: Table, now: int): Table {
    Swept(t, now)
  }

  /** Sweeping first, at any earlier reading, changes nothing a later check or
      a check-then-record sees. */
  lemma SweepInvisible(t: Table, sweepAt: int, now: int)
    requires sweepAt <= now
    ensures Current(Swept(t, sweepAt), now) == Current(t, now)
  {
  }

  lemma CurrentLater(t: Table, u: Table, now: int, later: int)
    requires Current(t, now) == Current(u, now) && now <= later
    ensures Current(t, later) == Current(u, later)
  {
    assert Current(Current(t, now), later) == Current(t, later);
    assert Current(Current(u, now), later) == Current(u, later);
  }

  lemma CheckSeesCurrent(t: Table, user: string, now: int)
    ensures IsLockedOut(t, user, now).1 == IsLockedOut(Current(t, now), user, now).1
    ensures Current(IsLockedOut(t, user, now).0, now) == Current(t, now)
    ensures !IsLockedOut(t, user, now).1 ==>
              var t' := IsLockedOut(t, user, now).0;
              (user in t' <==> user in Current(t, now)) && (user in t' ==> t'[user] == Current(t, now)[user])
  {
  }

  // ---- the bound on recorded failures ------------------------------------

  /** Five failures for every fifteen minutes begun since `start`, counting what
      the entry says now. `n` failures have been recorded since `start`. */
  ghost predicate Budgeted(t: Table, user: string, n: nat, start: int, now: int)
    requires start <= now
  {
    var full := (now - start) / LOCKOUT_DURATION;
    && (user !in t ==> n <= 5 * full)
    && (user in t ==>
         var e := t[user];
         && (e.lockedAt.None? ==> e.failures < MAX_FAILED_ATTEMPTS && n <= 5 * full + e.failures)
         && (e.lockedAt.Some? ==>
              && e.failures >= MAX_FAILED_ATTEMPTS && e.lockedAt.value <= now
              && (n == 0 || (start <= e.lockedAt.value
                             && n <= 5 * ((e.lockedAt.value - start) / LOCKOUT_DURATION) + 5))))
  }

  /** Entries only ever have these shapes. */
  ghost predicate WellFormed(t: Table, now: int) {
    forall user :: user in t ==>
      if t[user].lockedAt.None? then t[user].failures < MAX_FAILED_ATTEMPTS
      else t[user].failures >= MAX_FAILED_ATTEMPTS && t[user].lockedAt.value <= now
  }

  lemma BudgetedStart(t: Table, user: string, now: int)
    requires WellFormed(t, now)
    ensures Budgeted(t, user, 0, now, now)
  {
  }

  lemma BudgetedLater(t: Table, user: string, n: nat, start: int, now: int, later: int)
    requires start <= now <= later && Budgeted(t, user, n, start, now)
    ensures Budgeted(t, user, n, start, later)
  {
  }

  lemma BudgetedCheck(t: Table, user: string, n: nat, start: int, now: int, who: string)
    requires start <= now && Budgeted(t, user, n, start, now)
    ensures Budgeted(IsLockedOut(t, who, now).0, user, n, start, now)
  {
    if who == user && user in t && Expired(t[user], now) && n > 0 {
      WindowPassed(t[user].lockedAt.value, start, now);
    }
  }

  lemma WindowPassed(lockedAt: int, start: int, now: int)
    requires start <= lockedAt && now - lockedAt >= LOCKOUT_DURATION
    ensures (now - start) / LOCKOUT_DURATION >= (lockedAt - start) / LOCKOUT_DURATION + 1
  {
  }

  lemma BudgetedSweep(t: Table, user: string, n: nat, start: int, now: int, sweepAt: int)
    requires start <= now && sweepAt <= now && Budgeted(t, user, n, start, now)
    ensures Budgeted(Swept(t, sweepAt), user, n, start, now)
  {
    if user in t && Expired(t[user], sweepAt) && n > 0 {
      WindowPassed(t[user].lockedAt.value, start, now);
    }
  }

  predicate Locked(t: Table, user: string) {
    user in t && t[user].lockedAt.Some?
  }

  /** A failure recorded on a locked entry only moves the lock forward. */
  lemma BudgetedRecord(t: Table, user: string, n: nat, start: int, now: int, who: string)
    requires start <= now && Budgeted(t, user, n, start, now)
    ensures Budgeted(RecordFailure(t, who, now), user, if who == user && !Locked(t, user) then n + 1 else n, start, now)
  {
    if who == user && Locked(t, user) && n > 0 {
      WindowsGrow(t[user].lockedAt.value, start, now);
    }
  }

  lemma WindowsGrow(earlier: int, start: int, now: int)
    requires start <= earlier <= now
    ensures (earlier - start) / LOCKOUT_DURATION <= (now - start) / LOCKOUT_DURATION
  {
  }

  lemma BudgetedClear(t: Table, user: string, n: nat, start: int, now: int, who: string)
    requires start <= now && Budgeted(t, user, n, start, now) && who != user
    ensures Budgeted(ClearFailures(t, who), user, n, start, now)
  {
  }

  /** A failure is recorded only after the check let it through. */
  lemma BudgetedFailure(t: Table, user: string, n: nat, start: int, now: int, who: string)
    requires start <= now && Budgeted(t, user, n, start, now)
    requires !IsLockedOut(t, who, now).1
    ensures Budgeted(RecordFailure(IsLockedOut(t, who, now).0, who, now), user,
                     if who == user then n + 1 else n, start, now)
  {
    BudgetedCheck(t, user, n, start, now, who);
    BudgetedRecord(IsLockedOut(t, who, now).0, user, n, start, now, who);
  }

  lemma WellFormedSteps(t: Table, now: int, who: string)
    requires WellFormed(t, now)
    ensures WellFormed(IsLockedOut(t, who, now).0, now) && WellFormed(ClearFailures(t, who), now)
    ensures WellFormed(RecordFailure(t, who, now), now)
    ensures WellFormed(RecordFailure(IsLockedOut(t, who, now).0, who, now), now)
  {
  }

  lemma WellFormedSwept(t: Table, now: int, sweepAt: int)
    requires WellFormed(t, now)
    ensures WellFormed(Swept(t, sweepAt), now)
  {
  }

  lemma WellFormedLater(t: Table, now: int, later: int)
    requires now <= later && (WellFormed(t, now) || t == map[])
    ensures WellFormed(t, later)
  {
  }

  lemma BudgetMeaning(t: Table, user: string, n: nat, start: int, now: int)
    requires start <= now && Budgeted(t, user, n, start, now)
    ensures n <= 5 * ((now - start) / LOCKOUT_DURATION + 1)
  {
  }
}
