/** The login protocol of auth/handlers.go at lock granularity. Each critical section of a
    handler is an event of its own, computed by the function that the method of that name
    in LoginStore is proved against; sections of other requests and of the sweepers go
    in between. */
module LoginSections {
  import opened Common
  import Lockout
  import ReplayCache
  import Sessions

  /** Where a request stands between two critical sections. */
  datatype Stage =
    | Checked(user: string)
    | Peeked(user: string, challenge: string)
    | Cleared(user: string, challenge: string)
    | Rejected(user: string)
    | Accepted(user: string, challenge: string)
    | Consumed(user: string, challenge: string)
    | Unblocked(user: string, challenge: string)

  datatype State = State(challenges: Sessions.Table, lockouts: Lockout.Table, used: ReplayCache.Used, pending: map<nat, Stage>)

  const EMPTY := State(map[], map[], map[], map[])

  /** `valid` is the answer of the one-time-password algorithm, `token` the random
      challenge; a wrong password and a missing secret are events of their own. */
  datatype Event =
    | CheckLogin(call: nat, user: string, at: int)
    | PassLogin(call: nat, token: string, at: int)
    | Peek(call: nat, challenge: string, at: int)
    | CheckVerify(call: nat, at: int)
    | NoSecret(call: nat, at: int)
    | TryCode(call: nat, code: string, valid: bool, at: int)
    | Fail(call: nat, at: int)
    | Consume(call: nat, at: int)
    | Unblock(call: nat, at: int)
    | Open(call: nat, at: int)
    | SweepChallenges(at: int)
    | SweepLockouts(at: int)
    | SweepCodes(at: int)
  {
    predicate IsSweep() { SweepChallenges? || SweepLockouts? || SweepCodes? }
  }

  // ---- one critical section ----------------------------------------------

  function CheckLoginStep(s: State, call: nat, user: string, at: int): State {
    if call in s.pending then s
    else
      var (lockouts, locked) := Lockout.IsLockedOut(s.lockouts, user, at);
      if locked then s.(lockouts := lockouts) else s.(lockouts := lockouts, pending := s.pending[call := Checked(user)])
  }

  function PeekStep(s: State, call: nat, id: string, at: int): State {
    if call in s.pending then s
    else
      var (challenges, user) := Sessions.Lookup(s.challenges, id, at);
      if user.None? then s.(challenges := challenges)
      else s.(challenges := challenges, pending := s.pending[call := Peeked(user.value, id)])
  }

  function CheckVerifyStep(s: State, call: nat, at: int): State {
    if !Is(s, call, Peeking) then s
    else
      var p := s.pending[call];
      var (lockouts, locked) := Lockout.IsLockedOut(s.lockouts, p.user, at);
      s.(lockouts := lockouts,
         pending := if locked then s.pending - {call} else s.pending[call := Cleared(p.user, p.challenge)])
  }

  function TryCodeStep(s: State, call: nat, code: string, valid: bool, at: int): State {
    if !Is(s, call, Clearing) then s
    else
      var p := s.pending[call];
      var (used, accepted) := ReplayCache.ValidateTOTP(s.used, p.user, code, valid, at);
      s.(used := used, pending := s.pending[call := if accepted then Accepted(p.user, p.challenge) else Rejected(p.user)])
  }

  datatype Kind = Checking | Peeking | Clearing | Failing | Accepting | Consuming | Unblocking

  /** The call waits for this section. */
  predicate Is(s: State, call: nat, kind: Kind)
    ensures Is(s, call, kind) ==> call in s.pending
  {
    && call in s.pending
    && match kind
       case Checking => s.pending[call].Checked?
       case Peeking => s.pending[call].Peeked?
       case Clearing => s.pending[call].Cleared?
       case Failing => s.pending[call].Checked? || s.pending[call].Rejected?
       case Accepting => s.pending[call].Accepted?
       case Consuming => s.pending[call].Consumed?
       case Unblocking => s.pending[call].Unblocked?
  }

  /** An event that does not fit the call's stage changes nothing. */
  function Step(s: State, e: Event): State {
    match e
    case CheckLogin(call, user, at) => CheckLoginStep(s, call, user, at)
    case PassLogin(call, token, at) =>
      if !Is(s, call, Checking) then s
      else s.(challenges := Sessions.Insert(s.challenges, token, s.pending[call].user, at + Sessions.CHALLENGE_TTL),
              pending := s.pending - {call})
    case Peek(call, id, at) => PeekStep(s, call, id, at)
    case CheckVerify(call, at) => CheckVerifyStep(s, call, at)
    case NoSecret(call, _) => if Is(s, call, Clearing) then s.(pending := s.pending - {call}) else s
    case TryCode(call, code, valid, at) => TryCodeStep(s, call, code, valid, at)
    case Fail(call, at) =>
      if !Is(s, call, Failing) then s
      else s.(lockouts := Lockout.RecordFailure(s.lockouts, s.pending[call].user, at), pending := s.pending - {call})
    case Consume(call, _) =>
      if !Is(s, call, Accepting) then s
      else s.(challenges := Sessions.Remove(s.challenges, s.pending[call].challenge),
              pending := s.pending[call := Consumed(s.pending[call].user, s.pending[call].challenge)])
    case Unblock(call, _) =>
      if !Is(s, call, Consuming) then s
      else s.(lockouts := Lockout.ClearFailures(s.lockouts, s.pending[call].user),
              pending := s.pending[call := Unblocked(s.pending[call].user, s.pending[call].challenge)])
    case Open(call, _) => if Is(s, call, Unblocking) then s.(pending := s.pending - {call}) else s
    case SweepChallenges(at) => s.(challenges := Sessions.Swept(s.challenges, at))
    case SweepLockouts(at) => s.(lockouts := Lockout.Swept(s.lockouts, at))
    case SweepCodes(at) => s.(used := ReplayCache.Swept(s.used, at))
  }

  function Run(s: State, evs: seq<Event>): State
    decreases |evs|
  {
    if evs == [] then s else Run(Step(s, evs[0]), evs[1..])
  }

  /** Sections see a clock that never runs backwards; a sweep may carry a reading taken
      before it waited for its lock. */
  predicate Clocked(evs: seq<Event>) {
    forall i, j :: 0 <= i < j < |evs| && !evs[j].IsSweep() ==> evs[i].at <= evs[j].at
  }

  // ---- failures ----------------------------------------------------------

  predicate FailsFor(s: State, e: Event, user: string) {
    e.Fail? && Is(s, e.call, Failing) && s.pending[e.call].user == user
  }

  /** The failure is recorded for an account that is locked already. */
  predicate Late(s: State, e: Event, user: string) {
    FailsFor(s, e, user) && Lockout.Locked(s.lockouts, user)
  }

  predicate Unblocks(s: State, e: Event, user: string) {
    e.Unblock? && Is(s, e.call, Consuming) && s.pending[e.call].user == user
  }

  predicate PastCheck(p: Stage, user: string) {
    (p.Checked? || p.Cleared? || p.Rejected?) && p.user == user
  }

  /** The requests past their lock check that may still record a failure. */
  function MayFail(s: State, user: string): set<nat> {
    set c | c in s.pending && PastCheck(s.pending[c], user)
  }

  /** The failure locks the account. */
  predicate Locks(s: State, e: Event, user: string) {
    FailsFor(s, e, user) && !Lockout.Locked(s.lockouts, user) && Lockout.Locked(Step(s, e).lockouts, user)
  }

  /** The other requests past their check when the account is locked. */
  function HeldCount(s: State, e: Event, user: string): nat {
    if Locks(s, e, user) then |MayFail(s, user) - {e.call}| else 0
  }

  function Failures(s: State, evs: seq<Event>, user: string): nat
    decreases |evs|
  {
    if evs == [] then 0 else (if FailsFor(s, evs[0], user) then 1 else 0) + Failures(Step(s, evs[0]), evs[1..], user)
  }

  function LateFailures(s: State, evs: seq<Event>, user: string): nat
    decreases |evs|
  {
    if evs == [] then 0 else (if Late(s, evs[0], user) then 1 else 0) + LateFailures(Step(s, evs[0]), evs[1..], user)
  }

  function HeldIn(s: State, evs: seq<Event>, user: string): nat
    decreases |evs|
  {
    if evs == [] then 0 else HeldCount(s, evs[0], user) + HeldIn(Step(s, evs[0]), evs[1..], user)
  }

  /** Nobody's login resets the user's count. */
  predicate NoLogin(s: State, evs: seq<Event>, user: string)
    decreases |evs|
  {
    evs == [] || (!Unblocks(s, evs[0], user) && NoLogin(Step(s, evs[0]), evs[1..], user))
  }

  lemma {:induction false} RunSplits(s: State, a: seq<Event>, b: seq<Event>, user: string)
    ensures Run(s, a + b) == Run(Run(s, a), b)
    ensures Failures(s, a + b, user) == Failures(s, a, user) + Failures(Run(s, a), b, user)
    ensures LateFailures(s, a + b, user) == LateFailures(s, a, user) + LateFailures(Run(s, a), b, user)
    ensures HeldIn(s, a + b, user) == HeldIn(s, a, user) + HeldIn(Run(s, a), b, user)
    decreases |a|
  {
    hide Step, FailsFor, Late, HeldCount;
    if a == [] {
      assert a + b == b;
    } else {
      assert (a + b)[1..] == a[1..] + b;
      RunSplits(Step(s, a[0]), a[1..], b, user);
    }
  }

  // ---- late failures were held -------------------------------------------

  /** While the account is locked: the requests that slipped past the check before. */
  ghost function Loose(s: State, user: string): set<nat> {
    if Lockout.Locked(s.lockouts, user) then MayFail(s, user) else {}
  }

  lemma {:induction false} Smaller(a: set<nat>, b: set<nat>)
    requires a <= b
    ensures |a| <= |b|
    decreases |a|
  {
    if a != {} {
      var x :| x in a;
      Smaller(a - {x}, b - {x});
    }
  }

  /** Only a failure locks an account, and only an unlocked account lets requests past. */
  lemma OthersKeepLoose(s: State, e: Event, user: string)
    requires !FailsFor(s, e, user)
    ensures Loose(Step(s, e), user) <= Loose(s, user)
  {
    hide ReplayCache.ValidateTOTP, ReplayCache.Swept, Sessions.Lookup, Sessions.Swept;
  }

  lemma FailureLoosens(s: State, e: Event, user: string)
    requires FailsFor(s, e, user)
    ensures Late(s, e, user) ==> Loose(Step(s, e), user) <= Loose(s, user) - {e.call} && e.call in Loose(s, user)
    ensures !Late(s, e, user) ==> Loose(Step(s, e), user) <= if Locks(s, e, user) then MayFail(s, user) - {e.call} else {}
  {
  }

  lemma LateStep(s: State, e: Event, user: string)
    ensures |Loose(Step(s, e), user)| + (if Late(s, e, user) then 1 else 0) <= |Loose(s, user)| + HeldCount(s, e, user)
  {
    hide Step, Loose, Is, Locks, MayFail;
    var after := Loose(Step(s, e), user);
    if FailsFor(s, e, user) {
      FailureLoosens(s, e, user);
      if Late(s, e, user) {
        Smaller(after, Loose(s, user) - {e.call});
      } else {
        Smaller(after, if Locks(s, e, user) then MayFail(s, user) - {e.call} else {});
      }
    } else {
      OthersKeepLoose(s, e, user);
      Smaller(after, Loose(s, user));
    }
  }

  /** LATE FAILURES WERE HELD. Failures recorded on a locked account are at most the
      requests that were past their check when it was locked. */
  lemma {:induction false} LateWereHeld(s: State, evs: seq<Event>, user: string)
    ensures LateFailures(s, evs, user) + |Loose(Run(s, evs), user)| <= |Loose(s, user)| + HeldIn(s, evs, user)
    decreases |evs|
  {
    hide Step, Late, HeldCount, Loose;
    if evs != [] {
      LateStep(s, evs[0], user);
      LateWereHeld(Step(s, evs[0]), evs[1..], user);
    }
  }

  // ---- the budget --------------------------------------------------------

  /** One section's effect on the failure budget of a user who does not log in. */
  lemma StepBudget(s: State, e: Event, user: string, n: nat, start: int, now: int)
    requires start <= now && Lockout.Budgeted(s.lockouts, user, n, start, now) && !Unblocks(s, e, user)
    requires if e.IsSweep() then e.at <= now else e.at == now
    ensures Lockout.Budgeted(Step(s, e).lockouts, user, if FailsFor(s, e, user) && !Late(s, e, user) then n + 1 else n, start, now)
  {
    hide Lockout.Budgeted, Lockout.IsLockedOut, Lockout.RecordFailure, Lockout.ClearFailures, Lockout.Swept, Lockout.Locked,
         Sessions.Lookup, ReplayCache.ValidateTOTP;
    match e
    case CheckLogin(_, who, _) => Lockout.BudgetedCheck(s.lockouts, user, n, start, now, who);
    case CheckVerify(call, _) =>
      if Is(s, call, Peeking) {
        Lockout.BudgetedCheck(s.lockouts, user, n, start, now, s.pending[call].user);
      }
    case Fail(call, _) =>
      if Is(s, call, Failing) {
        Lockout.BudgetedRecord(s.lockouts, user, n, start, now, s.pending[call].user);
      }
    case Unblock(call, _) =>
      if Is(s, call, Consuming) {
        Lockout.BudgetedClear(s.lockouts, user, n, start, now, s.pending[call].user);
      }
    case SweepLockouts(at) => Lockout.BudgetedSweep(s.lockouts, user, n, start, now, at);
    case _ =>
  }

  lemma StepWellFormed(s: State, e: Event, now: int)
    requires Lockout.WellFormed(s.lockouts, now) && if e.IsSweep() then e.at <= now else e.at == now
    ensures Lockout.WellFormed(Step(s, e).lockouts, now)
  {
    hide Lockout.WellFormed, Lockout.IsLockedOut, Lockout.RecordFailure, Lockout.ClearFailures, Lockout.Swept,
         Sessions.Lookup, ReplayCache.ValidateTOTP;
    match e
    case CheckLogin(_, who, _) => Lockout.WellFormedSteps(s.lockouts, now, who);
    case SweepLockouts(at) => Lockout.WellFormedSwept(s.lockouts, now, at);
    case CheckVerify(call, _) =>
      if call in s.pending {
        Lockout.WellFormedSteps(s.lockouts, now, s.pending[call].user);
      }
    case Fail(call, _) =>
      if call in s.pending {
        Lockout.WellFormedSteps(s.lockouts, now, s.pending[call].user);
      }
    case Unblock(call, _) =>
      if call in s.pending {
        Lockout.WellFormedSteps(s.lockouts, now, s.pending[call].user);
      }
    case _ =>
  }

  /** Events in order, from `now` on and up to `end`. */
  ghost predicate Schedule(evs: seq<Event>, now: int, end: int)
    decreases |evs|
  {
    || evs == []
    || (evs[0].at <= end && (evs[0].IsSweep() || now <= evs[0].at) && Schedule(evs[1..], Later(now, evs[0].at), end))
  }

  lemma {:induction false} ClockedSchedule(evs: seq<Event>, now: int, end: int)
    requires Clocked(evs) && forall i :: 0 <= i < |evs| ==> evs[i].at <= end && (evs[i].IsSweep() || now <= evs[i].at)
    ensures Schedule(evs, now, end)
    decreases |evs|
  {
    if evs != [] {
      assert forall i :: 0 <= i < |evs| - 1 ==> evs[1..][i] == evs[i + 1];
      ClockedSchedule(evs[1..], Later(now, evs[0].at), end);
    }
  }

  /** A time no later than every event. */
  ghost function Earliest(evs: seq<Event>, t: int): (r: int)
    ensures r <= t && forall i :: 0 <= i < |evs| ==> r <= evs[i].at
  {
    if evs == [] then t
    else
      var r := Earliest(evs[1..], t);
      assert forall i :: 1 <= i < |evs| ==> evs[i] == evs[1..][i - 1];
      if evs[0].at < r then evs[0].at else r
  }

  lemma {:induction false} RunWellFormed(s: State, evs: seq<Event>, now: int, end: int)
    requires Lockout.WellFormed(s.lockouts, now) && Schedule(evs, now, end) && now <= end
    ensures Lockout.WellFormed(Run(s, evs).lockouts, end)
    decreases |evs|
  {
    hide Lockout.WellFormed, Step;
    if evs == [] {
      Lockout.WellFormedLater(s.lockouts, now, end);
    } else {
      var next := Later(now, evs[0].at);
      Lockout.WellFormedLater(s.lockouts, now, next);
      StepWellFormed(s, evs[0], next);
      RunWellFormed(Step(s, evs[0]), evs[1..], next, end);
    }
  }

  lemma {:induction false} RunBudget(s: State, evs: seq<Event>, user: string, n: nat, start: int, now: int, end: int)
    requires start <= now <= end && Lockout.Budgeted(s.lockouts, user, n, start, now)
    requires Schedule(evs, now, end) && NoLogin(s, evs, user)
    ensures n + Failures(s, evs, user) <= 5 * ((end - start) / Lockout.LOCKOUT_DURATION + 1) + LateFailures(s, evs, user)
    decreases |evs|
  {
    hide Lockout.Budgeted, Step, FailsFor, Late, Unblocks;
    if evs == [] {
      Lockout.BudgetedLater(s.lockouts, user, n, start, now, end);
      Lockout.BudgetMeaning(s.lockouts, user, n, start, end);
    } else {
      var later := Later(now, evs[0].at);
      Lockout.BudgetedLater(s.lockouts, user, n, start, now, later);
      StepBudget(s, evs[0], user, n, start, later);
      LateFails(s, evs[0], user);
      RunBudget(Step(s, evs[0]), evs[1..], user, if FailsFor(s, evs[0], user) && !Late(s, evs[0], user) then n + 1 else n, start, later, end);
    }
  }

  lemma LateFails(s: State, e: Event, user: string)
    ensures Late(s, e, user) ==> FailsFor(s, e, user)
  {
  }

  // ---- the bound with races ----------------------------------------------

  /** A stretch of a run without a login of the user, from `start` to `end`. */
  ghost predicate Window(before: seq<Event>, window: seq<Event>, user: string, start: int, end: int) {
    && Clocked(before + window) && start <= end && NoLogin(Run(EMPTY, before), window, user)
    && (forall i :: 0 <= i < |before| ==> before[i].at <= start)
    && (forall i :: 0 <= i < |window| ==> window[i].at <= end && (window[i].IsSweep() || start <= window[i].at))
  }

  lemma Halves(before: seq<Event>, window: seq<Event>)
    requires Clocked(before + window)
    ensures Clocked(before) && Clocked(window)
  {
    var evs := before + window;
    assert forall i :: 0 <= i < |before| ==> evs[i] == before[i];
    assert forall i :: 0 <= i < |window| ==> evs[|before| + i] == window[i];
  }

  /** THE LOCKOUT BOUND WITH OVERLAPPING REQUESTS. In T at most five failures per fifteen
      minutes begun are recorded, and besides at most one for every request that was past
      its lock check when the account was locked. */
  lemma LockoutBound(before: seq<Event>, window: seq<Event>, user: string, start: int, end: int)
    requires Window(before, window, user, start, end)
    ensures Failures(Run(EMPTY, before), window, user)
         <= 5 * ((end - start) / (15 * MINUTE) + 1) + LateFailures(Run(EMPTY, before), window, user)
    ensures LateFailures(Run(EMPTY, before), window, user) <= HeldIn(EMPTY, before + window, user)
  {
    hide Lockout.Budgeted, Lockout.WellFormed, Run, Clocked, Schedule, Failures, LateFailures, HeldIn, NoLogin, Loose;
    var s := Run(EMPTY, before);
    Halves(before, window);
    var first := Earliest(before, start);
    ClockedSchedule(before, first, start);
    NothingYet(first, user);
    RunWellFormed(EMPTY, before, first, start);
    Lockout.BudgetedStart(s.lockouts, user, start);
    ClockedSchedule(window, start, end);
    RunBudget(s, window, user, 0, start, start, end);
    RunSplits(EMPTY, before, window, user);
    LateWereHeld(EMPTY, before + window, user);
  }

  lemma NothingYet(now: int, user: string)
    ensures Lockout.WellFormed(EMPTY.lockouts, now) && Loose(EMPTY, user) == {}
  {
  }
}
