/** The login protocol of auth/handlers.go over the tables of auth/lockout.go,
    auth/totp.go and auth/session.go. Each handler is one step with one clock
    reading; sweepers run between steps. */
module Login {
  import opened Common
  import Lockout
  import ReplayCache
  import Sessions

  datatype State = State(
    challenges: Sessions.Table,
    sessions: Sessions.Table,
    lockouts: Lockout.Table,
    used: ReplayCache.Used)

  const EMPTY := State(map[], map[], map[], map[])

  /** `passwordOk`, `hasSecret` and `valid` are the answers of the password hash,
      the secret store and the one-time-password algorithm; `token` is the random
      token drawn by the step. */
  datatype Request =
    | Login(user: string, passwordOk: bool, token: string, at: int)
    | Verify(challenge: string, code: string, hasSecret: bool, valid: bool, token: string, at: int)
    | Logout(session: string, at: int)
    | Validate(session: string, at: int)
    | SweepSessions(at: int)
    | SweepLockouts(at: int)
    | SweepCodes(at: int)
  {
    predicate IsSweep() { SweepSessions? || SweepLockouts? || SweepCodes? }
  }

  datatype Reply =
    | Locked
    | BadCredentials(user: string)
    | Challenge(user: string, token: string)
    | NoChallenge
    | NoSecret
    | BadCode(user: string)
    | LoggedIn(user: string, token: string)
    | LoggedOut
    | Who(session: Option<string>)
    | Swept

  function LoginStep(s: State, user: string, passwordOk: bool, token: string, now: int): (State, Reply) {
    var (lockouts, locked) := Lockout.IsLockedOut(s.lockouts, user, now);
    var s := s.(lockouts := lockouts);
    if locked then (s, Locked)
    else if !passwordOk then
      (s.(lockouts := Lockout.RecordFailure(lockouts, user, now)), BadCredentials(user))
    else
      (s.(challenges := Sessions.Insert(s.challenges, token, user, now + Sessions.CHALLENGE_TTL)), Challenge(user, token))
  }

  function VerifyStep(s: State, id: string, code: string, hasSecret: bool, valid: bool, token: string, now: int, ttl: int): (State, Reply) {
    var (challenges, peeked) := Sessions.Lookup(s.challenges, id, now);
    var s := s.(challenges := challenges);
    if peeked.None? then (s, NoChallenge)
    else ChallengedStep(s, id, peeked.value, code, hasSecret, valid, token, now, ttl)
  }

  /** A verification once its challenge has named the user. */
  function ChallengedStep(s: State, id: string, user: string, code: string, hasSecret: bool, valid: bool, token: string, now: int, ttl: int): (State, Reply) {
    var (lockouts, locked) := Lockout.IsLockedOut(s.lockouts, user, now);
    var s := s.(lockouts := lockouts);
    if locked then (s, Locked)
    else if !hasSecret then (s, NoSecret)
    else CodeStep(s, id, user, code, valid, token, now, ttl)
  }

  /** And once the account is known not to be locked: check the code, then
      consume the challenge and open a session. */
  function CodeStep(s: State, id: string, user: string, code: string, valid: bool, token: string, now: int, ttl: int): (State, Reply) {
    var (used, accepted) := ReplayCache.ValidateTOTP(s.used, user, code, valid, now);
    var s := s.(used := used);
    if !accepted then
      (s.(lockouts := Lockout.RecordFailure(s.lockouts, user, now)), BadCode(user))
    else
      (s.(challenges := Sessions.Remove(s.challenges, id),
          lockouts := Lockout.ClearFailures(s.lockouts, user),
          sessions := Sessions.Insert(s.sessions, token, user, now + ttl)),
       LoggedIn(user, token))
  }

  function Step(s: State, r: Request, ttl: int): (State, Reply) {
    match r
    case Login(user, passwordOk, token, at) => LoginStep(s, user, passwordOk, token, at)
    case Verify(id, code, hasSecret, valid, token, at) => VerifyStep(s, id, code, hasSecret, valid, token, at, ttl)
    case Logout(session, at) => (s.(sessions := Sessions.Remove(s.sessions, session)), LoggedOut)
    case Validate(session, at) =>
      var (sessions, who) := Sessions.Lookup(s.sessions, session, at);
      (s.(sessions := sessions), Who(who))
    case SweepSessions(at) =>
      (s.(challenges := Sessions.Swept(s.challenges, at), sessions := Sessions.Swept(s.sessions, at)), Swept)
    case SweepLockouts(at) => (s.(lockouts := Lockout.Swept(s.lockouts, at)), Swept)
    case SweepCodes(at) => (s.(used := ReplayCache.Swept(s.used, at)), Swept)
  }

  // ---- runs --------------------------------------------------------------

  /** A run from the empty state under a session lifetime. */
  datatype Run = Run(reqs: seq<Request>, ttl: int)

  function StateAt(r: Run, n: nat): State
    requires n <= |r.reqs|
  {
    if n == 0 then EMPTY else Step(StateAt(r, n - 1), r.reqs[n - 1], r.ttl).0
  }

  function ReplyAt(r: Run, n: nat): Reply
    requires n < |r.reqs|
  {
    Step(StateAt(r, n), r.reqs[n], r.ttl).1
  }

  /** The latest clock reading among the first `n` requests. */
  function NowAt(r: Run, n: nat): (now: int)
    requires 0 < n <= |r.reqs|
  {
    if n == 1 then r.reqs[0].at else Later(NowAt(r, n - 1), r.reqs[n - 1].at)
  }

  /** Handlers see a clock that never runs backwards; a sweep may carry a reading
      taken before it waited for its lock. */
  ghost predicate Clocked(r: Run) {
    && r.ttl >= 0
    && forall i, j :: 0 <= i < j < |r.reqs| && !r.reqs[j].IsSweep() ==> r.reqs[i].at <= r.reqs[j].at
  }

  lemma {:induction false} NowBefore(r: Run, n: nat, t: int)
    requires 0 < n <= |r.reqs|
    requires forall i :: 0 <= i < n ==> r.reqs[i].at <= t
    ensures NowAt(r, n) <= t
  {
    if n > 1 {
      NowBefore(r, n - 1, t);
    }
  }

  // ---- sweeps are invisible ----------------------------------------------

  /** The same run in a gateway whose sweepers never do anything. */
  function UnsweptStateAt(r: Run, n: nat): State
    requires n <= |r.reqs|
  {
    if n == 0 then EMPTY
    else if r.reqs[n - 1].IsSweep() then UnsweptStateAt(r, n - 1)
    else Step(UnsweptStateAt(r, n - 1), r.reqs[n - 1], r.ttl).0
  }

  /** Nothing that matters from `now` on differs. */
  ghost predicate Same(s: State, u: State, now: int) {
    && Sessions.Current(s.challenges, now) == Sessions.Current(u.challenges, now)
    && Sessions.Current(s.sessions, now) == Sessions.Current(u.sessions, now)
    && Lockout.Current(s.lockouts, now) == Lockout.Current(u.lockouts, now)
    && ReplayCache.Current(s.used, now) == ReplayCache.Current(u.used, now)
  }

  lemma SameLater(s: State, u: State, now: int, later: int)
    requires Same(s, u, now) && now <= later
    ensures Same(s, u, later)
  {
    hide Sessions.Current, Lockout.Current, ReplayCache.Current;
    Sessions.CurrentLater(s.challenges, u.challenges, now, later);
    Sessions.CurrentLater(s.sessions, u.sessions, now, later);
    Lockout.CurrentLater(s.lockouts, u.lockouts, now, later);
    ReplayCache.CurrentLater(s.used, u.used, now, later);
  }

  lemma SweepSame(s: State, u: State, r: Request, ttl: int, now: int)
    requires r.IsSweep() && r.at <= now && Same(s, u, now)
    ensures Same(Step(s, r, ttl).0, u, now)
  {
    hide Sessions.Current, Lockout.Current, ReplayCache.Current, Sessions.Swept, Lockout.Swept, ReplayCache.Swept;
    Sessions.SweepInvisible(s.challenges, r.at, now);
    Sessions.SweepInvisible(s.sessions, r.at, now);
    Lockout.SweepInvisible(s.lockouts, r.at, now);
    ReplayCache.SweepInvisible(s.used, r.at, now);
  }

  /** The lock check and a failure recorded after it see only current entries. */
  lemma LockSame(t: Lockout.Table, u: Lockout.Table, user: string, now: int)
    requires Lockout.Current(t, now) == Lockout.Current(u, now)
    ensures var (t', a) := Lockout.IsLockedOut(t, user, now);
            var (u', b) := Lockout.IsLockedOut(u, user, now);
            && a == b
            && Lockout.Current(t', now) == Lockout.Current(u', now)
            && (!a ==> Lockout.Current(Lockout.RecordFailure(t', user, now), now) == Lockout.Current(Lockout.RecordFailure(u', user, now), now))
            && Lockout.Current(Lockout.ClearFailures(t', user), now) == Lockout.Current(Lockout.ClearFailures(u', user), now)
  {
    Lockout.CheckSeesCurrent(t, user, now);
    Lockout.CheckSeesCurrent(u, user, now);
    var (t', a) := Lockout.IsLockedOut(t, user, now);
    var (u', _) := Lockout.IsLockedOut(u, user, now);
    assert Lockout.Current(Lockout.ClearFailures(t', user), now) == Lockout.Current(t', now) - {user};
    assert Lockout.Current(Lockout.ClearFailures(u', user), now) == Lockout.Current(u', now) - {user};
    if !a {
      RecordSame(t', u', user, now);
    }
  }

  lemma RecordSame(t: Lockout.Table, u: Lockout.Table, user: string, now: int)
    requires Lockout.Current(t, now) == Lockout.Current(u, now)
    requires user in t <==> user in Lockout.Current(t, now)
    requires user in u <==> user in Lockout.Current(u, now)
    ensures Lockout.Current(Lockout.RecordFailure(t, user, now), now)
         == Lockout.Current(Lockout.RecordFailure(u, user, now), now)
  {
    assert user in t <==> user in u;
    if user in t {
      assert t[user] == Lockout.Current(t, now)[user] == u[user];
    }
    var e := Lockout.RecordFailure(t, user, now)[user];
    assert e == Lockout.RecordFailure(u, user, now)[user];
    assert !Lockout.Expired(e, now);
    assert Lockout.Current(t[user := e], now) == Lockout.Current(t, now)[user := e];
    assert Lockout.Current(u[user := e], now) == Lockout.Current(u, now)[user := e];
  }

  lemma SessionsSame(t: Sessions.Table, u: Sessions.Table, id: string, user: string, expires: int, now: int)
    requires Sessions.Current(t, now) == Sessions.Current(u, now)
    ensures Sessions.Lookup(t, id, now).1 == Sessions.Lookup(u, id, now).1
    ensures Sessions.Current(Sessions.Lookup(t, id, now).0, now) == Sessions.Current(Sessions.Lookup(u, id, now).0, now)
    ensures Sessions.Current(Sessions.Remove(t, id), now) == Sessions.Current(Sessions.Remove(u, id), now)
    ensures now <= expires ==>
              Sessions.Current(Sessions.Insert(t, id, user, expires), now) == Sessions.Current(Sessions.Insert(u, id, user, expires), now)
  {
    hide Sessions.Current, Sessions.Lookup, Sessions.Remove, Sessions.Insert;
    Sessions.LookupSeesCurrent(t, id, now);
    Sessions.LookupSeesCurrent(u, id, now);
    Sessions.ChangesSeeCurrent(t, id, user, expires, now);
    Sessions.ChangesSeeCurrent(u, id, user, expires, now);
  }

  lemma StepSame(s: State, u: State, r: Request, ttl: int)
    requires !r.IsSweep() && Same(s, u, r.at) && ttl >= 0
    ensures Step(s, r, ttl).1 == Step(u, r, ttl).1
    ensures Same(Step(s, r, ttl).0, Step(u, r, ttl).0, r.at)
  {
    hide Sessions.Current, Lockout.Current, ReplayCache.Current, Sessions.Lookup, Sessions.Remove, Sessions.Insert,
         Lockout.IsLockedOut, Lockout.RecordFailure, VerifyStep;
    match r
    case Login(user, passwordOk, token, at) =>
      LockSame(s.lockouts, u.lockouts, user, at);
      SessionsSame(s.challenges, u.challenges, token, user, at + Sessions.CHALLENGE_TTL, at);
    case Verify(id, code, hasSecret, valid, token, at) =>
      VerifySame(s, u, id, code, hasSecret, valid, token, at, ttl);
    case Logout(session, at) =>
      SessionsSame(s.sessions, u.sessions, session, "", at, at);
    case Validate(session, at) =>
      SessionsSame(s.sessions, u.sessions, session, "", at, at);
  }

  lemma VerifySame(s: State, u: State, id: string, code: string, hasSecret: bool, valid: bool, token: string, at: int, ttl: int)
    requires Same(s, u, at) && ttl >= 0
    ensures VerifyStep(s, id, code, hasSecret, valid, token, at, ttl).1 == VerifyStep(u, id, code, hasSecret, valid, token, at, ttl).1
    ensures Same(VerifyStep(s, id, code, hasSecret, valid, token, at, ttl).0,
                 VerifyStep(u, id, code, hasSecret, valid, token, at, ttl).0, at)
  {
    hide Sessions.Current, Lockout.Current, ReplayCache.Current, Sessions.Lookup, ChallengedStep;
    SessionsSame(s.challenges, u.challenges, id, "", at, at);
    var (cs, peeked) := Sessions.Lookup(s.challenges, id, at);
    var (cu, _) := Sessions.Lookup(u.challenges, id, at);
    if peeked.Some? {
      ChallengedSame(s.(challenges := cs), u.(challenges := cu), id, peeked.value, code, hasSecret, valid, token, at, ttl);
    }
  }

  lemma ChallengedSame(s: State, u: State, id: string, user: string, code: string, hasSecret: bool, valid: bool, token: string, at: int, ttl: int)
    requires Same(s, u, at) && ttl >= 0
    ensures ChallengedStep(s, id, user, code, hasSecret, valid, token, at, ttl).1
         == ChallengedStep(u, id, user, code, hasSecret, valid, token, at, ttl).1
    ensures Same(ChallengedStep(s, id, user, code, hasSecret, valid, token, at, ttl).0,
                 ChallengedStep(u, id, user, code, hasSecret, valid, token, at, ttl).0, at)
  {
    hide Sessions.Current, Lockout.Current, ReplayCache.Current, Lockout.IsLockedOut, Lockout.RecordFailure,
         Lockout.ClearFailures, CodeStep;
    LockSame(s.lockouts, u.lockouts, user, at);
    var (ls, locked) := Lockout.IsLockedOut(s.lockouts, user, at);
    var (lu, _) := Lockout.IsLockedOut(u.lockouts, user, at);
    if !locked {
      CodeSame(s.(lockouts := ls), u.(lockouts := lu), id, user, code, valid, token, at, ttl);
    }
  }

  lemma CodeSame(s: State, u: State, id: string, user: string, code: string, valid: bool, token: string, at: int, ttl: int)
    requires Same(s, u, at) && ttl >= 0
    requires Lockout.Current(Lockout.RecordFailure(s.lockouts, user, at), at)
          == Lockout.Current(Lockout.RecordFailure(u.lockouts, user, at), at)
    requires Lockout.Current(Lockout.ClearFailures(s.lockouts, user), at)
          == Lockout.Current(Lockout.ClearFailures(u.lockouts, user), at)
    ensures CodeStep(s, id, user, code, valid, token, at, ttl).1 == CodeStep(u, id, user, code, valid, token, at, ttl).1
    ensures Same(CodeStep(s, id, user, code, valid, token, at, ttl).0, CodeStep(u, id, user, code, valid, token, at, ttl).0, at)
  {
    hide Sessions.Current, Lockout.Current, ReplayCache.Current, Sessions.Lookup, Sessions.Remove, Sessions.Insert,
         Lockout.RecordFailure, Lockout.ClearFailures, ReplayCache.ValidateTOTP;
    ReplayCache.CheckSeesCurrent(s.used, u.used, user, code, valid, at);
    SessionsSame(s.challenges, u.challenges, id, "", at, at);
    SessionsSame(s.sessions, u.sessions, token, user, at + ttl, at);
  }

  lemma {:induction false} UnsweptSame(r: Run, n: nat)
    requires Clocked(r) && 0 < n <= |r.reqs|
    ensures Same(StateAt(r, n), UnsweptStateAt(r, n), NowAt(r, n))
  {
    hide Step, Same;
    var q := r.reqs[n - 1];
    var s, u := StateAt(r, n - 1), UnsweptStateAt(r, n - 1);
    if n == 1 {
      SameAsItself(EMPTY, q.at);
    } else {
      UnsweptSame(r, n - 1);
      SameLater(s, u, NowAt(r, n - 1), NowAt(r, n));
      if !q.IsSweep() {
        NowBefore(r, n - 1, q.at);
      }
    }
    if q.IsSweep() {
      SweepSame(s, u, q, r.ttl, NowAt(r, n));
    } else {
      StepSame(s, u, q, r.ttl);
    }
  }

  lemma SameAsItself(s: State, now: int)
    ensures Same(s, s, now)
  {
  }

  /** SWEEPS ARE INVISIBLE. No handler of any run ever answers differently
      because of when, or whether, the sweepers ran. */
  lemma SweepTimingNeverShows(r: Run, n: nat)
    requires Clocked(r) && n < |r.reqs| && !r.reqs[n].IsSweep()
    ensures ReplyAt(r, n) == Step(UnsweptStateAt(r, n), r.reqs[n], r.ttl).1
  {
    hide Step, Same;
    if n > 0 {
      UnsweptSame(r, n);
      NowBefore(r, n, r.reqs[n].at);
      SameLater(StateAt(r, n), UnsweptStateAt(r, n), NowAt(r, n), r.reqs[n].at);
      StepSame(StateAt(r, n), UnsweptStateAt(r, n), r.reqs[n], r.ttl);
    }
  }

  // ---- lockout over whole runs -------------------------------------------

  predicate FailureAt(r: Run, n: nat, user: string)
    requires n < |r.reqs|
  {
    ReplyAt(r, n) == BadCredentials(user) || ReplyAt(r, n) == BadCode(user)
  }

  /** Failures recorded for a user by the requests numbered from `a` to before `b`. */
  function Failures(r: Run, user: string, a: nat, b: nat): nat
    requires a <= b <= |r.reqs|
    decreases b
  {
    if a == b then 0
    else Failures(r, user, a, b - 1) + (if FailureAt(r, b - 1, user) then 1 else 0)
  }

  lemma {:induction false} LockoutsWellFormed(r: Run, n: nat)
    requires Clocked(r) && 0 < n <= |r.reqs|
    ensures Lockout.WellFormed(StateAt(r, n).lockouts, NowAt(r, n))
  {
    hide Lockout.WellFormed, Step;
    var q, s, now := r.reqs[n - 1], StateAt(r, n - 1), NowAt(r, n);
    if n > 1 {
      LockoutsWellFormed(r, n - 1);
      if !q.IsSweep() {
        NowBefore(r, n - 1, q.at);
      }
      Lockout.WellFormedLater(s.lockouts, NowAt(r, n - 1), now);
    } else {
      Lockout.WellFormedLater(s.lockouts, now, now);
    }
    StepWellFormed(s, q, r.ttl, now);
  }

  lemma StepWellFormed(s: State, q: Request, ttl: int, now: int)
    requires Lockout.WellFormed(s.lockouts, now)
    requires if q.IsSweep() then q.at <= now else q.at == now
    ensures Lockout.WellFormed(Step(s, q, ttl).0.lockouts, now)
  {
    hide Lockout.WellFormed, Lockout.IsLockedOut, Lockout.RecordFailure, Lockout.ClearFailures, Lockout.Swept,
         Sessions.Lookup, ReplayCache.ValidateTOTP;
    match q {
      case Login(user, _, _, at) => Lockout.WellFormedSteps(s.lockouts, at, user);
      case Verify(id, _, _, _, _, at) =>
        var user := Sessions.Lookup(s.challenges, id, at).1;
        if user.Some? {
          Lockout.WellFormedSteps(s.lockouts, at, user.value);
          Lockout.WellFormedSteps(Lockout.IsLockedOut(s.lockouts, user.value, at).0, at, user.value);
        }
      case SweepLockouts(at) => Lockout.WellFormedSwept(s.lockouts, now, at);
      case _ =>
    }
  }

  /** One step's effect on the failure budget of a user who does not log in. */
  lemma StepBudget(s: State, q: Request, ttl: int, user: string, n: nat, start: int, now: int)
    requires start <= now && Lockout.Budgeted(s.lockouts, user, n, start, now)
    requires if q.IsSweep() then q.at <= now else q.at == now
    requires forall token :: Step(s, q, ttl).1 != LoggedIn(user, token)
    ensures var (s', reply) := Step(s, q, ttl);
            Lockout.Budgeted(s'.lockouts, user,
              if reply == BadCredentials(user) || reply == BadCode(user) then n + 1 else n, start, now)
  {
    hide Lockout.Budgeted, Lockout.IsLockedOut, Lockout.RecordFailure, Lockout.ClearFailures, Lockout.Swept,
         Sessions.Lookup, ReplayCache.ValidateTOTP;
    match q {
      case Login(who, passwordOk, _, at) => CheckedBudget(s.lockouts, user, n, start, now, who);
      case Verify(id, code, hasSecret, valid, token, at) =>
        var peeked := Sessions.Lookup(s.challenges, id, at).1;
        if peeked.Some? {
          CheckedBudget(s.lockouts, user, n, start, now, peeked.value);
          if Step(s, q, ttl).1 == LoggedIn(peeked.value, token) {
            Lockout.BudgetedClear(Lockout.IsLockedOut(s.lockouts, peeked.value, at).0, user, n, start, now, peeked.value);
          }
        }
      case SweepLockouts(at) => Lockout.BudgetedSweep(s.lockouts, user, n, start, now, at);
      case _ =>
    }
  }

  lemma CheckedBudget(t: Lockout.Table, user: string, n: nat, start: int, now: int, who: string)
    requires start <= now && Lockout.Budgeted(t, user, n, start, now)
    ensures Lockout.Budgeted(Lockout.IsLockedOut(t, who, now).0, user, n, start, now)
    ensures !Lockout.IsLockedOut(t, who, now).1 ==>
              Lockout.Budgeted(Lockout.RecordFailure(Lockout.IsLockedOut(t, who, now).0, who, now), user,
                               if who == user then n + 1 else n, start, now)
  {
    hide Lockout.Budgeted, Lockout.IsLockedOut, Lockout.RecordFailure;
    Lockout.BudgetedCheck(t, user, n, start, now, who);
    if !Lockout.IsLockedOut(t, who, now).1 {
      Lockout.BudgetedFailure(t, user, n, start, now, who);
    }
  }

  lemma {:induction false} FailuresBudgeted(r: Run, user: string, a: nat, n: nat)
    requires Clocked(r) && a < n <= |r.reqs| && !r.reqs[a].IsSweep()
    requires forall i, token :: a <= i < n ==> ReplyAt(r, i) != LoggedIn(user, token)
    ensures r.reqs[a].at <= NowAt(r, n)
    ensures Lockout.Budgeted(StateAt(r, n).lockouts, user, Failures(r, user, a, n), r.reqs[a].at, NowAt(r, n))
    decreases n
  {
    hide Lockout.Budgeted, Lockout.WellFormed, Step;
    var start := r.reqs[a].at;
    var q, s, now := r.reqs[n - 1], StateAt(r, n - 1), NowAt(r, n);
    assert ReplyAt(r, n - 1) == Step(s, q, r.ttl).1;
    if n - 1 == a {
      if a > 0 {
        NowBefore(r, a, start);
        LockoutsWellFormed(r, a);
        Lockout.WellFormedLater(s.lockouts, NowAt(r, a), start);
      } else {
        Lockout.WellFormedLater(map[], start, start);
      }
      Lockout.BudgetedStart(s.lockouts, user, start);
    } else {
      FailuresBudgeted(r, user, a, n - 1);
      Lockout.BudgetedLater(s.lockouts, user, Failures(r, user, a, n - 1), start, NowAt(r, n - 1), now);
      if !q.IsSweep() {
        NowBefore(r, n - 1, q.at);
      }
    }
    StepBudget(s, q, r.ttl, user, Failures(r, user, a, n - 1), start, now);
  }

  /** THE LOCKOUT BOUND. Between two requests T apart, at most five failures per
      fifteen minutes begun are recorded for a user who does not log in. */
  lemma LockoutBound(r: Run, user: string, a: nat, b: nat)
    requires Clocked(r) && a < b <= |r.reqs| && !r.reqs[a].IsSweep() && !r.reqs[b - 1].IsSweep()
    requires forall i, token :: a <= i < b ==> ReplyAt(r, i) != LoggedIn(user, token)
    ensures Failures(r, user, a, b) <= 5 * ((r.reqs[b - 1].at - r.reqs[a].at) / (15 * MINUTE) + 1)
  {
    hide Lockout.Budgeted, Step;
    FailuresBudgeted(r, user, a, b);
    NowBefore(r, b, r.reqs[b - 1].at);
    Lockout.BudgetMeaning(StateAt(r, b).lockouts, user, Failures(r, user, a, b), r.reqs[a].at, NowAt(r, b));
  }
}
