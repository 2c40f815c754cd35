/** What the login handlers answer, told from the history of requests and replies alone:
    no table, no sweep and no lock entry is mentioned. */
module LoginHistory {
  import opened Common
  import opened Login
  import opened LoginProvenance
  import Lockout
  import ReplayCache
  import Sessions

  // ---- the history of failures -------------------------------------------

  /** How many failures count against a user, and when the last one was recorded. */
  datatype Tally = Tally(count: nat, last: int)

  /** Each failed reply counts one; a login starts again, and so does the first failure
      after five that is fifteen minutes later than the last. */
  function TallyAt(r: Run, n: nat, user: string): Tally
    requires n <= |r.reqs|
  {
    if n == 0 then Tally(0, 0)
    else
      var before, at := TallyAt(r, n - 1, user), r.reqs[n - 1].at;
      match ReplyAt(r, n - 1)
      case BadCredentials(who) => if who == user then OneMore(before, at) else before
      case BadCode(who) => if who == user then OneMore(before, at) else before
      case LoggedIn(who, _) => if who == user then Tally(0, 0) else before
      case _ => before
  }

  function OneMore(t: Tally, at: int): Tally {
    if t.count >= 5 && at >= t.last + 15 * MINUTE then Tally(1, at) else Tally(t.count + 1, at)
  }

  /** The fifth failure, or a later one, lies less than fifteen minutes back. */
  predicate LockedFor(r: Run, n: nat, user: string, now: int)
    requires n <= |r.reqs|
  {
    TallyAt(r, n, user).count >= 5 && now < TallyAt(r, n, user).last + 15 * MINUTE
  }

  /** What the lock table holds of a user's tally. */
  ghost predicate Tallied(t: Lockout.Table, tally: Tally, user: string, now: int) {
    if tally.count == 0 then user !in t
    else if tally.count < 5 then user in t && t[user] == Lockout.Entry(tally.count, None)
    else if user in t then t[user] == Lockout.Entry(tally.count, Some(tally.last))
    else now >= tally.last + 15 * MINUTE
  }

  lemma TalliedLater(t: Lockout.Table, tally: Tally, user: string, now: int, later: int)
    requires Tallied(t, tally, user, now) && now <= later
    ensures Tallied(t, tally, user, later)
  {
  }

  lemma TalliedCheck(t: Lockout.Table, tally: Tally, user: string, now: int, who: string)
    requires Tallied(t, tally, user, now)
    ensures Tallied(Lockout.IsLockedOut(t, who, now).0, tally, user, now)
    ensures Lockout.IsLockedOut(t, user, now).1 <==> tally.count >= 5 && now < tally.last + 15 * MINUTE
  {
  }

  lemma TalliedFailure(t: Lockout.Table, tally: Tally, user: string, now: int, who: string)
    requires Tallied(t, tally, user, now) && !Lockout.IsLockedOut(t, who, now).1
    ensures Tallied(Lockout.RecordFailure(Lockout.IsLockedOut(t, who, now).0, who, now),
                    if who == user then OneMore(tally, now) else tally, user, now)
  {
  }

  lemma TalliedClear(t: Lockout.Table, tally: Tally, user: string, now: int, who: string)
    requires Tallied(t, tally, user, now)
    ensures Tallied(Lockout.ClearFailures(t, who), if who == user then Tally(0, 0) else tally, user, now)
  {
  }

  lemma TalliedSweep(t: Lockout.Table, tally: Tally, user: string, now: int, sweepAt: int)
    requires Tallied(t, tally, user, now) && sweepAt <= now
    ensures Tallied(Lockout.Swept(t, sweepAt), tally, user, now)
  {
  }

  /** A tally after one more request, from its reply. */
  function TallyAfter(tally: Tally, reply: Reply, at: int, user: string): Tally {
    match reply
    case BadCredentials(who) => if who == user then OneMore(tally, at) else tally
    case BadCode(who) => if who == user then OneMore(tally, at) else tally
    case LoggedIn(who, _) => if who == user then Tally(0, 0) else tally
    case _ => tally
  }

  lemma StepTallied(s: State, q: Request, ttl: int, tally: Tally, user: string, now: int)
    requires Tallied(s.lockouts, tally, user, now)
    requires if q.IsSweep() then q.at <= now else q.at == now
    ensures Tallied(Step(s, q, ttl).0.lockouts, TallyAfter(tally, Step(s, q, ttl).1, q.at, user), user, now)
  {
    hide Tallied, Lockout.IsLockedOut, Lockout.RecordFailure, Lockout.ClearFailures, Lockout.Swept, OneMore,
         Sessions.Lookup, ReplayCache.ValidateTOTP;
    match q {
      case Login(who, passwordOk, _, at) => CheckedTallied(s.lockouts, tally, user, now, who);
      case Verify(id, code, hasSecret, valid, token, at) =>
        var peeked := Sessions.Lookup(s.challenges, id, at).1;
        if peeked.Some? {
          CheckedTallied(s.lockouts, tally, user, now, peeked.value);
          TalliedClear(Lockout.IsLockedOut(s.lockouts, peeked.value, at).0, tally, user, now, peeked.value);
        }
      case SweepLockouts(at) => TalliedSweep(s.lockouts, tally, user, now, at);
      case _ =>
    }
  }

  lemma CheckedTallied(t: Lockout.Table, tally: Tally, user: string, now: int, who: string)
    requires Tallied(t, tally, user, now)
    ensures Tallied(Lockout.IsLockedOut(t, who, now).0, tally, user, now)
    ensures !Lockout.IsLockedOut(t, who, now).1 ==>
              Tallied(Lockout.RecordFailure(Lockout.IsLockedOut(t, who, now).0, who, now),
                      if who == user then OneMore(tally, now) else tally, user, now)
  {
    hide Tallied, Lockout.IsLockedOut, Lockout.RecordFailure, OneMore;
    TalliedCheck(t, tally, user, now, who);
    if !Lockout.IsLockedOut(t, who, now).1 {
      TalliedFailure(t, tally, user, now, who);
    }
  }

  lemma TallyUnfolds(r: Run, n: nat, user: string)
    requires 0 < n <= |r.reqs|
    ensures TallyAt(r, n, user) == TallyAfter(TallyAt(r, n - 1, user), ReplyAt(r, n - 1), r.reqs[n - 1].at, user)
  {
    hide OneMore, Step;
  }

  lemma {:induction false} RunTallied(r: Run, n: nat, user: string)
    requires Clocked(r) && 0 < n <= |r.reqs|
    ensures Tallied(StateAt(r, n).lockouts, TallyAt(r, n, user), user, NowAt(r, n))
    decreases n
  {
    hide Tallied, Step, OneMore, TallyAfter;
    var q, s, now := r.reqs[n - 1], StateAt(r, n - 1), NowAt(r, n);
    if n > 1 {
      RunTallied(r, n - 1, user);
      if !q.IsSweep() {
        NowBefore(r, n - 1, q.at);
      }
      TalliedLater(s.lockouts, TallyAt(r, n - 1, user), user, NowAt(r, n - 1), now);
    } else {
      NothingTallied(r, user, now);
    }
    TallyUnfolds(r, n, user);
    StepTallied(s, q, r.ttl, TallyAt(r, n - 1, user), user, now);
  }

  lemma NothingTallied(r: Run, user: string, now: int)
    ensures Tallied(StateAt(r, 0).lockouts, TallyAt(r, 0, user), user, now)
  {
  }

  /** THE LOCK IS THE HISTORY'S. The lock check of any request agrees with the tally of
      replies, whenever entries were dropped. */
  lemma LockIsHistory(r: Run, n: nat, user: string)
    requires Clocked(r) && n < |r.reqs| && !r.reqs[n].IsSweep()
    ensures Lockout.IsLockedOut(StateAt(r, n).lockouts, user, r.reqs[n].at).1 <==> LockedFor(r, n, user, r.reqs[n].at)
  {
    hide Tallied, Step, Lockout.IsLockedOut;
    var at := r.reqs[n].at;
    if n > 0 {
      RunTallied(r, n, user);
      NowBefore(r, n, at);
      TalliedLater(StateAt(r, n).lockouts, TallyAt(r, n, user), user, NowAt(r, n), at);
    } else {
      NothingTallied(r, user, at);
    }
    TalliedCheck(StateAt(r, n).lockouts, TallyAt(r, n, user), user, at, user);
  }

  // ---- the history of challenges -----------------------------------------

  /** Login number `i` was answered with this challenge at most five minutes before `now`,
      and no verification has logged in with it since. */
  ghost predicate AliveFrom(r: Run, n: nat, id: string, user: string, now: int, i: nat)
    requires n <= |r.reqs|
  {
    && i < n && ReplyAt(r, i) == Challenge(user, id) && now <= r.reqs[i].at + 5 * MINUTE
    && forall k :: i < k < n && Opens(r, k) ==> r.reqs[k].challenge != id
  }

  ghost predicate Alive(r: Run, n: nat, id: string, user: string, now: int)
    requires n <= |r.reqs|
  {
    exists i: nat :: AliveFrom(r, n, id, user, now, i)
  }

  /** A challenge stays in the table until it has expired or logged in. */
  lemma {:induction false} ChallengeKept(r: Run, n: nat, id: string, user: string, i: nat)
    requires Clocked(r) && FreshTokens(r) && i < n <= |r.reqs| && ReplyAt(r, i) == Challenge(user, id)
    requires forall k :: i < k < n && Opens(r, k) ==> r.reqs[k].challenge != id
    ensures NowAt(r, n) > r.reqs[i].at + 5 * MINUTE
         || (id in StateAt(r, n).challenges && StateAt(r, n).challenges[id] == Sessions.Entry(user, r.reqs[i].at + 5 * MINUTE))
    decreases n
  {
    hide Step;
    var m := n - 1;
    ReplyFacts(r, i);
    if i < m {
      ChallengeKept(r, m, id, user, i);
      ReplyFacts(r, m);
      if NowAt(r, m) <= r.reqs[i].at + 5 * MINUTE {
        ChallengeStays(r, m, n, id);
      }
    } else {
      ChallengeMade(r, m, n, id, user);
    }
  }

  lemma ChallengeMade(r: Run, m: nat, n: nat, id: string, user: string)
    requires n == m + 1 <= |r.reqs| && ReplyAt(r, m) == Challenge(user, id)
    ensures id in StateAt(r, n).challenges && StateAt(r, n).challenges[id] == Sessions.Entry(user, r.reqs[m].at + 5 * MINUTE)
  {
    hide Lockout.IsLockedOut, Lockout.RecordFailure, Lockout.ClearFailures, Lockout.Swept, ReplayCache.ValidateTOTP, ReplayCache.Swept;
    assert StateAt(r, n) == Step(StateAt(r, m), r.reqs[m], r.ttl).0;
  }

  lemma ChallengeStays(r: Run, m: nat, n: nat, id: string)
    requires n == m + 1 <= |r.reqs| && id in StateAt(r, m).challenges && (Opens(r, m) ==> r.reqs[m].challenge != id)
    ensures var before, after, q := StateAt(r, m).challenges, StateAt(r, n).challenges, r.reqs[m];
            || (id in after && after[id] == before[id]) || q.at > before[id].expires || (q.Login? && q.token == id)
  {
    hide Lockout.IsLockedOut, Lockout.RecordFailure, Lockout.ClearFailures, Lockout.Swept, ReplayCache.ValidateTOTP, ReplayCache.Swept;
    assert StateAt(r, n) == Step(StateAt(r, m), r.reqs[m], r.ttl).0;
  }

  lemma LiveIsAlive(r: Run, n: nat, id: string)
    requires n < |r.reqs| && Sessions.Live(StateAt(r, n).challenges, id, r.reqs[n].at)
    ensures Alive(r, n, id, StateAt(r, n).challenges[id].user, r.reqs[n].at)
  {
    hide Step;
    ChallengesIssued(r, n);
    var e := StateAt(r, n).challenges[id];
    var i: nat :| IssuedBy(r, n, id, e, i);
    assert AliveFrom(r, n, id, e.user, r.reqs[n].at, i);
  }

  lemma AliveIsLive(r: Run, n: nat, id: string, user: string)
    requires Clocked(r) && FreshTokens(r) && n < |r.reqs| && !r.reqs[n].IsSweep() && Alive(r, n, id, user, r.reqs[n].at)
    ensures Sessions.Live(StateAt(r, n).challenges, id, r.reqs[n].at) && StateAt(r, n).challenges[id].user == user
  {
    hide Step;
    var i: nat :| AliveFrom(r, n, id, user, r.reqs[n].at, i);
    ChallengeKept(r, n, id, user, i);
    NowBefore(r, n, r.reqs[n].at);
  }

  // ---- the history of codes ----------------------------------------------

  /** Verification number `k` logged the user in with this code at most ninety seconds before. */
  ghost predicate UsedAt(r: Run, n: nat, user: string, code: string, now: int, k: nat)
    requires n <= |r.reqs|
  {
    k < n && Opens(r, k) && ReplyAt(r, k).user == user && r.reqs[k].code == code && now <= r.reqs[k].at + 90 * SECOND
  }

  ghost predicate Used(r: Run, n: nat, user: string, code: string, now: int)
    requires n <= |r.reqs|
  {
    exists k: nat :: UsedAt(r, n, user, code, now, k)
  }

  ghost predicate RecordedBy(r: Run, n: nat, user: string, code: string, k: nat)
    requires n <= |r.reqs| && user in StateAt(r, n).used && code in StateAt(r, n).used[user]
  {
    && k < n && Opens(r, k) && ReplyAt(r, k).user == user && r.reqs[k].code == code
    && StateAt(r, n).used[user][code] == r.reqs[k].at + 90 * SECOND
  }

  /** How a request changes the table of used codes. */
  lemma StepUsed(s: State, q: Request, ttl: int)
    ensures var (after, reply) := Step(s, q, ttl);
            || after.used == s.used
            || (q.SweepCodes? && after.used == ReplayCache.Swept(s.used, q.at))
            || (q.Verify? && q.challenge in s.challenges
                && var user, answer := s.challenges[q.challenge].user,
                     ReplayCache.ValidateTOTP(s.used, s.challenges[q.challenge].user, q.code, q.valid, q.at);
                   after.used == answer.0 && (answer.1 ==> reply == LoggedIn(user, q.token)))
  {
    hide Lockout.IsLockedOut, Lockout.RecordFailure, Lockout.ClearFailures, Lockout.Swept, ReplayCache.ValidateTOTP, ReplayCache.Swept;
  }

  lemma ValidateUsed(used: ReplayCache.Used, user: string, code: string, valid: bool, at: int, u: string, c: string)
    ensures var (after, accepted) := ReplayCache.ValidateTOTP(used, user, code, valid, at);
            u in after && c in after[u] ==>
              || (u in used && c in used[u] && after[u][c] == used[u][c])
              || (u == user && c == code && accepted && after[u][c] == at + 90 * SECOND)
  {
  }

  lemma CodeComes(r: Run, m: nat, n: nat, user: string, code: string)
    requires n == m + 1 <= |r.reqs| && user in StateAt(r, n).used && code in StateAt(r, n).used[user]
    ensures var before, after := StateAt(r, m).used, StateAt(r, n).used;
            || (user in before && code in before[user] && after[user][code] == before[user][code])
            || (Opens(r, m) && ReplyAt(r, m).user == user && r.reqs[m].code == code && after[user][code] == r.reqs[m].at + 90 * SECOND)
  {
    var s, q := StateAt(r, m), r.reqs[m];
    assert StateAt(r, n) == Step(s, q, r.ttl).0;
    hide Step, StateAt, ReplayCache.ValidateTOTP;
    StepUsed(s, q, r.ttl);
    if q.Verify? && q.challenge in s.challenges {
      ValidateUsed(s.used, s.challenges[q.challenge].user, q.code, q.valid, q.at, user, code);
    }
  }

  lemma {:induction false} CodesRecorded(r: Run, n: nat, user: string, code: string) returns (k: nat)
    requires n <= |r.reqs| && user in StateAt(r, n).used && code in StateAt(r, n).used[user]
    ensures RecordedBy(r, n, user, code, k)
    decreases n
  {
    hide Step;
    assert n > 0;
    var m := n - 1;
    CodeComes(r, m, n, user, code);
    var before := StateAt(r, m).used;
    if user in before && code in before[user] && StateAt(r, n).used[user][code] == before[user][code] {
      k := CodesRecorded(r, m, user, code);
    } else {
      k := m;
    }
  }

  /** A valid code is accepted exactly if no login of the user used it in ninety seconds. */
  lemma AcceptedIsUnused(r: Run, n: nat, user: string, code: string)
    requires Clocked(r) && n < |r.reqs| && !r.reqs[n].IsSweep()
    ensures ReplayCache.ValidateTOTP(StateAt(r, n).used, user, code, true, r.reqs[n].at).1 <==> !Used(r, n, user, code, r.reqs[n].at)
  {
    hide Step;
    var at, used := r.reqs[n].at, StateAt(r, n).used;
    if user in used && code in used[user] && at <= used[user][code] {
      var k := CodesRecorded(r, n, user, code);
      assert UsedAt(r, n, user, code, at, k);
    }
    if k: nat :| UsedAt(r, n, user, code, at, k) {
      CodesKept(r, n, k);
      NowBefore(r, n, at);
    }
  }

  // ---- the answers -------------------------------------------------------

  /** WHAT A LOGIN ANSWERS, in every run: that the account is locked exactly if its history
      says so, and otherwise by the password alone. */
  lemma LoginAnswers(r: Run, n: nat)
    requires Clocked(r) && n < |r.reqs| && r.reqs[n].Login?
    ensures var q := r.reqs[n];
            ReplyAt(r, n) == if LockedFor(r, n, q.user, q.at) then Locked
                             else if q.passwordOk then Challenge(q.user, q.token) else BadCredentials(q.user)
  {
    hide Lockout.IsLockedOut, LockedFor, StateAt;
    LockIsHistory(r, n, r.reqs[n].user);
  }

  lemma VerifyFollows(s: State, q: Request, ttl: int)
    requires q.Verify?
    ensures !Sessions.Live(s.challenges, q.challenge, q.at) ==> Step(s, q, ttl).1 == NoChallenge
    ensures Sessions.Live(s.challenges, q.challenge, q.at) ==>
              var user := s.challenges[q.challenge].user;
              Step(s, q, ttl).1 == if Lockout.IsLockedOut(s.lockouts, user, q.at).1 then Locked
                                   else if !q.hasSecret then NoSecret
                                   else if q.valid && ReplayCache.ValidateTOTP(s.used, user, q.code, true, q.at).1 then LoggedIn(user, q.token)
                                   else BadCode(user)
  {
    hide Lockout.IsLockedOut;
  }

  /** WHAT A VERIFICATION ANSWERS, in every run with fresh random challenges: without a
      challenge that is alive nothing else counts; with one, the history of failures, the
      secret, and the code with the history of codes decide, in this order. */
  lemma VerifyAnswers(r: Run, n: nat, user: string)
    requires Clocked(r) && FreshTokens(r) && n < |r.reqs| && r.reqs[n].Verify?
    ensures var q := r.reqs[n];
            && ((forall who :: !Alive(r, n, q.challenge, who, q.at)) ==> ReplyAt(r, n) == NoChallenge)
            && (Alive(r, n, q.challenge, user, q.at) ==>
                  ReplyAt(r, n) == if LockedFor(r, n, user, q.at) then Locked
                                   else if !q.hasSecret then NoSecret
                                   else if q.valid && !Used(r, n, user, q.code, q.at) then LoggedIn(user, q.token)
                                   else BadCode(user))
  {
    hide Lockout.IsLockedOut, LockedFor, StateAt, Alive, Used, Step, ReplayCache.ValidateTOTP, FreshTokens, Clocked;
    var q, s := r.reqs[n], StateAt(r, n);
    VerifyFollows(s, q, r.ttl);
    if Sessions.Live(s.challenges, q.challenge, q.at) {
      LiveIsAlive(r, n, q.challenge);
    }
    if Alive(r, n, q.challenge, user, q.at) {
      AliveIsLive(r, n, q.challenge, user);
      LockIsHistory(r, n, user);
      AcceptedIsUnused(r, n, user, q.code);
    }
  }
}
