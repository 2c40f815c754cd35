/** Where sessions come from and what a session token is worth, over every run
    of the login protocol. Random tokens are assumed never to repeat. */
module LoginProvenance {
  import opened Common
  import opened Login
  import Lockout
  import ReplayCache
  import Sessions

  /** Random tokens never repeat: not among challenges, not among sessions. */
  ghost predicate FreshTokens(r: Run) {
    forall i, j :: 0 <= i < j < |r.reqs| ==>
      && (r.reqs[i].Login? && r.reqs[j].Login? ==> r.reqs[i].token != r.reqs[j].token)
      && (r.reqs[i].Verify? && r.reqs[j].Verify? ==> r.reqs[i].token != r.reqs[j].token)
  }

  /** A verification that opens a session. */
  predicate Opens(r: Run, j: nat)
    requires j < |r.reqs|
  {
    r.reqs[j].Verify? && ReplyAt(r, j).LoggedIn?
  }

  /** What each kind of reply says about its request and the state it met. */
  lemma ReplyFacts(r: Run, j: nat)
    requires j < |r.reqs|
    ensures ReplyAt(r, j).Challenge? ==>
              var q := r.reqs[j];
              && q.Login? && q.passwordOk && ReplyAt(r, j) == Challenge(q.user, q.token)
    ensures Opens(r, j) ==>
              var q, user := r.reqs[j], ReplyAt(r, j).user;
              && q.Verify? && q.hasSecret && q.valid && ReplyAt(r, j).token == q.token
              && Sessions.Live(StateAt(r, j).challenges, q.challenge, q.at)
              && StateAt(r, j).challenges[q.challenge].user == user
              && !Lockout.IsLockedOut(StateAt(r, j).lockouts, user, q.at).1
              && ReplayCache.ValidateTOTP(StateAt(r, j).used, user, q.code, true, q.at).1
  {
    hide Lockout.IsLockedOut;
  }

  // ---- challenges --------------------------------------------------------

  /** Login number `i` issued this challenge and no verification before `n` has used it. */
  ghost predicate IssuedBy(r: Run, n: nat, id: string, e: Sessions.Entry, i: nat)
    requires n <= |r.reqs|
  {
    && i < n
    && ReplyAt(r, i) == Challenge(e.user, id)
    && e.expires == r.reqs[i].at + Sessions.CHALLENGE_TTL
    && forall k :: i < k < n && Opens(r, k) ==> r.reqs[k].challenge != id
  }

  /** How one request changes the table of challenges. */
  lemma ChallengeChange(r: Run, m: nat, n: nat, id: string)
    requires n == m + 1 <= |r.reqs| && id in StateAt(r, n).challenges
    ensures Opens(r, m) ==> r.reqs[m].challenge != id
    ensures if ReplyAt(r, m).Challenge? && id == ReplyAt(r, m).token
            then StateAt(r, n).challenges[id] == Sessions.Entry(ReplyAt(r, m).user, r.reqs[m].at + Sessions.CHALLENGE_TTL)
            else id in StateAt(r, m).challenges && StateAt(r, n).challenges[id] == StateAt(r, m).challenges[id]
  {
    hide Lockout.IsLockedOut, Lockout.RecordFailure, Lockout.ClearFailures, Lockout.Swept,
         ReplayCache.ValidateTOTP, ReplayCache.Swept;
    assert StateAt(r, n) == Step(StateAt(r, m), r.reqs[m], r.ttl).0;
  }

  ghost predicate ChallengesHaveIssuers(r: Run, n: nat)
    requires n <= |r.reqs|
  {
    forall id :: id in StateAt(r, n).challenges ==>
      exists i: nat :: IssuedBy(r, n, id, StateAt(r, n).challenges[id], i)
  }

  lemma IssuersStep(r: Run, m: nat, n: nat)
    requires n == m + 1 <= |r.reqs| && ChallengesHaveIssuers(r, m)
    ensures ChallengesHaveIssuers(r, n)
  {
    hide Step;
    var after := StateAt(r, n).challenges;
    forall id | id in after
      ensures exists i: nat :: IssuedBy(r, n, id, after[id], i)
    {
      ChallengeChange(r, m, n, id);
      if ReplyAt(r, m).Challenge? && id == ReplyAt(r, m).token {
        assert IssuedBy(r, n, id, after[id], m);
      } else {
        var i: nat :| IssuedBy(r, m, id, after[id], i);
        assert IssuedBy(r, n, id, after[id], i);
      }
    }
  }

  lemma {:induction false} ChallengesIssued(r: Run, n: nat)
    requires n <= |r.reqs|
    ensures ChallengesHaveIssuers(r, n)
  {
    hide Step;
    if n > 0 {
      ChallengesIssued(r, n - 1);
      IssuersStep(r, n - 1, n);
    }
  }

  /** PROVENANCE. Every session was opened by a code accepted while the account was
      not locked, against a challenge that a correct password of the same user
      had obtained at most five minutes earlier. */
  lemma SessionProvenance(r: Run, j: nat) returns (i: nat)
    requires Clocked(r) && j < |r.reqs| && Opens(r, j)
    ensures i < j
    ensures var login, verify, user := r.reqs[i], r.reqs[j], ReplyAt(r, j).user;
            && login.Login? && login.user == user && login.passwordOk
            && ReplyAt(r, i) == Challenge(user, verify.challenge)
            && verify.Verify? && verify.valid && verify.hasSecret
            && 0 <= verify.at - login.at <= 5 * MINUTE
            && !Lockout.IsLockedOut(StateAt(r, j).lockouts, user, verify.at).1
  {
    hide Step, Lockout.IsLockedOut, ReplayCache.ValidateTOTP;
    ReplyFacts(r, j);
    ChallengesIssued(r, j);
    var id := r.reqs[j].challenge;
    i :| IssuedBy(r, j, id, StateAt(r, j).challenges[id], i);
    ReplyFacts(r, i);
  }

  /** One challenge opens at most one session. */
  lemma OneSessionPerChallenge(r: Run, j: nat, k: nat)
    requires Clocked(r) && FreshTokens(r) && j < k < |r.reqs| && Opens(r, j) && Opens(r, k)
    ensures r.reqs[j].challenge != r.reqs[k].challenge
  {
    hide Step, Lockout.IsLockedOut, ReplayCache.ValidateTOTP;
    var id := r.reqs[k].challenge;
    ReplyFacts(r, j);
    ReplyFacts(r, k);
    if r.reqs[j].challenge == id {
      ChallengesIssued(r, k);
      ChallengesIssued(r, j);
      var late :| IssuedBy(r, k, id, StateAt(r, k).challenges[id], late);
      var early :| IssuedBy(r, j, id, StateAt(r, j).challenges[id], early);
      ReplyFacts(r, late);
      ReplyFacts(r, early);
    }
  }

  // ---- what a session token is worth -------------------------------------

  /** Verification `j` opened the session of this token and nobody has logged out of it since. */
  ghost predicate Open(r: Run, n: nat, j: nat, token: string)
    requires n <= |r.reqs|
  {
    && j < n && Opens(r, j) && ReplyAt(r, j).token == token
    && forall k :: j < k < n && r.reqs[k].Logout? ==> r.reqs[k].session != token
  }

  ghost function SessionOf(r: Run, j: nat): Sessions.Entry
    requires j < |r.reqs| && Opens(r, j)
  {
    Sessions.Entry(ReplyAt(r, j).user, r.reqs[j].at + r.ttl)
  }

  /** How one request changes the table of sessions: only a login adds to it,
      only a logout or the end of its lifetime removes a session. */
  lemma SessionChange(r: Run, m: nat, n: nat, token: string)
    requires n == m + 1 <= |r.reqs|
    ensures var before, after, q := StateAt(r, m).sessions, StateAt(r, n).sessions, r.reqs[m];
            if Opens(r, m) && token == ReplyAt(r, m).token then token in after && after[token] == SessionOf(r, m)
            else
              && (token in after ==> token in before && after[token] == before[token] && q != Logout(token, q.at))
              && (token in before && token !in after && before[token].expires >= q.at ==> q == Logout(token, q.at))
  {
    hide Lockout.IsLockedOut, Lockout.RecordFailure, Lockout.ClearFailures, Lockout.Swept,
         ReplayCache.ValidateTOTP, ReplayCache.Swept;
    assert StateAt(r, n) == Step(StateAt(r, m), r.reqs[m], r.ttl).0;
  }

  ghost predicate SessionsHaveOpeners(r: Run, n: nat)
    requires n <= |r.reqs|
  {
    forall token :: token in StateAt(r, n).sessions ==>
      exists j: nat :: Open(r, n, j, token) && StateAt(r, n).sessions[token] == SessionOf(r, j)
  }

  lemma OpenersStep(r: Run, m: nat, n: nat)
    requires n == m + 1 <= |r.reqs| && SessionsHaveOpeners(r, m)
    ensures SessionsHaveOpeners(r, n)
  {
    hide Step;
    var before, after := StateAt(r, m).sessions, StateAt(r, n).sessions;
    forall token | token in after
      ensures exists j: nat :: Open(r, n, j, token) && after[token] == SessionOf(r, j)
    {
      SessionChange(r, m, n, token);
      if Opens(r, m) && token == ReplyAt(r, m).token {
        assert Open(r, n, m, token);
      } else {
        var j: nat :| Open(r, m, j, token) && before[token] == SessionOf(r, j);
        assert Open(r, n, j, token);
      }
    }
  }

  lemma {:induction false} SessionsAreOpen(r: Run, n: nat)
    requires n <= |r.reqs|
    ensures SessionsHaveOpeners(r, n)
  {
    hide Step;
    if n > 0 {
      SessionsAreOpen(r, n - 1);
      OpenersStep(r, n - 1, n);
    }
  }

  /** An open session is in the table until its lifetime has passed. */
  lemma {:induction false} OpenSessionsKept(r: Run, n: nat, j: nat, token: string)
    requires Clocked(r) && FreshTokens(r) && 0 < n <= |r.reqs| && Open(r, n, j, token)
    ensures NowAt(r, n) > SessionOf(r, j).expires
         || (token in StateAt(r, n).sessions && StateAt(r, n).sessions[token] == SessionOf(r, j))
    decreases n
  {
    hide Step;
    var m := n - 1;
    SessionChange(r, m, n, token);
    if j < m {
      OpenSessionsKept(r, m, j, token);
      ReplyFacts(r, j);
      ReplyFacts(r, m);
    }
  }

  /** THE WORTH OF A TOKEN. A session token names a user exactly when a verification
      opened it for that user within the session lifetime and no logout came between. */
  lemma TokenMeansOpenSession(r: Run, n: nat, user: string)
    requires Clocked(r) && FreshTokens(r) && n < |r.reqs| && r.reqs[n].Validate?
    ensures ReplyAt(r, n) == Who(Some(user))
        <==> exists j: nat :: Open(r, n, j, r.reqs[n].session) && ReplyAt(r, j).user == user
                         && r.reqs[n].at <= r.reqs[j].at + r.ttl
  {
    hide Step;
    var q := r.reqs[n];
    var token := q.session;
    ValidateReply(r, n);
    SessionsAreOpen(r, n);
    forall j: nat | Open(r, n, j, token) && q.at <= SessionOf(r, j).expires
      ensures token in StateAt(r, n).sessions && StateAt(r, n).sessions[token] == SessionOf(r, j)
    {
      OpenSessionsKept(r, n, j, token);
      NowBefore(r, n, q.at);
    }
  }

  lemma ValidateReply(r: Run, n: nat)
    requires n < |r.reqs| && r.reqs[n].Validate?
    ensures var sessions, q := StateAt(r, n).sessions, r.reqs[n];
            ReplyAt(r, n) == Who(if Sessions.Live(sessions, q.session, q.at) then Some(sessions[q.session].user) else None)
  {
  }

  // ---- one-time codes across the protocol --------------------------------

  ghost predicate CodeRemembered(used: ReplayCache.Used, user: string, code: string, until: int) {
    user in used && code in used[user] && until <= used[user][code]
  }

  lemma CodeChange(r: Run, n: nat, user: string, code: string, until: int)
    requires n < |r.reqs|
    ensures Opens(r, n) && ReplyAt(r, n).user == user && r.reqs[n].code == code ==>
              && CodeRemembered(StateAt(r, n + 1).used, user, code, r.reqs[n].at + ReplayCache.CODE_LIFETIME)
              && !CodeRemembered(StateAt(r, n).used, user, code, r.reqs[n].at)
    ensures CodeRemembered(StateAt(r, n).used, user, code, until) && r.reqs[n].at <= until ==>
              CodeRemembered(StateAt(r, n + 1).used, user, code, until)
  {
    hide Lockout.IsLockedOut, Lockout.RecordFailure, Lockout.ClearFailures, Lockout.Swept,
         Sessions.Lookup, Sessions.Remove, Sessions.Insert, Sessions.Swept;
    var s, q := StateAt(r, n), r.reqs[n];
    assert StateAt(r, n + 1) == Step(s, q, r.ttl).0;
    if q.SweepCodes? {
      if CodeRemembered(s.used, user, code, until) && q.at <= until {
        assert code in ReplayCache.Purged(s.used[user], q.at);
      }
    }
  }

  lemma {:induction false} CodesKept(r: Run, n: nat, i: nat)
    requires Clocked(r) && i < n <= |r.reqs| && Opens(r, i)
    ensures NowAt(r, n) > r.reqs[i].at + ReplayCache.CODE_LIFETIME
         || CodeRemembered(StateAt(r, n).used, ReplyAt(r, i).user, r.reqs[i].code, r.reqs[i].at + ReplayCache.CODE_LIFETIME)
    decreases n
  {
    hide Step;
    CodeChange(r, n - 1, ReplyAt(r, i).user, r.reqs[i].code, r.reqs[i].at + ReplayCache.CODE_LIFETIME);
    if i < n - 1 {
      CodesKept(r, n - 1, i);
    }
  }

  /** Two logins of one user with one code string are more than ninety seconds apart. */
  lemma CodesAreOneTime(r: Run, i: nat, j: nat)
    requires Clocked(r) && i < j < |r.reqs| && Opens(r, i) && Opens(r, j)
    requires ReplyAt(r, i).user == ReplyAt(r, j).user && r.reqs[i].code == r.reqs[j].code
    ensures r.reqs[j].at > r.reqs[i].at + 90 * SECOND
  {
    hide Step;
    CodesKept(r, j, i);
    NowBefore(r, j, r.reqs[j].at);
    CodeChange(r, j, ReplyAt(r, j).user, r.reqs[j].code, r.reqs[j].at);
  }
}
