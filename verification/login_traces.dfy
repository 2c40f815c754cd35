/** Where sessions come from when requests overlap: every session traced back through the
    critical sections of two requests. */
module LoginTraces {
  import opened Common
  import opened LoginSections
  import Lockout
  import ReplayCache
  import Sessions

  function StateAt(evs: seq<Event>, n: nat): State
    requires n <= |evs|
  {
    if n == 0 then EMPTY else Step(StateAt(evs, n - 1), evs[n - 1])
  }

  // ---- what happened before ----------------------------------------------

  /** Section `k` let this login past the lock check. */
  ghost predicate CheckedAt(evs: seq<Event>, n: nat, call: nat, user: string, k: nat)
    requires n <= |evs|
  {
    k < n && evs[k].CheckLogin? && evs[k].call == call && evs[k].user == user
    && !Lockout.IsLockedOut(StateAt(evs, k).lockouts, user, evs[k].at).1
  }

  /** Section `i` issued this challenge, to a login whose password was right. */
  ghost predicate IssuedAt(evs: seq<Event>, n: nat, id: string, e: Sessions.Entry, i: nat)
    requires n <= |evs|
  {
    && i < n && evs[i].PassLogin? && evs[i].token == id && e.expires == evs[i].at + Sessions.CHALLENGE_TTL
    && evs[i].call in StateAt(evs, i).pending && StateAt(evs, i).pending[evs[i].call] == Checked(e.user)
  }

  /** Section `p` found the challenge alive, as this user's. */
  ghost predicate PeekedAt(evs: seq<Event>, n: nat, call: nat, user: string, id: string, p: nat)
    requires n <= |evs|
  {
    && p < n && evs[p].Peek? && evs[p].call == call && evs[p].challenge == id
    && Sessions.Live(StateAt(evs, p).challenges, id, evs[p].at) && StateAt(evs, p).challenges[id].user == user
  }

  /** Section `k` found the account not locked, after the challenge was looked up. */
  ghost predicate ClearedAt(evs: seq<Event>, n: nat, call: nat, user: string, p: nat, k: nat)
    requires n <= |evs|
  {
    p < k < n && evs[k].CheckVerify? && evs[k].call == call
    && !Lockout.IsLockedOut(StateAt(evs, k).lockouts, user, evs[k].at).1
  }

  /** Section `t` accepted a valid and unused code, after that. */
  ghost predicate AcceptedAt(evs: seq<Event>, n: nat, call: nat, user: string, k: nat, t: nat)
    requires n <= |evs|
  {
    k < t < n && evs[t].TryCode? && evs[t].call == call && evs[t].valid
    && ReplayCache.ValidateTOTP(StateAt(evs, t).used, user, evs[t].code, true, evs[t].at).1
  }

  ghost predicate Traced(evs: seq<Event>, n: nat, call: nat, stage: Stage)
    requires n <= |evs|
  {
    match stage
    case Checked(user) => exists k :: CheckedAt(evs, n, call, user, k)
    case Peeked(user, id) => exists p :: PeekedAt(evs, n, call, user, id, p)
    case Cleared(user, id) => exists p, k :: PeekedAt(evs, n, call, user, id, p) && ClearedAt(evs, n, call, user, p, k)
    case Rejected(_) => true
    case _ =>
      exists p, k, t ::
        && PeekedAt(evs, n, call, stage.user, stage.challenge, p) && ClearedAt(evs, n, call, stage.user, p, k)
        && AcceptedAt(evs, n, call, stage.user, k, t)
  }

  lemma TracedLater(evs: seq<Event>, n: nat, call: nat, stage: Stage)
    requires n < |evs| && Traced(evs, n, call, stage)
    ensures Traced(evs, n + 1, call, stage)
  {
    hide StateAt;
    match stage
    case Checked(user) =>
      var k :| CheckedAt(evs, n, call, user, k);
      assert CheckedAt(evs, n + 1, call, user, k);
    case Peeked(user, id) =>
      var p :| PeekedAt(evs, n, call, user, id, p);
      assert PeekedAt(evs, n + 1, call, user, id, p);
    case Cleared(user, id) =>
      var p, k :| PeekedAt(evs, n, call, user, id, p) && ClearedAt(evs, n, call, user, p, k);
      assert PeekedAt(evs, n + 1, call, user, id, p) && ClearedAt(evs, n + 1, call, user, p, k);
    case Rejected(_) =>
    case _ => AcceptedLater(evs, n, call, stage);
  }

  lemma AcceptedLater(evs: seq<Event>, n: nat, call: nat, stage: Stage)
    requires n < |evs| && (stage.Accepted? || stage.Consumed? || stage.Unblocked?) && Traced(evs, n, call, stage)
    ensures Traced(evs, n + 1, call, stage)
  {
    hide StateAt;
    var p, k, t :| PeekedAt(evs, n, call, stage.user, stage.challenge, p) && ClearedAt(evs, n, call, stage.user, p, k)
                   && AcceptedAt(evs, n, call, stage.user, k, t);
    assert PeekedAt(evs, n + 1, call, stage.user, stage.challenge, p) && ClearedAt(evs, n + 1, call, stage.user, p, k)
           && AcceptedAt(evs, n + 1, call, stage.user, k, t);
  }

  // ---- how stages come about ---------------------------------------------

  /** The one section that can bring a request to this stage. */
  predicate Brings(s: State, e: Event, call: nat, stage: Stage) {
    match stage
    case Checked(user) => e == CheckLogin(call, user, e.at) && !Lockout.IsLockedOut(s.lockouts, user, e.at).1
    case Peeked(user, id) => e == Peek(call, id, e.at) && Sessions.Live(s.challenges, id, e.at) && s.challenges[id].user == user
    case Cleared(user, id) =>
      e == CheckVerify(call, e.at) && call in s.pending && s.pending[call] == Peeked(user, id)
      && !Lockout.IsLockedOut(s.lockouts, user, e.at).1
    case Rejected(_) => true
    case Accepted(user, id) =>
      e.TryCode? && e.call == call && e.valid && call in s.pending && s.pending[call] == Cleared(user, id)
      && ReplayCache.ValidateTOTP(s.used, user, e.code, true, e.at).1
    case Consumed(user, id) => call in s.pending && s.pending[call] == Accepted(user, id)
    case Unblocked(user, id) => call in s.pending && s.pending[call] == Consumed(user, id)
  }

  lemma StageChanges(s: State, e: Event, call: nat)
    requires call in Step(s, e).pending
    ensures (call in s.pending && s.pending[call] == Step(s, e).pending[call]) || Brings(s, e, call, Step(s, e).pending[call])
  {
    hide Lockout.IsLockedOut, Lockout.RecordFailure, Lockout.ClearFailures, Lockout.Swept, ReplayCache.Swept, ReplayCache.Purged;
  }

  lemma BroughtIsTraced(evs: seq<Event>, n: nat, call: nat, stage: Stage)
    requires n < |evs| && Brings(StateAt(evs, n), evs[n], call, stage)
    requires call in StateAt(evs, n).pending ==> Traced(evs, n, call, StateAt(evs, n).pending[call])
    ensures Traced(evs, n + 1, call, stage)
  {
    hide StateAt, Traced;
    match stage
    case Checked(user) => TracedChecked(evs, n, call, user);
    case Peeked(user, id) => TracedPeeked(evs, n, call, user, id);
    case Cleared(user, id) => TracedCleared(evs, n, call, user, id);
    case Rejected(user) => RejectedIsTraced(evs, n + 1, call, user);
    case Accepted(user, id) => TracedAccepted(evs, n, call, user, id);
    case _ =>
      TracedLater(evs, n, call, StateAt(evs, n).pending[call]);
      TracedOn(evs, n + 1, call, StateAt(evs, n).pending[call], stage);
  }

  lemma RejectedIsTraced(evs: seq<Event>, n: nat, call: nat, user: string)
    requires n <= |evs|
    ensures Traced(evs, n, call, Rejected(user))
  {
  }

  lemma TracedChecked(evs: seq<Event>, n: nat, call: nat, user: string)
    requires n < |evs| && Brings(StateAt(evs, n), evs[n], call, Checked(user))
    ensures Traced(evs, n + 1, call, Checked(user))
  {
    hide StateAt;
    assert CheckedAt(evs, n + 1, call, user, n);
  }

  lemma TracedPeeked(evs: seq<Event>, n: nat, call: nat, user: string, id: string)
    requires n < |evs| && Brings(StateAt(evs, n), evs[n], call, Peeked(user, id))
    ensures Traced(evs, n + 1, call, Peeked(user, id))
  {
    hide StateAt;
    assert PeekedAt(evs, n + 1, call, user, id, n);
  }

  lemma TracedCleared(evs: seq<Event>, n: nat, call: nat, user: string, id: string)
    requires n < |evs| && Brings(StateAt(evs, n), evs[n], call, Cleared(user, id)) && Traced(evs, n, call, Peeked(user, id))
    ensures Traced(evs, n + 1, call, Cleared(user, id))
  {
    hide StateAt;
    var p :| PeekedAt(evs, n, call, user, id, p);
    assert PeekedAt(evs, n + 1, call, user, id, p) && ClearedAt(evs, n + 1, call, user, p, n);
  }

  lemma TracedAccepted(evs: seq<Event>, n: nat, call: nat, user: string, id: string)
    requires n < |evs| && Brings(StateAt(evs, n), evs[n], call, Accepted(user, id)) && Traced(evs, n, call, Cleared(user, id))
    ensures Traced(evs, n + 1, call, Accepted(user, id))
  {
    hide StateAt, ReplayCache.ValidateTOTP;
    var p, k :| PeekedAt(evs, n, call, user, id, p) && ClearedAt(evs, n, call, user, p, k);
    assert PeekedAt(evs, n + 1, call, user, id, p) && ClearedAt(evs, n + 1, call, user, p, k)
           && AcceptedAt(evs, n + 1, call, user, k, n);
  }

  /** From the accepted code on, the trace is carried along. */
  lemma TracedOn(evs: seq<Event>, n: nat, call: nat, stage: Stage, next: Stage)
    requires n <= |evs| && Traced(evs, n, call, stage) && (stage.Accepted? || stage.Consumed?)
    requires (next.Consumed? || next.Unblocked?) && next.user == stage.user && next.challenge == stage.challenge
    ensures Traced(evs, n, call, next)
  {
    hide StateAt;
  }

  lemma {:induction false} AllTraced(evs: seq<Event>, n: nat, call: nat)
    requires n <= |evs| && call in StateAt(evs, n).pending
    ensures Traced(evs, n, call, StateAt(evs, n).pending[call])
  {
    hide Step, Traced, Brings;
    if n > 0 {
      var s, e := StateAt(evs, n - 1), evs[n - 1];
      if call in s.pending {
        AllTraced(evs, n - 1, call);
      }
      StageChanges(s, e, call);
      if Brings(s, e, call, StateAt(evs, n).pending[call]) {
        BroughtIsTraced(evs, n - 1, call, StateAt(evs, n).pending[call]);
      } else {
        TracedLater(evs, n - 1, call, s.pending[call]);
      }
    }
  }

  // ---- challenges --------------------------------------------------------

  lemma ChallengeChanges(s: State, e: Event, id: string)
    requires id in Step(s, e).challenges
    ensures (id in s.challenges && s.challenges[id] == Step(s, e).challenges[id])
         || (e.PassLogin? && e.token == id && e.call in s.pending && s.pending[e.call].Checked?
             && Step(s, e).challenges[id] == Sessions.Entry(s.pending[e.call].user, e.at + Sessions.CHALLENGE_TTL))
  {
    hide Lockout.IsLockedOut, Lockout.RecordFailure, Lockout.ClearFailures, Lockout.Swept, ReplayCache.ValidateTOTP, ReplayCache.Swept;
  }

  lemma {:induction false} ChallengesIssued(evs: seq<Event>, n: nat, id: string) returns (i: nat)
    requires n <= |evs| && id in StateAt(evs, n).challenges
    ensures IssuedAt(evs, n, id, StateAt(evs, n).challenges[id], i)
  {
    hide Step;
    assert n > 0;
    var s, e := StateAt(evs, n - 1), evs[n - 1];
    ChallengeChanges(s, e, id);
    if id in s.challenges && s.challenges[id] == StateAt(evs, n).challenges[id] {
      i := ChallengesIssued(evs, n - 1, id);
    } else {
      i := n - 1;
    }
  }

  /** PROVENANCE WITH OVERLAPPING REQUESTS. However sections interleave, a session that is
      opened for a user goes back to a login of the same user, checked against the lock
      and with the right password, whose challenge was looked up within five minutes, and
      to a lock check and an accepted code of the request itself, in that order. */
  lemma SessionProvenance(evs: seq<Event>, j: nat) returns (a: nat, i: nat, p: nat, k: nat, t: nat)
    requires Clocked(evs) && j < |evs| && evs[j].Open? && Is(StateAt(evs, j), evs[j].call, Unblocking)
    ensures a < i < p < k < t < j
    ensures var call, user, id := evs[j].call, StateAt(evs, j).pending[evs[j].call].user, StateAt(evs, j).pending[evs[j].call].challenge;
            && evs[i].PassLogin? && evs[i].token == id && CheckedAt(evs, i, evs[i].call, user, a)
            && PeekedAt(evs, j, call, user, id, p) && 0 <= evs[p].at - evs[i].at <= 5 * MINUTE
            && ClearedAt(evs, j, call, user, p, k) && AcceptedAt(evs, j, call, user, k, t)
  {
    hide StateAt, CheckedAt, PeekedAt, ClearedAt, AcceptedAt;
    var call, stage := evs[j].call, StateAt(evs, j).pending[evs[j].call];
    AllTraced(evs, j, call);
    p, k, t :| PeekedAt(evs, j, call, stage.user, stage.challenge, p) && ClearedAt(evs, j, call, stage.user, p, k)
               && AcceptedAt(evs, j, call, stage.user, k, t);
    InOrder(evs, j, call, stage.user, p, k, t);
    a, i := IssuerOf(evs, j, call, stage.user, stage.challenge, p);
  }

  lemma InOrder(evs: seq<Event>, n: nat, call: nat, user: string, p: nat, k: nat, t: nat)
    requires n <= |evs| && ClearedAt(evs, n, call, user, p, k) && AcceptedAt(evs, n, call, user, k, t)
    ensures p < k < t < n
  {
  }

  /** The login behind a challenge that was looked up alive. */
  lemma IssuerOf(evs: seq<Event>, n: nat, call: nat, user: string, id: string, p: nat) returns (a: nat, i: nat)
    requires Clocked(evs) && n <= |evs| && PeekedAt(evs, n, call, user, id, p)
    ensures a < i < p < n && evs[i].PassLogin? && evs[i].token == id && CheckedAt(evs, i, evs[i].call, user, a)
    ensures 0 <= evs[p].at - evs[i].at <= 5 * MINUTE
  {
    hide StateAt;
    i := ChallengesIssued(evs, p, id);
    AllTraced(evs, i, evs[i].call);
    a :| CheckedAt(evs, i, evs[i].call, user, a);
  }
}
