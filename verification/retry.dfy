/** Retries of upstream requests (proxy/proxy.go): how often a request is sent, what is
    returned, and which response bodies are closed. The upstream is a script that says
    what each attempt yields. */
module Retry {
  import opened Common

  /** What one attempt yields. A transport may return a response beside its error. */
  datatype Attempt = Reply(status: int) | Failure | FailureWithReply(status: int)

  type Script = nat -> Attempt

  predicate Safe(httpMethod: string) {
    httpMethod == "GET" || httpMethod == "HEAD" || httpMethod == "OPTIONS"
  }

  predicate ShouldRetry(httpMethod: string, status: int) {
    Safe(httpMethod) && (status == 502 || status == 503 || status == 504)
  }

  predicate HasBody(a: Attempt) {
    a.Reply? || a.FailureWithReply?
  }

  /** A response that is returned at once, whichever attempt it is. */
  predicate Final(httpMethod: string, a: Attempt) {
    HasBody(a) && !ShouldRetry(httpMethod, a.status)
  }

  function Attempts(httpMethod: string, retryCount: int): int {
    if Safe(httpMethod) then 1 + retryCount else 1
  }

  /** The attempts before the n-th that brought a body, in order. */
  function Bodies(script: Script, n: nat): seq<nat> {
    if n == 0 then [] else Bodies(script, n - 1) + if HasBody(script(n - 1)) then [n - 1] else []
  }

  /** In ascending order, so no number twice. */
  predicate Once(closed: seq<nat>) {
    forall i, j :: 0 <= i < j < |closed| ==> closed[i] < closed[j]
  }

  lemma {:induction false} BodiesOnce(script: Script, n: nat)
    ensures Once(Bodies(script, n))
    ensures forall j: nat :: j in Bodies(script, n) <==> j < n && HasBody(script(j))
  {
    hide HasBody;
    if n > 0 {
      var before := Bodies(script, n - 1);
      BodiesOnce(script, n - 1);
      forall i | 0 <= i < |before| ensures before[i] < n - 1 {
        assert before[i] in before;
      }
    }
  }

  /** Sends the request until a response is final or the attempts are used up. `closed`
      lists the closing of bodies as it happens; a body is known by its attempt. */
  method RoundTrip(httpMethod: string, retryCount: int, script: Script)
    returns (returned: Option<nat>, error: Option<nat>, sent: nat, closed: seq<nat>)
    // how often it is sent
    ensures 0 < Attempts(httpMethod, retryCount) ==> 1 <= sent <= Attempts(httpMethod, retryCount)
    ensures Attempts(httpMethod, retryCount) <= 0 ==> sent == 0
    ensures forall i :: 0 <= i < sent - 1 ==> !Final(httpMethod, script(i))
    ensures sent < Attempts(httpMethod, retryCount) ==> 0 < sent && Final(httpMethod, script(sent - 1))
    // what comes back
    ensures returned.Some? <==> sent > 0 && (script(sent - 1).Reply? || Final(httpMethod, script(sent - 1)))
    ensures returned.Some? ==> returned.value == sent - 1
    ensures error.Some? <==> sent > 0 && returned.None?
    ensures error.Some? ==> error.value == sent - 1 && !script(sent - 1).Reply?
    // bodies
    ensures closed == Bodies(script, if returned.Some? then returned.value else sent)
  {
    var attempts := 1;
    if Safe(httpMethod) {
      attempts := attempts + retryCount;
    }
    var lastErr: Option<nat> := None;
    sent, closed := 0, [];
    var attempt := 0;
    while attempt < attempts
      invariant attempt == sent && (0 <= attempts ==> attempt <= attempts) && (attempts < 0 ==> attempt == 0)
      invariant forall i :: 0 <= i < sent ==> !Final(httpMethod, script(i))
      invariant closed == Bodies(script, sent) && (sent == 0 ==> lastErr == None)
      invariant 0 < sent == attempts ==> lastErr == Some(sent - 1) && !script(sent - 1).Reply?
    {
      var r := script(attempt);
      sent := sent + 1;
      var isLastAttempt := attempt == attempts - 1;
      if r.Reply? && (!ShouldRetry(httpMethod, r.status) || isLastAttempt) {
        return Some(attempt), None, sent, closed;
      }
      if HasBody(r) {
        if !ShouldRetry(httpMethod, r.status) {
          return Some(attempt), None, sent, closed;
        }
        closed := closed + [attempt];
      }
      lastErr := if r.Reply? then None else Some(attempt);
      attempt := attempt + 1;
    }
    return None, lastErr, sent, closed;
  }

  /** The outcome as a value: the attempt that decides and what it gives back. */
  datatype Outcome = Returned(attempt: nat) | Error(attempt: nat) | Neither

  /** The simple form: the first final attempt decides, or else the last one. */
  function Decide(httpMethod: string, n: int, script: Script, from: nat): Outcome
    decreases n - from
  {
    if from >= n then Neither
    else if Final(httpMethod, script(from)) then Returned(from)
    else if from == n - 1 then (if script(from).Reply? then Returned(from) else Error(from))
    else Decide(httpMethod, n, script, from + 1)
  }

  /** NEITHER RESPONSE NOR ERROR comes back exactly when a safe request has a negative
      retry count, and then nothing was sent. */
  lemma NothingAtAll(httpMethod: string, retryCount: int, script: Script)
    ensures Decide(httpMethod, Attempts(httpMethod, retryCount), script, 0) == Neither <==> Safe(httpMethod) && retryCount < 0
  {
    DecideIsDecided(httpMethod, Attempts(httpMethod, retryCount), script, 0);
  }

  lemma {:induction false} DecideIsDecided(httpMethod: string, n: int, script: Script, from: nat)
    ensures Decide(httpMethod, n, script, from) == Neither <==> from >= n
    decreases n - from
  {
    if from < n - 1 && !Final(httpMethod, script(from)) {
      DecideIsDecided(httpMethod, n, script, from + 1);
    }
  }

  lemma {:induction false} DecideWithin(httpMethod: string, n: int, script: Script, from: nat)
    requires from < n
    ensures Decide(httpMethod, n, script, from) != Neither && from <= Decide(httpMethod, n, script, from).attempt < n
    decreases n - from
  {
    if from < n - 1 && !Final(httpMethod, script(from)) {
      DecideWithin(httpMethod, n, script, from + 1);
    }
  }

  lemma {:induction false} DecideSkips(httpMethod: string, n: int, script: Script, from: nat, upTo: nat)
    requires from <= upTo < n && forall i :: from <= i < upTo ==> !Final(httpMethod, script(i))
    ensures Decide(httpMethod, n, script, from) == Decide(httpMethod, n, script, upTo)
    decreases upTo - from
  {
    if from < upTo {
      DecideSkips(httpMethod, n, script, from + 1, upTo);
    }
  }

  /** The loop computes the simple form, closes every other body it received exactly
      once, and closes no other. */
  method Send(httpMethod: string, retryCount: int, script: Script) returns (o: Outcome, sent: nat, closed: seq<nat>)
    ensures o == Decide(httpMethod, Attempts(httpMethod, retryCount), script, 0)
    ensures sent == (if o == Neither then 0 else o.attempt + 1)
    // only an answer that asks for another try is passed over, and only of a method that may be sent again
    ensures forall i: nat :: i + 1 < sent && HasBody(script(i)) ==>
              script(i).status in [502, 503, 504] && httpMethod in ["GET", "HEAD", "OPTIONS"]
    ensures sent > 1 ==> httpMethod in ["GET", "HEAD", "OPTIONS"]
    ensures httpMethod in ["GET", "HEAD", "OPTIONS"] && o.Returned? && HasBody(script(o.attempt)) ==>
              script(o.attempt).status in [502, 503, 504] ==> sent == 1 + retryCount
    ensures !Safe(httpMethod) ==> o == (if HasBody(script(0)) then Returned(0) else Error(0))
    ensures Once(closed)
    ensures forall j: nat :: j in closed <==> j < sent && HasBody(script(j)) && o != Returned(j)
  {
    var returned, error;
    returned, error, sent, closed := RoundTrip(httpMethod, retryCount, script);
    DecideIsDecided(httpMethod, Attempts(httpMethod, retryCount), script, 0);
    if sent > 0 {
      DecideSkips(httpMethod, Attempts(httpMethod, retryCount), script, 0, sent - 1);
    }
    BodiesOnce(script, if returned.Some? then returned.value else sent);
    o := if returned.Some? then Returned(returned.value) else if error.Some? then Error(error.value) else Neither;
  }
}
