/** What overlapping requests can do to the login protocol: sessions from one challenge,
    failures past a lock, and exactly when neither happens. */
module LoginRaces {
  import opened Common
  import opened LoginSections
  import Lockout
  import ReplayCache
  import Sessions

  // ---- sessions of one challenge -----------------------------------------

  predicate Through(p: Stage, id: string) {
    !p.Checked? && !p.Rejected? && p.challenge == id
  }

  /** The requests that have looked the challenge up and may still consume it. */
  function Users(s: State, id: string): set<nat> {
    set c | c in s.pending && Through(s.pending[c], id) && !s.pending[c].Consumed? && !s.pending[c].Unblocked?
  }

  /** And those that have consumed it and will open a session. */
  function Winners(s: State, id: string): set<nat> {
    set c | c in s.pending && Through(s.pending[c], id) && (s.pending[c].Consumed? || s.pending[c].Unblocked?)
  }

  predicate Consumes(s: State, e: Event, id: string) {
    e.Consume? && Is(s, e.call, Accepting) && s.pending[e.call].challenge == id
  }

  predicate Opens(s: State, e: Event, id: string) {
    e.Open? && Is(s, e.call, Unblocking) && s.pending[e.call].challenge == id
  }

  predicate Issues(s: State, e: Event, id: string) {
    e.PassLogin? && Is(s, e.call, Checking) && e.token == id
  }

  /** The challenge leaves the table: consumed, or found expired. */
  predicate Leaves(s: State, e: Event, id: string) {
    id in s.challenges && id !in Step(s, e).challenges
  }

  /** The other requests that have looked the challenge up when it leaves. */
  function SharedCount(s: State, e: Event, id: string): nat {
    if !Leaves(s, e, id) then 0 else |Users(s, id) - if e.Consume? then {e.call} else {}|
  }

  function OpensIn(s: State, evs: seq<Event>, id: string): nat
    decreases |evs|
  {
    if evs == [] then 0 else (if Opens(s, evs[0], id) then 1 else 0) + OpensIn(Step(s, evs[0]), evs[1..], id)
  }

  function IssuesIn(s: State, evs: seq<Event>, id: string): nat
    decreases |evs|
  {
    if evs == [] then 0 else (if Issues(s, evs[0], id) then 1 else 0) + IssuesIn(Step(s, evs[0]), evs[1..], id)
  }

  function SharedIn(s: State, evs: seq<Event>, id: string): nat
    decreases |evs|
  {
    if evs == [] then 0 else SharedCount(s, evs[0], id) + SharedIn(Step(s, evs[0]), evs[1..], id)
  }

  /** The requests still to open a session although the challenge has left the table. */
  ghost function Stale(s: State, id: string): set<nat> {
    if id in s.challenges then {} else Users(s, id)
  }

  /** Sessions that are open or sure to come, and those still possible. */
  ghost function Potential(s: State, id: string): nat {
    |Winners(s, id)| + |Stale(s, id)| + if id in s.challenges then 1 else 0
  }

  lemma SectionsOfOthers(s: State, e: Event, id: string)
    requires !Consumes(s, e, id) && !Opens(s, e, id)
    ensures Winners(Step(s, e), id) <= Winners(s, id)
    ensures !Leaves(s, e, id) ==> Stale(Step(s, e), id) <= Stale(s, id)
    ensures Leaves(s, e, id) ==> Stale(Step(s, e), id) <= Users(s, id) - if e.Consume? then {e.call} else {}
    ensures id !in s.challenges && id in Step(s, e).challenges ==> Issues(s, e, id)
  {
    hide Lockout.IsLockedOut, Lockout.RecordFailure, Lockout.ClearFailures, Lockout.Swept, ReplayCache.ValidateTOTP, ReplayCache.Swept;
  }

  lemma SectionsOfWinners(s: State, e: Event, id: string)
    requires Consumes(s, e, id) || Opens(s, e, id)
    ensures Opens(s, e, id) ==> Winners(Step(s, e), id) <= Winners(s, id) - {e.call} && e.call in Winners(s, id)
    ensures Opens(s, e, id) ==> Step(s, e).challenges == s.challenges && Users(Step(s, e), id) <= Users(s, id)
    ensures Consumes(s, e, id) ==> Winners(Step(s, e), id) <= Winners(s, id) + {e.call} && e.call in Users(s, id)
    ensures Consumes(s, e, id) ==> id !in Step(s, e).challenges && Users(Step(s, e), id) <= Users(s, id) - {e.call}
  {
  }

  lemma PotentialStep(s: State, e: Event, id: string)
    ensures Potential(Step(s, e), id) + (if Opens(s, e, id) then 1 else 0)
         <= Potential(s, id) + (if Issues(s, e, id) then 1 else 0) + SharedCount(s, e, id)
  {
    hide Step, Users, Winners, Is;
    var after := Step(s, e);
    if Consumes(s, e, id) || Opens(s, e, id) {
      SectionsOfWinners(s, e, id);
      if Opens(s, e, id) {
        Smaller(Winners(after, id), Winners(s, id) - {e.call});
        Smaller(Users(after, id), Users(s, id));
      } else {
        Smaller(Winners(after, id), Winners(s, id) + {e.call});
        Smaller(Users(after, id), Users(s, id) - {e.call});
      }
    } else {
      SectionsOfOthers(s, e, id);
      Smaller(Winners(after, id), Winners(s, id));
      if Leaves(s, e, id) {
        Smaller(Stale(after, id), Users(s, id) - if e.Consume? then {e.call} else {});
      } else {
        Smaller(Stale(after, id), Stale(s, id));
      }
    }
  }

  /** SESSIONS OF A CHALLENGE. One for each time it was issued, and at most one more for
      every other request that had looked it up when it left the table. */
  lemma {:induction false} SessionsOfChallenge(s: State, evs: seq<Event>, id: string)
    ensures OpensIn(s, evs, id) + Potential(Run(s, evs), id) <= Potential(s, id) + IssuesIn(s, evs, id) + SharedIn(s, evs, id)
    decreases |evs|
  {
    hide Step, Opens, Issues, SharedCount, Potential;
    if evs != [] {
      PotentialStep(s, evs[0], id);
      SessionsOfChallenge(Step(s, evs[0]), evs[1..], id);
    }
  }

  /** Random challenges never repeat. */
  ghost predicate FreshTokens(evs: seq<Event>) {
    forall i, j :: 0 <= i < j < |evs| && evs[i].PassLogin? && evs[j].PassLogin? ==> evs[i].token != evs[j].token
  }

  lemma {:induction false} IssuedOnce(s: State, evs: seq<Event>, id: string)
    requires FreshTokens(evs)
    ensures IssuesIn(s, evs, id) <= 1
    ensures (forall i :: 0 <= i < |evs| && evs[i].PassLogin? ==> evs[i].token != id) ==> IssuesIn(s, evs, id) == 0
    decreases |evs|
  {
    hide Step;
    if evs != [] {
      assert forall i :: 0 <= i < |evs| - 1 ==> evs[1..][i] == evs[i + 1];
      IssuedOnce(Step(s, evs[0]), evs[1..], id);
    }
  }

  lemma NothingPossible(id: string)
    ensures Potential(EMPTY, id) == 0
  {
    assert Winners(EMPTY, id) == {} && Users(EMPTY, id) == {};
  }

  /** ONE CHALLENGE, ONE SESSION, apart from the requests that shared it. */
  lemma SessionsPerChallenge(evs: seq<Event>, id: string)
    requires FreshTokens(evs)
    ensures OpensIn(EMPTY, evs, id) <= 1 + SharedIn(EMPTY, evs, id)
  {
    hide Run, OpensIn, IssuesIn, SharedIn, Potential;
    SessionsOfChallenge(EMPTY, evs, id);
    IssuedOnce(EMPTY, evs, id);
    NothingPossible(id);
  }

  // ---- requests that share a challenge -----------------------------------

  function Numbers(first: nat, n: nat): (r: set<nat>)
    ensures |r| == n && forall c :: c in r <==> first <= c < first + n
    decreases n
  {
    if n == 0 then {} else {first} + Numbers(first + 1, n - 1)
  }

  /** One request's sections up to its accepted code. */
  function Admit(call: nat, id: string, code: string): seq<Event> {
    [Peek(call, id, 0), CheckVerify(call, 0), TryCode(call, code, true, 0)]
  }

  /** And from there to its session. */
  function Finish(call: nat): seq<Event> {
    [Consume(call, 0), Unblock(call, 0), Event.Open(call, 0)]
  }

  function AdmitAll(first: nat, id: string, codes: seq<string>): (evs: seq<Event>)
    ensures forall i :: 0 <= i < |evs| ==> !evs[i].PassLogin? && evs[i].at == 0
    decreases |codes|
  {
    if codes == [] then [] else Admit(first, id, codes[0]) + AdmitAll(first + 1, id, codes[1..])
  }

  function FinishAll(first: nat, n: nat): (evs: seq<Event>)
    ensures forall i :: 0 <= i < |evs| ==> !evs[i].PassLogin? && evs[i].at == 0
    decreases n
  {
    if n == 0 then [] else Finish(first) + FinishAll(first + 1, n - 1)
  }

  lemma {:induction false} CountsSplit(s: State, a: seq<Event>, b: seq<Event>, id: string)
    ensures Run(s, a + b) == Run(Run(s, a), b)
    ensures OpensIn(s, a + b, id) == OpensIn(s, a, id) + OpensIn(Run(s, a), b, id)
    ensures SharedIn(s, a + b, id) == SharedIn(s, a, id) + SharedIn(Run(s, a), b, id)
    decreases |a|
  {
    hide Step, Opens, SharedCount;
    if a == [] {
      assert a + b == b;
    } else {
      assert (a + b)[1..] == a[1..] + b;
      CountsSplit(Step(s, a[0]), a[1..], b, id);
    }
  }

  lemma CountsStep(s: State, e: Event, rest: seq<Event>, id: string)
    ensures Run(s, [e] + rest) == Run(Step(s, e), rest)
    ensures OpensIn(s, [e] + rest, id) == (if Opens(s, e, id) then 1 else 0) + OpensIn(Step(s, e), rest, id)
    ensures SharedIn(s, [e] + rest, id) == SharedCount(s, e, id) + SharedIn(Step(s, e), rest, id)
  {
    hide Step, Opens, SharedCount;
    assert ([e] + rest)[1..] == rest;
  }

  lemma NothingMore(s: State, id: string)
    ensures Run(s, []) == s && OpensIn(s, [], id) == 0 && SharedIn(s, [], id) == 0
  {
  }

  lemma ThreeEvents(s: State, a: Event, b: Event, c: Event, id: string)
    ensures Run(s, [a, b, c]) == Step(Step(Step(s, a), b), c)
    ensures OpensIn(s, [a, b, c], id)
         == (if Opens(s, a, id) then 1 else 0) + (if Opens(Step(s, a), b, id) then 1 else 0)
            + (if Opens(Step(Step(s, a), b), c, id) then 1 else 0)
    ensures SharedIn(s, [a, b, c], id)
         == SharedCount(s, a, id) + SharedCount(Step(s, a), b, id) + SharedCount(Step(Step(s, a), b), c, id)
  {
    hide Step, Opens, SharedCount, Run, OpensIn, SharedIn;
    assert [a, b, c] == [a] + ([b] + ([c] + []));
    CountsStep(s, a, [b] + ([c] + []), id);
    CountsStep(Step(s, a), b, [c] + [], id);
    CountsStep(Step(Step(s, a), b), c, [], id);
    NothingMore(Step(Step(Step(s, a), b), c), id);
  }

  /** The challenge is live, the account is open and these codes have not been used. */
  ghost predicate Ready(s: State, user: string, id: string, codes: seq<string>) {
    && Sessions.Live(s.challenges, id, 0) && s.challenges[id].user == user && user !in s.lockouts
    && (forall code :: code in codes ==> user !in s.used || code !in s.used[user])
  }

  /** A section that keeps the challenge and opens no session. */
  predicate Plain(s: State, e: Event, id: string) {
    !Opens(s, e, id) && SharedCount(s, e, id) == 0
  }

  lemma PeekSection(s: State, call: nat, user: string, id: string)
    requires Sessions.Live(s.challenges, id, 0) && s.challenges[id].user == user && call !in s.pending
    ensures Step(s, Peek(call, id, 0)) == s.(pending := s.pending[call := Peeked(user, id)]) && Plain(s, Peek(call, id, 0), id)
  {
  }

  lemma CheckSection(s: State, call: nat, user: string, id: string)
    requires call in s.pending && s.pending[call] == Peeked(user, id) && user !in s.lockouts
    ensures Step(s, CheckVerify(call, 0)) == s.(pending := s.pending[call := Cleared(user, id)]) && Plain(s, CheckVerify(call, 0), id)
  {
  }

  lemma CodeSection(s: State, call: nat, user: string, id: string, code: string)
    requires call in s.pending && s.pending[call] == Cleared(user, id) && (user !in s.used || code !in s.used[user])
    ensures var e := TryCode(call, code, true, 0);
            && Step(s, e) == s.(pending := s.pending[call := Accepted(user, id)], used := Step(s, e).used) && Plain(s, e, id)
            && forall x :: x != code && (user !in s.used || x !in s.used[user]) ==> user !in Step(s, e).used || x !in Step(s, e).used[user]
  {
  }

  lemma AdmitOne(s: State, call: nat, user: string, id: string, code: string, rest: seq<string>)
    requires Ready(s, user, id, [code] + rest) && code !in rest && call !in s.pending
    ensures var s' := Run(s, Admit(call, id, code));
            && Ready(s', user, id, rest) && s'.pending == s.pending[call := Accepted(user, id)]
            && OpensIn(s, Admit(call, id, code), id) == 0 && SharedIn(s, Admit(call, id, code), id) == 0
  {
    hide Step, Opens, SharedCount, Run, OpensIn, SharedIn;
    assert code in [code] + rest && forall x :: x in rest ==> x in [code] + rest;
    var s1 := Step(s, Peek(call, id, 0));
    var s2 := Step(s1, CheckVerify(call, 0));
    ThreeEvents(s, Peek(call, id, 0), CheckVerify(call, 0), TryCode(call, code, true, 0), id);
    PeekSection(s, call, user, id);
    CheckSection(s1, call, user, id);
    CodeSection(s2, call, user, id, code);
  }

  ghost predicate Distinct(codes: seq<string>) {
    forall i, j :: 0 <= i < j < |codes| ==> codes[i] != codes[j]
  }

  lemma DistinctTail(codes: seq<string>)
    requires Distinct(codes) && codes != []
    ensures codes[0] !in codes[1..] && Distinct(codes[1..]) && [codes[0]] + codes[1..] == codes
  {
  }

  lemma ReadyIsLive(s: State, user: string, id: string, codes: seq<string>)
    requires Ready(s, user, id, codes)
    ensures id in s.challenges
  {
  }

  ghost predicate AllAccepted(s: State, first: nat, n: nat, user: string, id: string) {
    && s.pending.Keys == Numbers(first, n)
    && (forall c :: c in s.pending ==> s.pending[c] == Accepted(user, id))
  }

  lemma OneMoreAccepted(s: State, after: State, n: nat, user: string, id: string)
    requires AllAccepted(s, 1, n, user, id) && after.pending == s.pending[n + 1 := Accepted(user, id)]
    ensures n + 1 !in s.pending && AllAccepted(after, 1, n + 1, user, id)
  {
  }

  lemma NotYetAccepted(s: State, n: nat, user: string, id: string)
    requires AllAccepted(s, 1, n, user, id)
    ensures n + 1 !in s.pending
  {
  }

  lemma {:induction false} AdmitsAll(s: State, n: nat, user: string, id: string, codes: seq<string>)
    requires Ready(s, user, id, codes) && Distinct(codes) && AllAccepted(s, 1, n, user, id)
    ensures var evs, after := AdmitAll(n + 1, id, codes), Run(s, AdmitAll(n + 1, id, codes));
            && id in after.challenges && AllAccepted(after, 1, n + |codes|, user, id)
            && OpensIn(s, evs, id) == 0 && SharedIn(s, evs, id) == 0
    decreases |codes|
  {
    hide Step, Opens, SharedCount, Distinct, Run, OpensIn, SharedIn, Ready, AllAccepted;
    if codes == [] {
      NothingMore(s, id);
      ReadyIsLive(s, user, id, codes);
      assert AdmitAll(n + 1, id, codes) == [];
    } else {
      DistinctTail(codes);
      NotYetAccepted(s, n, user, id);
      AdmitOne(s, n + 1, user, id, codes[0], codes[1..]);
      var next := Run(s, Admit(n + 1, id, codes[0]));
      OneMoreAccepted(s, next, n, user, id);
      CountsSplit(s, Admit(n + 1, id, codes[0]), AdmitAll(n + 2, id, codes[1..]), id);
      AdmitsAll(next, n + 1, user, id, codes[1..]);
    }
  }

  lemma ConsumeSection(s: State, first: nat, n: nat, user: string, id: string)
    requires n > 0 && AllAccepted(s, first, n, user, id)
    ensures var e := Consume(first, 0);
            && Step(s, e) == s.(challenges := s.challenges - {id}, pending := s.pending[first := Consumed(user, id)])
            && !Opens(s, e, id) && SharedCount(s, e, id) == if id in s.challenges then n - 1 else 0
  {
    assert first in s.pending && s.pending[first] == Accepted(user, id);
    assert Users(s, id) - {first} == Numbers(first + 1, n - 1);
  }

  lemma UnblockSection(s: State, call: nat, user: string, id: string)
    requires call in s.pending && s.pending[call] == Consumed(user, id)
    ensures Step(s, Unblock(call, 0)) == s.(lockouts := s.lockouts - {user}, pending := s.pending[call := Unblocked(user, id)])
    ensures Plain(s, Unblock(call, 0), id)
  {
  }

  lemma OpenSection(s: State, call: nat, user: string, id: string)
    requires call in s.pending && s.pending[call] == Unblocked(user, id)
    ensures Step(s, Event.Open(call, 0)) == s.(pending := s.pending - {call})
    ensures Opens(s, Event.Open(call, 0), id) && SharedCount(s, Event.Open(call, 0), id) == 0
  {
  }

  lemma FinishOne(s: State, first: nat, n: nat, user: string, id: string)
    requires n > 0 && AllAccepted(s, first, n, user, id)
    ensures var s' := Run(s, Finish(first));
            && AllAccepted(s', first + 1, n - 1, user, id) && id !in s'.challenges
            && OpensIn(s, Finish(first), id) == 1
            && SharedIn(s, Finish(first), id) == if id in s.challenges then n - 1 else 0
  {
    hide Step, Opens, SharedCount, Run, OpensIn, SharedIn, AllAccepted;
    var s1 := Step(s, Consume(first, 0));
    var s2 := Step(s1, Unblock(first, 0));
    ThreeEvents(s, Consume(first, 0), Unblock(first, 0), Event.Open(first, 0), id);
    ConsumeSection(s, first, n, user, id);
    UnblockSection(s1, first, user, id);
    OpenSection(s2, first, user, id);
    OneLessAccepted(s, Step(s2, Event.Open(first, 0)), first, n, user, id);
  }

  lemma OneLessAccepted(s: State, after: State, first: nat, n: nat, user: string, id: string)
    requires n > 0 && AllAccepted(s, first, n, user, id)
    requires after.pending == s.pending[first := Consumed(user, id)][first := Unblocked(user, id)] - {first}
    ensures AllAccepted(after, first + 1, n - 1, user, id)
  {
  }

  lemma {:induction false} FinishesAll(s: State, first: nat, n: nat, user: string, id: string)
    requires AllAccepted(s, first, n, user, id)
    ensures OpensIn(s, FinishAll(first, n), id) == n
    ensures SharedIn(s, FinishAll(first, n), id) == if id in s.challenges && n > 0 then n - 1 else 0
    decreases n
  {
    hide Step, Opens, SharedCount, AllAccepted;
    if n > 0 {
      FinishOne(s, first, n, user, id);
      CountsSplit(s, Finish(first), FinishAll(first + 1, n - 1), id);
      FinishesAll(Run(s, Finish(first)), first + 1, n - 1, user, id);
    }
  }

  /** One login, and one verification for each code, all past their code before the first
      consumes the challenge. */
  function SharedChallenge(user: string, id: string, codes: seq<string>): seq<Event> {
    [CheckLogin(0, user, 0), PassLogin(0, id, 0)] + (AdmitAll(1, id, codes) + FinishAll(1, |codes|))
  }

  lemma LoginFirst(user: string, id: string, codes: seq<string>)
    ensures var login := [CheckLogin(0, user, 0), PassLogin(0, id, 0)];
            && Ready(Run(EMPTY, login), user, id, codes) && Run(EMPTY, login).pending == map[]
            && OpensIn(EMPTY, login, id) == 0 && SharedIn(EMPTY, login, id) == 0
  {
    var a, b := CheckLogin(0, user, 0), PassLogin(0, id, 0);
    FirstTwoSections(user, id);
    hide Step, Opens, SharedCount, Run, OpensIn, SharedIn;
    assert [a, b] == [a] + ([b] + []);
    CountsStep(EMPTY, a, [b] + [], id);
    CountsStep(Step(EMPTY, a), b, [], id);
    NothingMore(Step(Step(EMPTY, a), b), id);
  }

  lemma FirstTwoSections(user: string, id: string)
    ensures var (a, b) := (CheckLogin(0, user, 0), PassLogin(0, id, 0));
            && Plain(EMPTY, a, id) && Plain(Step(EMPTY, a), b, id)
            && Step(Step(EMPTY, a), b)
            == State(map[id := Sessions.Entry(user, Sessions.CHALLENGE_TTL)], map[], map[], map[])
  {
    var s1 := Step(EMPTY, CheckLogin(0, user, 0));
    assert s1 == EMPTY.(pending := map[0 := Checked(user)]);
    assert s1.pending - {0} == map[];
  }

  /** THE BOUND IS TIGHT. As many different codes as one likes open as many sessions through
      one challenge, if all of them are accepted before it is consumed. */
  lemma SharingIsTight(user: string, id: string, codes: seq<string>)
    requires Distinct(codes) && codes != []
    ensures var evs := SharedChallenge(user, id, codes);
            && FreshTokens(evs) && Clocked(evs) && SharedIn(EMPTY, evs, id) == |codes| - 1 && OpensIn(EMPTY, evs, id) == |codes|
  {
    hide Run, OpensIn, SharedIn, AdmitAll, FinishAll, Ready, Step, AllAccepted;
    var login, admits, finishes := [CheckLogin(0, user, 0), PassLogin(0, id, 0)], AdmitAll(1, id, codes), FinishAll(1, |codes|);
    LoginFirst(user, id, codes);
    var s := Run(EMPTY, login);
    NoneAccepted(s, user, id);
    AdmitsAll(s, 0, user, id, codes);
    FinishesAll(Run(s, admits), 1, |codes|, user, id);
    CountsSplit(EMPTY, login, admits + finishes, id);
    CountsSplit(s, admits, finishes, id);
    OneLogin(login, admits + finishes);
  }

  lemma NoneAccepted(s: State, user: string, id: string)
    requires s.pending == map[]
    ensures AllAccepted(s, 1, 0, user, id)
  {
  }

  lemma OneLogin(login: seq<Event>, rest: seq<Event>)
    requires |login| == 2 && login[0].CheckLogin? && login[0].at == 0 && login[1].at == 0
    requires forall i :: 0 <= i < |rest| ==> !rest[i].PassLogin? && rest[i].at == 0
    ensures FreshTokens(login + rest) && Clocked(login + rest)
  {
    assert forall i :: 2 <= i < |login + rest| ==> (login + rest)[i] == rest[i - 2];
  }

  ghost predicate AlwaysOne() {
    forall evs, id :: FreshTokens(evs) && Clocked(evs) ==> OpensIn(EMPTY, evs, id) <= 1
  }

  ghost predicate OneUnlessShared() {
    forall evs, id :: FreshTokens(evs) && Clocked(evs) && SharedIn(EMPTY, evs, id) == 0 ==> OpensIn(EMPTY, evs, id) <= 1
  }

  /** WHEN A CHALLENGE OPENS ONE SESSION: not over all runs, but over all in which no other
      request has looked the challenge up when it leaves the table. */
  lemma OneExactlyWhen()
    ensures !AlwaysOne() && OneUnlessShared()
  {
    hide OpensIn, SharedIn, SharedChallenge, FreshTokens, Clocked;
    var codes := ["000000", "111111"];
    assert "000000"[0] != "111111"[0];
    SharingIsTight("", "", codes);
    assert OpensIn(EMPTY, SharedChallenge("", "", codes), "") == 2;
    forall evs, id | FreshTokens(evs) && Clocked(evs) && SharedIn(EMPTY, evs, id) == 0 ensures OpensIn(EMPTY, evs, id) <= 1 {
      SessionsPerChallenge(evs, id);
    }
  }

  // ---- a code is used once, whatever overlaps ----------------------------

  predicate Accepts(s: State, e: Event, user: string, code: string) {
    && e.TryCode? && Is(s, e.call, Clearing) && s.pending[e.call].user == user && e.code == code
    && ReplayCache.ValidateTOTP(s.used, user, code, e.valid, e.at).1
  }

  predicate Remembered(used: ReplayCache.Used, user: string, code: string, until: int) {
    user in used && code in used[user] && until <= used[user][code]
  }

  lemma AcceptedOnce(s: State, e: Event, user: string, code: string)
    requires Accepts(s, e, user, code)
    ensures Remembered(Step(s, e).used, user, code, e.at + ReplayCache.CODE_LIFETIME)
    ensures !Remembered(s.used, user, code, e.at)
  {
  }

  lemma StaysRemembered(s: State, e: Event, user: string, code: string, until: int)
    requires Remembered(s.used, user, code, until) && e.at <= until
    ensures Remembered(Step(s, e).used, user, code, until)
  {
    hide Lockout.IsLockedOut, Lockout.RecordFailure, Lockout.ClearFailures, Lockout.Swept, Sessions.Lookup, Sessions.Swept;
    if e.SweepCodes? {
      assert code in ReplayCache.Purged(s.used[user], e.at);
    }
  }

  lemma {:induction false} RememberedThrough(s: State, evs: seq<Event>, user: string, code: string, until: int)
    requires Remembered(s.used, user, code, until) && forall i :: 0 <= i < |evs| ==> evs[i].at <= until
    ensures Remembered(Run(s, evs).used, user, code, until)
    decreases |evs|
  {
    hide Step, Remembered;
    if evs != [] {
      StaysRemembered(s, evs[0], user, code, until);
      RememberedThrough(Step(s, evs[0]), evs[1..], user, code, until);
    }
  }

  /** ONE-TIME CODES survive every interleaving: a code string is accepted for a user again
      only more than ninety seconds later. */
  lemma CodesAreOneTime(s: State, first: Event, between: seq<Event>, second: Event, user: string, code: string)
    requires Accepts(s, first, user, code) && Accepts(Run(Step(s, first), between), second, user, code)
    requires Clocked([first] + between + [second])
    ensures second.at > first.at + 90 * SECOND
  {
    assert !second.IsSweep();
    hide Step, Remembered, Accepts, Clocked;
    ClockedEnds(first, between, second);
    AcceptedOnce(s, first, user, code);
    if second.at <= first.at + ReplayCache.CODE_LIFETIME {
      RememberedThrough(Step(s, first), between, user, code, first.at + ReplayCache.CODE_LIFETIME);
      AcceptedOnce(Run(Step(s, first), between), second, user, code);
      RememberedLess(Run(Step(s, first), between), user, code, first.at + ReplayCache.CODE_LIFETIME, second.at);
    }
  }

  lemma RememberedLess(s: State, user: string, code: string, until: int, sooner: int)
    requires Remembered(s.used, user, code, until) && sooner <= until
    ensures Remembered(s.used, user, code, sooner)
  {
  }

  lemma ClockedEnds(first: Event, between: seq<Event>, second: Event)
    requires Clocked([first] + between + [second]) && !second.IsSweep()
    ensures forall i :: 0 <= i < |between| ==> between[i].at <= second.at
  {
    var evs := [first] + between + [second];
    assert evs[|between| + 1] == second;
    assert forall i :: 0 <= i < |between| ==> evs[i + 1] == between[i];
  }

  // ---- requests that overlap a lock --------------------------------------

  /** Logins that pass the lock check, and then fail on the password. */
  function Checks(first: nat, n: nat, user: string): (evs: seq<Event>)
    ensures |evs| == n && forall i :: 0 <= i < n ==> evs[i].at == 0
    decreases n
  {
    if n == 0 then [] else [CheckLogin(first, user, 0)] + Checks(first + 1, n - 1, user)
  }

  function Fails(first: nat, n: nat): (evs: seq<Event>)
    ensures |evs| == n && forall i :: 0 <= i < n ==> evs[i].at == 0
    decreases n
  {
    if n == 0 then [] else [Event.Fail(first, 0)] + Fails(first + 1, n - 1)
  }

  lemma OneCheck(s: State, call: nat, user: string)
    requires user !in s.lockouts && call !in s.pending
    ensures var e := CheckLogin(call, user, 0);
            && Step(s, e) == s.(pending := s.pending[call := Checked(user)])
            && !FailsFor(s, e, user) && !Unblocks(s, e, user) && HeldCount(s, e, user) == 0
  {
  }

  lemma {:induction false} ChecksPass(s: State, first: nat, n: nat, user: string)
    requires user !in s.lockouts && forall c :: c in s.pending ==> c < first
    ensures var s', evs := Run(s, Checks(first, n, user)), Checks(first, n, user);
            && s'.lockouts == s.lockouts && (forall c :: c in s'.pending <==> c in s.pending || first <= c < first + n)
            && (forall c :: first <= c < first + n ==> s'.pending[c] == Checked(user))
            && (forall c :: c in s.pending ==> s'.pending[c] == s.pending[c])
            && Failures(s, evs, user) == 0 && HeldIn(s, evs, user) == 0 && NoLogin(s, evs, user)
    decreases n
  {
    hide Step, FailsFor, Unblocks, HeldCount;
    if n > 0 {
      var evs := Checks(first, n, user);
      OneCheck(s, first, user);
      assert evs[0] == CheckLogin(first, user, 0) && evs[1..] == Checks(first + 1, n - 1, user);
      ChecksPass(Step(s, evs[0]), first + 1, n - 1, user);
    }
  }

  ghost predicate AllChecked(s: State, first: nat, n: nat, user: string) {
    && (forall c :: c in s.pending <==> first <= c < first + n)
    && (forall c :: c in s.pending ==> s.pending[c] == Checked(user))
  }

  /** So many failures are on record, and the fifth has locked the account. */
  predicate Recorded(t: Lockout.Table, user: string, f: nat) {
    if user !in t then f == 0 else t[user].failures == f && (t[user].lockedAt.Some? <==> f >= 5)
  }

  lemma FailureRecorded(s: State, call: nat, user: string, f: nat)
    requires call in s.pending && s.pending[call] == Checked(user) && Recorded(s.lockouts, user, f)
    ensures var e := Event.Fail(call, 0);
            && FailsFor(s, e, user) && !Unblocks(s, e, user) && (Locks(s, e, user) <==> f == 4)
            && Step(s, e).pending == s.pending - {call} && Recorded(Step(s, e).lockouts, user, f + 1)
  {
  }

  lemma OneFailure(s: State, first: nat, n: nat, user: string, f: nat)
    requires n > 0 && AllChecked(s, first, n, user) && Recorded(s.lockouts, user, f)
    ensures var e := Event.Fail(first, 0);
            && FailsFor(s, e, user) && !Unblocks(s, e, user)
            && AllChecked(Step(s, e), first + 1, n - 1, user) && Recorded(Step(s, e).lockouts, user, f + 1)
            && HeldCount(s, e, user) == if f == 4 then n - 1 else 0
  {
    hide Step, FailsFor, Unblocks, Locks, Recorded, MayFail;
    OthersMayFail(s, first, n, user);
    FailureRecorded(s, first, user, f);
  }

  lemma OthersMayFail(s: State, first: nat, n: nat, user: string)
    requires n > 0 && AllChecked(s, first, n, user)
    ensures |MayFail(s, user) - {first}| == n - 1
  {
    assert MayFail(s, user) - {first} == Numbers(first + 1, n - 1);
  }

  lemma {:induction false} FailsAll(s: State, first: nat, n: nat, user: string, f: nat)
    requires AllChecked(s, first, n, user) && Recorded(s.lockouts, user, f)
    ensures var evs := Fails(first, n);
            && Failures(s, evs, user) == n && NoLogin(s, evs, user)
            && HeldIn(s, evs, user) == if f < 5 <= f + n then n - (5 - f) else 0
    decreases n
  {
    hide Step, AllChecked, Recorded, FailsFor, HeldCount, Unblocks;
    if n > 0 {
      var evs := Fails(first, n);
      assert evs[0] == Event.Fail(first, 0) && evs[1..] == Fails(first + 1, n - 1);
      OneFailure(s, first, n, user, f);
      FailsAll(Step(s, evs[0]), first + 1, n - 1, user, f + 1);
    }
  }

  function OverlappingLogins(n: nat, user: string): seq<Event> {
    Checks(0, 5 + n, user) + Fails(0, 5 + n)
  }

  lemma {:induction false} NoLoginSplits(s: State, a: seq<Event>, b: seq<Event>, user: string)
    requires NoLogin(s, a, user) && NoLogin(Run(s, a), b, user)
    ensures NoLogin(s, a + b, user)
    decreases |a|
  {
    hide Step, Unblocks;
    if a == [] {
      assert a + b == b;
    } else {
      assert (a + b)[1..] == a[1..] + b;
      NoLoginSplits(Step(s, a[0]), a[1..], b, user);
    }
  }

  /** THE BOUND IS TIGHT. However many requests are past their check when the account is
      locked, all of their failures can be recorded at that instant. */
  lemma OverlapIsTight(n: nat, user: string)
    ensures var evs := OverlappingLogins(n, user);
            && Window([], evs, user, 0, 0) && HeldIn(EMPTY, [] + evs, user) == n
            && Failures(Run(EMPTY, []), evs, user) == 5 * ((0 - 0) / (15 * MINUTE) + 1) + n
  {
    hide Run, Failures, HeldIn, NoLogin, Checks, Fails, Clocked;
    var checks, fails := Checks(0, 5 + n, user), Fails(0, 5 + n);
    ChecksPass(EMPTY, 0, 5 + n, user);
    FailsAll(Run(EMPTY, checks), 0, 5 + n, user, 0);
    RunSplits(EMPTY, checks, fails, user);
    NoLoginSplits(EMPTY, checks, fails, user);
    assert forall i :: 0 <= i < |checks + fails| ==> (checks + fails)[i].at == 0;
    AtOneInstant(checks + fails);
    NothingRun(checks + fails);
  }

  lemma AtOneInstant(evs: seq<Event>)
    requires forall i :: 0 <= i < |evs| ==> evs[i].at == 0
    ensures Clocked(evs)
  {
  }

  lemma NothingRun(evs: seq<Event>)
    ensures [] + evs == evs && Run(EMPTY, []) == EMPTY
  {
  }

  /** At most five failures for every fifteen minutes begun, without a login between. */
  ghost predicate FiveFailures(before: seq<Event>, window: seq<Event>, user: string, start: int, end: int) {
    Failures(Run(EMPTY, before), window, user) <= 5 * ((end - start) / (15 * MINUTE) + 1)
  }

  ghost predicate AlwaysFive() {
    forall before, window, user, start, end :: Window(before, window, user, start, end) ==> FiveFailures(before, window, user, start, end)
  }

  ghost predicate FiveUnlessHeld() {
    forall before, window, user, start, end ::
      Window(before, window, user, start, end) && HeldIn(EMPTY, before + window, user) == 0 ==>
        FiveFailures(before, window, user, start, end)
  }

  /** WHEN FIVE FAILURES LOCK: not over all runs, but over all in which no other request
      is past its check when the account is locked. */
  lemma FiveExactlyWhen()
    ensures !AlwaysFive() && FiveUnlessHeld()
  {
    hide Window, Failures, HeldIn, Run, OverlappingLogins;
    OverlapIsTight(1, "");
    var none: seq<Event>, evs := [], OverlappingLogins(1, "");
    assert Window(none, evs, "", 0, 0) && !FiveFailures(none, evs, "", 0, 0);
    forall before, window, user, start, end |
      Window(before, window, user, start, end) && HeldIn(EMPTY, before + window, user) == 0
      ensures FiveFailures(before, window, user, start, end)
    {
      LockoutBound(before, window, user, start, end);
    }
  }
}
