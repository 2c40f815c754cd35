/** Where the limiter's promise ends: runs in which the sweeper drops a bucket, with and
    without calls that still hold it, and exactly which rules keep which promise. */
module RateLimiterRaces {
  import opened RateLimiter

  // ---- pieces of runs ----------------------------------------------------

  /** Calls that look their bucket up and are then held up. */
  function Lookups(first: nat, n: nat, key: string, rule: Limiting, at: real): (evs: seq<Event>)
    ensures |evs| == n && forall i :: 0 <= i < n ==> evs[i].Lookup? && evs[i].key == key && evs[i].rule == rule && evs[i].at == at
    decreases n
  {
    if n == 0 then [] else [Lookup(first, key, rule, at)] + Lookups(first + 1, n - 1, key, rule, at)
  }

  /** And now go on. */
  function Takes(first: nat, n: nat, at: real): (evs: seq<Event>)
    ensures |evs| == n && forall i :: 0 <= i < n ==> evs[i].Take? && evs[i].at == at
    decreases n
  {
    if n == 0 then [] else [Take(first, at)] + Takes(first + 1, n - 1, at)
  }

  /** Calls that nothing comes between. */
  function Calls(n: nat, key: string, rule: Limiting, at: real): (evs: seq<Event>)
    ensures forall i :: 0 <= i < |evs| ==> !evs[i].Sweep? && evs[i].at == at && (evs[i].Lookup? ==> evs[i].key == key && evs[i].rule == rule)
  {
    if n == 0 then [] else [Lookup(0, key, rule, at), Take(0, at)] + Calls(n - 1, key, rule, at)
  }

  lemma {:induction false} LookupsHold(s: State, first: nat, n: nat, key: string, rule: Limiting, at: real)
    requires key in s.buckets
    ensures var evs, s' := Lookups(first, n, key, rule, at), Run(s, Lookups(first, n, key, rule, at));
            && s'.buckets == s.buckets && s'.levels == s.levels
            && (forall c :: c in s'.pending <==> c in s.pending || first <= c < first + n)
            && (forall c :: c in s'.pending && first <= c < first + n ==> s'.pending[c] == Pending(key, rule, s.buckets[key]))
            && (forall c :: c in s.pending && !(first <= c < first + n) ==> s'.pending[c] == s.pending[c])
            && AdmittedIn(s, evs, key) == 0 && HeldIn(s, evs, key) == 0
    decreases n
  {
    if n > 0 {
      var evs := Lookups(first, n, key, rule, at);
      assert evs[0] == Lookup(first, key, rule, at) && evs[1..] == Lookups(first + 1, n - 1, key, rule, at);
      LookupsHold(Step(s, evs[0]), first + 1, n - 1, key, rule, at);
    }
  }

  lemma {:induction false} TakesAdmit(s: State, first: nat, n: nat, key: string, rule: Limiting, id: nat, at: real)
    requires id < |s.levels| && n as real <= Refill(s.levels[id], rule, at)
    requires forall c :: first <= c < first + n ==> c in s.pending && s.pending[c] == Pending(key, rule, id)
    ensures AdmittedIn(s, Takes(first, n, at), key) == n && HeldIn(s, Takes(first, n, at), key) == 0
    decreases n
  {
    hide Refill;
    if n > 0 {
      var evs := Takes(first, n, at);
      assert evs[0] == Take(first, at) && evs[1..] == Takes(first + 1, n - 1, at);
      assert first in s.pending && s.pending[first] == Pending(key, rule, id);
      TakeOne(s, first, key, rule, id, at);
      TakesAdmit(Step(s, evs[0]), first + 1, n - 1, key, rule, id, at);
    }
  }

  /** A take from a bucket with a token admits, and leaves one token less. */
  lemma TakeOne(s: State, call: nat, key: string, rule: Limiting, id: nat, at: real)
    requires id < |s.levels| && 1.0 <= Refill(s.levels[id], rule, at)
    requires call in s.pending && s.pending[call] == Pending(key, rule, id)
    ensures var s' := Step(s, Take(call, at));
            && Count(s, Take(call, at), key) == 1
            && s' == s.(levels := s.levels[id := Level(Refill(s.levels[id], rule, at) - 1.0, at)], pending := s.pending - {call})
            && Refill(s'.levels[id], rule, at) == Refill(s.levels[id], rule, at) - 1.0
  {
    hide Earned;
    RefillNow(Level(Refill(s.levels[id], rule, at) - 1.0, at), rule);
  }

  lemma {:induction false} CallsAdmit(s: State, n: nat, key: string, rule: Limiting, at: real)
    requires key in s.buckets && s.buckets[key] < |s.levels| && 0 !in s.pending
    requires n as real <= Refill(s.levels[s.buckets[key]], rule, at)
    ensures AdmittedIn(s, Calls(n, key, rule, at), key) == n && HeldIn(s, Calls(n, key, rule, at), key) == 0
    ensures var s', id := Run(s, Calls(n, key, rule, at)), s.buckets[key];
            && s'.buckets == s.buckets && s'.pending == s.pending && |s'.levels| == |s.levels|
            && (forall j :: 0 <= j < |s.levels| && j != id ==> s'.levels[j] == s.levels[j])
            && Refill(s'.levels[id], rule, at) == Refill(s.levels[id], rule, at) - n as real
            && (n > 0 ==> s'.levels[id].lastRefill == at && s'.levels[id].tokens == Refill(s.levels[id], rule, at) - n as real)
    decreases n
  {
    hide Refill;
    if n > 0 {
      var evs, id := Calls(n, key, rule, at), s.buckets[key];
      var found := Step(s, Lookup(0, key, rule, at));
      TakeOne(found, 0, key, rule, id, at);
      var next := Step(found, Take(0, at));
      assert next.pending == s.pending;
      TwoThenRest(s, evs, Lookup(0, key, rule, at), Take(0, at), Calls(n - 1, key, rule, at), key);
      CallsAdmit(next, n - 1, key, rule, at);
    }
  }

  lemma TwoThenRest(s: State, evs: seq<Event>, a: Event, b: Event, rest: seq<Event>, key: string)
    requires evs == [a, b] + rest
    ensures Run(s, evs) == Run(Step(Step(s, a), b), rest)
    ensures AdmittedIn(s, evs, key) == Count(s, a, key) + Count(Step(s, a), b, key) + AdmittedIn(Step(Step(s, a), b), rest, key)
    ensures HeldIn(s, evs, key) == HeldCount(s, a, key) + HeldCount(Step(s, a), b, key) + HeldIn(Step(Step(s, a), b), rest, key)
  {
    hide Step, Count, HeldCount;
    assert evs[1..] == [b] + rest && evs[1..][1..] == rest;
  }

  /** Without a bucket for the key, the first of the calls makes a full one. */
  lemma FreshCallsAdmit(s: State, n: nat, key: string, rule: Limiting, at: real)
    requires key !in s.buckets && 0 !in s.pending && 1 <= n <= rule.burst
    ensures AdmittedIn(s, Calls(n, key, rule, at), key) == n && HeldIn(s, Calls(n, key, rule, at), key) == 0
    ensures var s', id := Run(s, Calls(n, key, rule, at)), |s.levels|;
            && s'.buckets == s.buckets[key := id] && s'.pending == s.pending
            && s'.levels == s.levels + [Level((rule.burst - n) as real, at)]
  {
    hide Refill, Step, AdmittedIn, HeldIn, Count, HeldCount;
    var id, next := |s.levels|, Step(Step(s, Lookup(0, key, rule, at)), Take(0, at));
    FirstCall(s, key, rule, at);
    TwoThenRest(s, Calls(n, key, rule, at), Lookup(0, key, rule, at), Take(0, at), Calls(n - 1, key, rule, at), key);
    RefillNow(next.levels[id], rule);
    CallsAdmit(next, n - 1, key, rule, at);
    var s' := Run(next, Calls(n - 1, key, rule, at));
    assert s'.levels[id] == Level((rule.burst - n) as real, at);
    assert forall j :: 0 <= j < id ==> s'.levels[j] == s.levels[j];
  }

  lemma FirstCall(s: State, key: string, rule: Limiting, at: real)
    requires key !in s.buckets && 0 !in s.pending
    ensures var found := Step(s, Lookup(0, key, rule, at));
            && Count(s, Lookup(0, key, rule, at), key) == 0 && HeldCount(s, Lookup(0, key, rule, at), key) == 0
            && Count(found, Take(0, at), key) == 1 && HeldCount(found, Take(0, at), key) == 0
            && Step(found, Take(0, at)) == State(s.buckets[key := |s.levels|], s.levels + [Level(rule.burst as real - 1.0, at)], s.pending)
  {
    hide Refill, Earned;
    var found := Step(s, Lookup(0, key, rule, at));
    RefillFull(rule, at);
    TakeOne(found, 0, key, rule, |s.levels|, at);
    assert found.pending - {0} == s.pending;
    assert found.levels[|s.levels| := Level(rule.burst as real - 1.0, at)] == s.levels + [Level(rule.burst as real - 1.0, at)];
  }

  // ---- a burst that outlasts the sweeper ---------------------------------

  /** When the second half of the run below starts. */
  function SecondBurstAt(rule: Limiting): real {
    STALE_AFTER + 30.0 / rule.rpm as real
  }

  /** A full burst, a sweep just after ten minutes, and a full burst again. */
  function OvershootingRun(key: string, rule: Limiting): seq<Event> {
    var t := SecondBurstAt(rule);
    Calls(rule.burst, key, rule, 0.0) + ([Sweep(key, t)] + Calls(rule.burst, key, rule, t))
  }

  lemma SecondBurstEarns(rule: Limiting)
    ensures SecondBurstAt(rule) > STALE_AFTER
    ensures Allowance(rule, SecondBurstAt(rule)) == rule.burst as real + 10.0 * rule.rpm as real + 0.5
  {
    var r := rule.rpm as real;
    assert r * (30.0 / r) == 30.0;
  }

  lemma OvershootCount(key: string, rule: Limiting, t: real)
    requires t > STALE_AFTER
    ensures var evs := Calls(rule.burst, key, rule, 0.0) + ([Sweep(key, t)] + Calls(rule.burst, key, rule, t));
            AdmittedIn(EMPTY, evs, key) == 2 * rule.burst && HeldIn(EMPTY, evs, key) == 0
  {
    hide Run, AdmittedIn, HeldIn, Calls;
    var first, second := Calls(rule.burst, key, rule, 0.0), Calls(rule.burst, key, rule, t);
    FreshCallsAdmit(EMPTY, rule.burst, key, rule, 0.0);
    var s := Run(EMPTY, first);
    SweepDrops(s, key, t);
    var dropped := Step(s, Sweep(key, t));
    FreshCallsAdmit(dropped, rule.burst, key, rule, t);
    RunSplits(EMPTY, first, [Sweep(key, t)] + second, key);
    RunSplits(s, [Sweep(key, t)], second, key);
    OneEvent(s, Sweep(key, t), key);
  }

  lemma OneEvent(s: State, e: Event, key: string)
    ensures Run(s, [e]) == Step(s, e) && AdmittedIn(s, [e], key) == Count(s, e, key) && HeldIn(s, [e], key) == HeldCount(s, e, key)
  {
    hide Step, Count, HeldCount;
    assert [e][1..] == [];
  }

  /** A sweep over ten minutes after the last use drops the bucket. */
  lemma SweepDrops(s: State, key: string, t: real)
    requires key in s.buckets && s.buckets[key] < |s.levels| && s.levels[s.buckets[key]].lastRefill < t - STALE_AFTER
    ensures Step(s, Sweep(key, t)) == s.(buckets := s.buckets - {key})
    ensures Count(s, Sweep(key, t), key) == 0 && HeldCount(s, Sweep(key, t), key) == |Holders(s, s.buckets[key])|
    ensures s.pending == map[] ==> HeldCount(s, Sweep(key, t), key) == 0
  {
    if s.pending == map[] {
      assert Holders(s, s.buckets[key]) == {};
    }
  }

  /** With a larger burst the sweeper hands out a second full bucket before the first one
      has refilled, though no call is held up anywhere. */
  lemma LargeBurstBreaksBound(key: string, rule: Limiting)
    requires rule.burst > 10 * rule.rpm
    ensures var evs, end := OvershootingRun(key, rule), SecondBurstAt(rule);
            && Window([], evs, key, rule, 0.0, end) && HeldIn(EMPTY, [] + evs, key) == 0
            && AdmittedIn(Run(EMPTY, []), evs, key) as real > Allowance(rule, end - 0.0)
  {
    hide Run, AdmittedIn, HeldIn, Allowance, Calls, SecondBurstAt, Window;
    var evs, t := OvershootingRun(key, rule), SecondBurstAt(rule);
    SecondBurstEarns(rule);
    OvershootCount(key, rule, t);
    OvershootIsWindow(key, rule, t);
    Nothing(evs);
    assert t - 0.0 == t;
  }

  lemma OvershootIsWindow(key: string, rule: Limiting, t: real)
    requires t >= 0.0
    ensures Window([], Calls(rule.burst, key, rule, 0.0) + ([Sweep(key, t)] + Calls(rule.burst, key, rule, t)), key, rule, 0.0, t)
  {
    hide Calls, Clocked, UsesRule;
    var first, second := Calls(rule.burst, key, rule, 0.0), [Sweep(key, t)] + Calls(rule.burst, key, rule, t);
    SweptFirst(Calls(rule.burst, key, rule, t), key, rule, t);
    TwoInstants(first, second, key, rule, t);
    Nothing(first + second);
  }

  lemma SweptFirst(calls: seq<Event>, key: string, rule: Limiting, t: real)
    requires forall i :: 0 <= i < |calls| ==> calls[i].at == t && (calls[i].Lookup? ==> calls[i].rule == rule)
    ensures var evs := [Sweep(key, t)] + calls;
            forall i :: 0 <= i < |evs| ==> evs[i].at == t && (evs[i].Lookup? ==> evs[i].rule == rule)
  {
  }

  lemma TwoInstants(first: seq<Event>, second: seq<Event>, key: string, rule: Limiting, t: real)
    requires t >= 0.0 && forall i :: 0 <= i < |first| ==> first[i].at == 0.0 && (first[i].Lookup? ==> first[i].rule == rule)
    requires forall i :: 0 <= i < |second| ==> second[i].at == t && (second[i].Lookup? ==> second[i].rule == rule)
    ensures Clocked(first + second) && UsesRule(first + second, key, rule)
    ensures forall i :: 0 <= i < |first + second| ==> 0.0 <= (first + second)[i].at <= t
  {
    hide Clocked, UsesRule;
    OneInstant(first, key, rule, 0.0);
    OneInstant(second, key, rule, t);
    ClockedJoin(first, second, key, rule);
  }

  lemma OneInstant(evs: seq<Event>, key: string, rule: Limiting, at: real)
    requires forall i :: 0 <= i < |evs| ==> evs[i].at == at && (evs[i].Lookup? ==> evs[i].rule == rule)
    ensures Clocked(evs) && UsesRule(evs, key, rule)
  {
    NormalizeLimiting(rule);
  }

  lemma ClockedJoin(a: seq<Event>, b: seq<Event>, key: string, rule: Limiting)
    requires Clocked(a) && Clocked(b) && UsesRule(a, key, rule) && UsesRule(b, key, rule)
    requires forall i, j :: 0 <= i < |a| && 0 <= j < |b| ==> a[i].at <= b[j].at
    ensures Clocked(a + b) && UsesRule(a + b, key, rule)
  {
    hide NormalizeRule;
    var evs := a + b;
    forall i, j | 0 <= i < j < |evs| && !evs[j].Sweep? ensures evs[i].at <= evs[j].at {
      assert evs[i] == if i < |a| then a[i] else b[i - |a|];
      assert evs[j] == if j < |a| then a[j] else b[j - |a|];
    }
  }

  lemma Nothing(evs: seq<Event>)
    ensures [] + evs == evs && Run(EMPTY, []) == EMPTY
  {
  }

  lemma NormalizeLimiting(rule: Limiting)
    ensures NormalizeRule(rule) == rule
  {
  }

  // ---- calls held up while the sweeper runs ------------------------------

  const IDLE_UNTIL := 700.0

  /** One call makes the bucket, long before. */
  function MadeEarly(key: string, rule: Limiting): seq<Event> {
    Calls(1, key, rule, 0.0)
  }

  /** `n` calls find the idle bucket; the sweeper drops it; a burst of calls is served
      from a new one. All at one instant. */
  function HeldUp(n: nat, key: string, rule: Limiting): seq<Event> {
    Lookups(1, n, key, rule, IDLE_UNTIL) + ([Sweep(key, IDLE_UNTIL)] + Calls(rule.burst, key, rule, IDLE_UNTIL))
  }

  /** Then the held calls go on. */
  function RaceWindow(n: nat, key: string, rule: Limiting): seq<Event> {
    HeldUp(n, key, rule) + Takes(1, n, IDLE_UNTIL)
  }

  function Numbers(first: nat, n: nat): (r: set<nat>)
    ensures |r| == n && forall c :: c in r <==> first <= c < first + n
    decreases n
  {
    if n == 0 then {} else {first} + Numbers(first + 1, n - 1)
  }

  lemma IdleRefills(rule: Limiting)
    ensures Refill(Level((rule.burst - 1) as real, 0.0), rule, IDLE_UNTIL) == rule.burst as real
  {
    assert 700.0 * (rule.rpm as real / 60.0) == rule.rpm as real * (700.0 / 60.0);
    assert rule.rpm as real >= 1.0;
  }

  /** The held calls have looked up the one bucket, and the sweep drops it. */
  lemma HeldThenDropped(s: State, n: nat, key: string, rule: Limiting, level: Level)
    requires s == State(map[key := 0], [level], map[]) && level.lastRefill == 0.0
    ensures var held := Lookups(1, n, key, rule, IDLE_UNTIL) + [Sweep(key, IDLE_UNTIL)];
            var s' := Run(s, held);
            && s'.buckets == map[] && s'.levels == [level]
            && (forall c :: c in s'.pending <==> 1 <= c < 1 + n)
            && (forall c :: c in s'.pending ==> s'.pending[c] == Pending(key, rule, 0))
            && AdmittedIn(s, held, key) == 0 && HeldIn(s, held, key) == n
  {
    hide Run, AdmittedIn, HeldIn, Lookups, Step, Count, HeldCount;
    var looked := Run(s, Lookups(1, n, key, rule, IDLE_UNTIL));
    LookupsHold(s, 1, n, key, rule, IDLE_UNTIL);
    SweepDrops(looked, key, IDLE_UNTIL);
    assert Holders(looked, 0) == Numbers(1, n);
    OneEvent(looked, Sweep(key, IDLE_UNTIL), key);
    RunSplits(s, Lookups(1, n, key, rule, IDLE_UNTIL), [Sweep(key, IDLE_UNTIL)], key);
    assert looked.buckets - {key} == map[];
  }

  lemma AfterMadeEarly(key: string, rule: Limiting)
    ensures Run(EMPTY, MadeEarly(key, rule)) == State(map[key := 0], [Level((rule.burst - 1) as real, 0.0)], map[])
    ensures HeldIn(EMPTY, MadeEarly(key, rule), key) == 0
  {
    hide Run, AdmittedIn, HeldIn, Calls;
    FreshCallsAdmit(EMPTY, 1, key, rule, 0.0);
    assert EMPTY.buckets[key := 0] == map[key := 0];
  }

  /** Where the held-up run stands before the held calls go on: the old bucket is full
      again by the clock, the new one is empty. */
  lemma HeldUpState(n: nat, key: string, rule: Limiting)
    ensures var s := Run(Run(EMPTY, MadeEarly(key, rule)), HeldUp(n, key, rule));
            && s.buckets == map[key := 1] && s.levels == [Level((rule.burst - 1) as real, 0.0), Level(0.0, IDLE_UNTIL)]
            && (forall c :: c in s.pending <==> 1 <= c < 1 + n)
            && (forall c :: c in s.pending ==> s.pending[c] == Pending(key, rule, 0))
    ensures AdmittedIn(Run(EMPTY, MadeEarly(key, rule)), HeldUp(n, key, rule), key) == rule.burst
    ensures HeldIn(EMPTY, MadeEarly(key, rule), key) == 0
    ensures HeldIn(Run(EMPTY, MadeEarly(key, rule)), HeldUp(n, key, rule), key) == n
  {
    hide Run, AdmittedIn, HeldIn, Calls, Lookups, MadeEarly;
    AfterMadeEarly(key, rule);
    var s := Run(EMPTY, MadeEarly(key, rule));
    var held, burst := Lookups(1, n, key, rule, IDLE_UNTIL) + [Sweep(key, IDLE_UNTIL)], Calls(rule.burst, key, rule, IDLE_UNTIL);
    HeldThenDropped(s, n, key, rule, Level((rule.burst - 1) as real, 0.0));
    var dropped := Run(s, held);
    FreshCallsAdmit(dropped, rule.burst, key, rule, IDLE_UNTIL);
    RunSplits(s, held, burst, key);
    assert HeldUp(n, key, rule) == held + burst;
    assert dropped.buckets[key := 1] == map[key := 1];
  }

  lemma RaceCount(n: nat, key: string, rule: Limiting)
    requires n <= rule.burst
    ensures var s := Run(EMPTY, MadeEarly(key, rule));
            && AdmittedIn(s, RaceWindow(n, key, rule), key) == rule.burst + n
            && HeldIn(EMPTY, MadeEarly(key, rule) + RaceWindow(n, key, rule), key) == n
  {
    hide Run, AdmittedIn, HeldIn, MadeEarly, HeldUp, Takes, Refill;
    var s := Run(EMPTY, MadeEarly(key, rule));
    var held := Run(s, HeldUp(n, key, rule));
    HeldUpState(n, key, rule);
    IdleRefills(rule);
    TakesAdmit(held, 1, n, key, rule, 0, IDLE_UNTIL);
    RunSplits(s, HeldUp(n, key, rule), Takes(1, n, IDLE_UNTIL), key);
    RunSplits(EMPTY, MadeEarly(key, rule), RaceWindow(n, key, rule), key);
  }

  lemma RaceIsWindow(n: nat, key: string, rule: Limiting)
    ensures Window(MadeEarly(key, rule), RaceWindow(n, key, rule), key, rule, IDLE_UNTIL, IDLE_UNTIL)
  {
    hide Calls, Lookups, Takes;
    NormalizeLimiting(rule);
    hide NormalizeRule;
    var before, window := MadeEarly(key, rule), RaceWindow(n, key, rule);
    forall i | 0 <= i < |window| ensures window[i].at == IDLE_UNTIL && (window[i].Lookup? ==> window[i].rule == rule) { }
  }

  /** THE BOUND WITH RACES IS TIGHT. For every rule and every number of held calls up to
      the burst there is a run in which that many hold a bucket when the sweeper drops it
      and exactly so many more than the burst are admitted at one instant. */
  lemma HeldBoundIsTight(n: nat, key: string, rule: Limiting)
    requires n <= rule.burst
    ensures var before, window := MadeEarly(key, rule), RaceWindow(n, key, rule);
            && Window(before, window, key, rule, IDLE_UNTIL, IDLE_UNTIL)
            && HeldIn(EMPTY, before + window, key) == n
            && AdmittedIn(Run(EMPTY, before), window, key) as real == Allowance(rule, IDLE_UNTIL - IDLE_UNTIL) + n as real
  {
    hide Run, AdmittedIn, HeldIn, MadeEarly, RaceWindow, Window;
    RaceCount(n, key, rule);
    RaceIsWindow(n, key, rule);
  }

  // ---- which rules keep which promise ------------------------------------

  /** Every window of every run. */
  ghost predicate Promise(rule: Limiting) {
    forall before, window, key, start, end :: Window(before, window, key, rule, start, end) ==>
      AdmittedIn(Run(EMPTY, before), window, key) as real <= Allowance(rule, end - start)
  }

  /** Every window of every run in which no sweep drops a bucket some call has found. */
  ghost predicate PromiseUnlessHeld(rule: Limiting) {
    forall before, window, key, start, end ::
      Window(before, window, key, rule, start, end) && HeldIn(EMPTY, before + window, key) == 0 ==>
        AdmittedIn(Run(EMPTY, before), window, key) as real <= Allowance(rule, end - start)
  }

  /** Every window of every run, with one more admission for each call that held a
      dropped bucket. */
  ghost predicate PromiseWithHeld(rule: Limiting) {
    forall before, window, key, start, end :: Window(before, window, key, rule, start, end) ==>
      AdmittedIn(Run(EMPTY, before), window, key) as real <= Allowance(rule, end - start) + HeldIn(EMPTY, before + window, key) as real
  }

  /** NO RULE keeps the plain promise over all runs: one held call is enough. */
  lemma PromiseNeverKept(rule: Limiting)
    ensures !Promise(rule)
  {
    hide Run, AdmittedIn, HeldIn, MadeEarly, RaceWindow, Window, Allowance;
    HeldBoundIsTight(1, "", rule);
  }

  /** EXACTLY WHICH RULES keep it when no sweep drops a held bucket, and with the held
      calls counted: those whose burst is at most ten minutes' worth of requests. */
  lemma PromiseKeptExactlyWhen(rule: Limiting)
    ensures PromiseUnlessHeld(rule) <==> rule.burst <= 10 * rule.rpm
    ensures PromiseWithHeld(rule) <==> rule.burst <= 10 * rule.rpm
  {
    hide Run, AdmittedIn, HeldIn, Window, Allowance, OvershootingRun, SecondBurstAt;
    if rule.burst <= 10 * rule.rpm {
      forall before, window, key, start, end | Window(before, window, key, rule, start, end)
        ensures AdmittedIn(Run(EMPTY, before), window, key) as real
             <= Allowance(rule, end - start) + HeldIn(EMPTY, before + window, key) as real
      {
        HeldBound(before, window, key, rule, start, end);
      }
    } else {
      LargeBurstBreaksBound("", rule);
      var evs: seq<Event>, none: seq<Event> := OvershootingRun("", rule), [];
      assert Window(none, evs, "", rule, 0.0, SecondBurstAt(rule));
      assert HeldIn(EMPTY, none + evs, "") == 0;
    }
  }
}
