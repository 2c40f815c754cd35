/** The wait that a refused call is told: what the limiter keeps of it over all runs of
    critical sections, and the one way it can fail. */
module RateLimiterWait {
  import opened RateLimiter
  import opened RateLimiterRaces

  /** The moment the key's current bucket reaches one token. */
  ghost predicate ReachesOneAt(s: State, key: string, rule: Limiting, due: real) {
    && key in s.buckets && s.buckets[key] < |s.levels|
    && OneAt(s.levels[s.buckets[key]], rule, due)
  }

  ghost predicate OneAt(b: Level, rule: Limiting, due: real) {
    && 0.0 <= b.tokens && b.lastRefill < due <= b.lastRefill + 60.0
    && b.tokens + Earned(due - b.lastRefill, rule) == 1.0
  }

  lemma NextTokenArrives(tokens: real, rule: Limiting)
    requires 0.0 <= tokens < 1.0
    ensures 0.0 < SecondsToNext(tokens, rule) <= 60.0
    ensures Earned(SecondsToNext(tokens, rule), rule) == 1.0 - tokens
  {
    var rate := rule.rpm as real / 60.0;
    var q := (1.0 - tokens) / rate;
    assert q * rate == 1.0 - tokens;
    Positive(q, rate);
    AtMost(q, rate);
  }

  lemma Positive(q: real, rate: real)
    requires rate > 0.0 && q * rate > 0.0
    ensures q > 0.0
  {
  }

  lemma AtMost(q: real, rate: real)
    requires rate >= 1.0 / 60.0 && q > 0.0 && q * rate <= 1.0
    ensures q <= 60.0
  {
    assert q * (rate - 1.0 / 60.0) >= 0.0;
    assert q * (rate - 1.0 / 60.0) == q * rate - q / 60.0;
  }

  lemma RefusalOfLevel(b: Level, rule: Limiting, t: real)
    requires 0.0 <= b.tokens && b.lastRefill <= t && TakeToken(b, rule, t).1.Refused?
    ensures OneAt(TakeToken(b, rule, t).0, rule, t + TakeToken(b, rule, t).1.wait) && TakeToken(b, rule, t).1.wait > 0.0
  {
    hide Earned, SecondsToNext;
    RefillInRange(b, rule, t);
    NextTokenArrives(Refill(b, rule, t), rule);
    var wait := SecondsToNext(Refill(b, rule, t), rule);
    assert t + wait - t == wait;
  }

  /** A refusal by the key's current bucket promises exactly the moment it holds one
      token again, at most a minute away. */
  lemma RefusalSetsDue(s: State, call: nat, key: string, rule: Limiting, t: real)
    requires Shape(s) && KeyFits(s, key, rule, t) && TakesFor(s, Take(call, t), key) && !Detached(s, call)
    requires TakeStep(s, call, t).1.Refused?
    ensures ReachesOneAt(Step(s, Take(call, t)), key, rule, t + TakeStep(s, call, t).1.wait)
    ensures TakeStep(s, call, t).1.wait > 0.0
  {
    hide TakeToken, OneAt;
    RefusalOfLevel(s.levels[s.buckets[key]], rule, t);
  }

  lemma PollOfLevel(b: Level, rule: Limiting, due: real, at: real)
    requires OneAt(b, rule, due) && b.lastRefill <= at
    ensures at < due ==> TakeToken(b, rule, at).1.Refused? && OneAt(TakeToken(b, rule, at).0, rule, due)
    ensures at >= due ==> Refill(b, rule, at) >= 1.0
  {
    hide Earned;
    EarnedSign(at - b.lastRefill, rule);
    EarnedSign(due - at, rule);
    EarnedSum(at - b.lastRefill, due - at, rule);
    assert at - b.lastRefill + (due - at) == due - b.lastRefill;
    if at >= due {
      EarnedGrows(due - b.lastRefill, at - b.lastRefill, rule);
    }
  }

  /** One event before the promised moment: whatever it is, the moment stays, and a call
      it admits holds a dropped bucket. */
  lemma PollKeepsDue(s: State, e: Event, key: string, rule: Limiting, now: real, due: real)
    requires Shape(s) && KeyFits(s, key, rule, now) && Fits(e, key, rule, now) && e.at < due && ReachesOneAt(s, key, rule, due)
    ensures Count(s, e, key) == StrayCount(s, e, key) && ReachesOneAt(Step(s, e), key, rule, due)
  {
    hide TakeToken, NormalizeRule;
    var b := s.levels[s.buckets[key]];
    if e.Sweep? {
      NotStale(b, rule, due, e.at);
    } else if e.Take? && Waiting(s, e.call) && s.pending[e.call].id == s.buckets[key] {
      PollOfLevel(b, rule, due, e.at);
    }
  }

  /** A bucket with a promise is not swept before the promised moment. */
  lemma NotStale(b: Level, rule: Limiting, due: real, at: real)
    requires OneAt(b, rule, due) && at < due
    ensures !Stale(b, at)
  {
    hide Earned;
  }

  /** The events from `now` on, all before the promised moment. */
  ghost predicate Before(evs: seq<Event>, key: string, rule: Limiting, now: real, due: real)
    decreases |evs|
  {
    evs == [] ||
    (evs[0].at < due && Fits(evs[0], key, rule, now) && Before(evs[1..], key, rule, Later(now, evs[0].at), due))
  }

  lemma {:induction false} ClockedBefore(evs: seq<Event>, key: string, rule: Limiting, now: real, due: real)
    requires Clocked(evs) && UsesRule(evs, key, rule)
    requires forall i :: 0 <= i < |evs| ==> evs[i].at < due && (!evs[i].Sweep? ==> now <= evs[i].at)
    ensures Before(evs, key, rule, now, due)
    decreases |evs|
  {
    hide NormalizeRule;
    if evs != [] {
      assert forall i :: 0 <= i < |evs[1..]| ==> evs[1..][i] == evs[i + 1];
      ClockedBefore(evs[1..], key, rule, Later(now, evs[0].at), due);
    }
  }

  /** THE WAIT. Until the promised moment, whatever other calls and the sweeper do between
      the critical sections, the only calls for the key that are admitted are those that
      hold a dropped bucket; and the promise stands. */
  lemma {:induction false} ExactWait(s: State, evs: seq<Event>, key: string, rule: Limiting, now: real, due: real)
    requires Shape(s) && KeyFits(s, key, rule, now) && ReachesOneAt(s, key, rule, due)
    requires Before(evs, key, rule, now, due) && now <= due
    ensures AdmittedIn(s, evs, key) == StraysIn(s, evs, key)
    ensures ReachesOneAt(Run(s, evs), key, rule, due) && Shape(Run(s, evs)) && KeyFits(Run(s, evs), key, rule, due)
    decreases |evs|
  {
    hide Step, Count, StrayCount, Shape, KeyFits, Fits, ReachesOneAt;
    if evs == [] {
      FitsLater(s, key, rule, now, due);
    } else {
      StepShape(s, evs[0]);
      StepFits(s, evs[0], key, rule, now);
      PollKeepsDue(s, evs[0], key, rule, now, due);
      ExactWait(Step(s, evs[0]), evs[1..], key, rule, Later(now, evs[0].at), due);
    }
  }

  // ---- from the promised moment on ---------------------------------------

  /** If the key has a bucket, it gives a token at any time from the moment on. */
  ghost predicate Ready(s: State, key: string, rule: Limiting, due: real) {
    key in s.buckets && s.buckets[key] < |s.levels| ==> GivesFrom(s.levels[s.buckets[key]], rule, due)
  }

  ghost predicate GivesFrom(b: Level, rule: Limiting, due: real) {
    forall at :: due <= at && b.lastRefill <= at ==> Refill(b, rule, at) >= 1.0
  }

  lemma OneAtGives(b: Level, rule: Limiting, due: real)
    requires OneAt(b, rule, due)
    ensures GivesFrom(b, rule, due)
  {
    hide Refill, OneAt;
    forall at | due <= at && b.lastRefill <= at ensures Refill(b, rule, at) >= 1.0 {
      PollOfLevel(b, rule, due, at);
    }
  }

  lemma FullGives(rule: Limiting, made: real, due: real)
    ensures GivesFrom(Level(rule.burst as real, made), rule, due)
  {
    hide Refill;
    var b := Level(rule.burst as real, made);
    forall at | due <= at && b.lastRefill <= at ensures Refill(b, rule, at) >= 1.0 {
      FullStaysFull(b, rule, at);
    }
  }

  lemma FullStaysFull(b: Level, rule: Limiting, at: real)
    requires b.tokens == rule.burst as real && b.lastRefill <= at
    ensures Refill(b, rule, at) == rule.burst as real
  {
    hide Earned;
    EarnedSign(at - b.lastRefill, rule);
  }

  /** No call for the key takes a token: lookups, other keys and the sweeper go on. */
  ghost predicate Quiet(s: State, evs: seq<Event>, key: string, rule: Limiting)
    decreases |evs|
  {
    evs == [] ||
    (!TakesFor(s, evs[0], key) && (evs[0].Lookup? && evs[0].key == key ==> NormalizeRule(evs[0].rule) == rule)
     && Quiet(Step(s, evs[0]), evs[1..], key, rule))
  }

  lemma QuietStep(s: State, e: Event, key: string, rule: Limiting, due: real)
    requires Shape(s) && Ready(s, key, rule, due) && !TakesFor(s, e, key)
    requires e.Lookup? && e.key == key ==> NormalizeRule(e.rule) == rule
    ensures Ready(Step(s, e), key, rule, due)
  {
    hide GivesFrom, TakeToken, NormalizeRule, Stale;
    if e.Lookup? {
      FullGives(rule, e.at, due);
    }
  }

  lemma {:induction false} QuietRun(s: State, evs: seq<Event>, key: string, rule: Limiting, due: real)
    requires Shape(s) && Ready(s, key, rule, due) && Quiet(s, evs, key, rule)
    ensures Shape(Run(s, evs)) && Ready(Run(s, evs), key, rule, due)
    decreases |evs|
  {
    hide Step, Shape, Ready, TakesFor, NormalizeRule;
    if evs != [] {
      StepShape(s, evs[0]);
      QuietStep(s, evs[0], key, rule, due);
      QuietRun(Step(s, evs[0]), evs[1..], key, rule, due);
    }
  }

  /** THE END OF THE WAIT. The first call that takes from the key's current bucket at or
      after the promised moment is admitted, whatever came in between, a sweep included. */
  lemma FirstCallAfterWait(s: State, quiet: seq<Event>, call: nat, key: string, rule: Limiting, due: real, at: real)
    requires Shape(s) && ReachesOneAt(s, key, rule, due) && Quiet(s, quiet, key, rule) && at >= due
    requires var s' := Run(s, quiet);
             TakesFor(s', Take(call, at), key) && !Detached(s', call) && s'.pending[call].rule == rule
             && s'.levels[s'.pending[call].id].lastRefill <= at
    ensures TakeStep(Run(s, quiet), call, at).1 == Admitted
  {
    hide Run, Quiet, Shape, GivesFrom, Refill, OneAt;
    OneAtGives(s.levels[s.buckets[key]], rule, due);
    QuietRun(s, quiet, key, rule, due);
    var b := Run(s, quiet).levels[Run(s, quiet).pending[call].id];
    assert GivesFrom(b, rule, due);
    GivesNow(b, rule, due, at);
  }

  lemma GivesNow(b: Level, rule: Limiting, due: real, at: real)
    requires GivesFrom(b, rule, due) && due <= at && b.lastRefill <= at
    ensures TakeToken(b, rule, at).1 == Admitted
  {
    hide Refill;
    assert Refill(b, rule, at) >= 1.0;
  }

  // ---- over runs ---------------------------------------------------------

  /** A call for the key is refused at `t` after some run, and `polls` are the events
      between `t` and the moment it was told to wait for. */
  ghost predicate Told(before: seq<Event>, call: nat, key: string, rule: Limiting, t: real, polls: seq<Event>) {
    var s, evs := Run(EMPTY, before), before + [Take(call, t)] + polls;
    && Clocked(evs) && UsesRule(evs, key, rule)
    && TakesFor(s, Take(call, t), key) && TakeStep(s, call, t).1.Refused?
    && forall i :: 0 <= i < |polls| ==> polls[i].at < t + TakeStep(s, call, t).1.wait
  }

  /** How many calls for the key are admitted although the wait is not over. */
  function TooEarly(before: seq<Event>, call: nat, key: string, t: real, polls: seq<Event>): nat {
    AdmittedIn(Step(Run(EMPTY, before), Take(call, t)), polls, key)
  }

  /** The run up to the last poll. */
  function Whole(before: seq<Event>, call: nat, t: real, polls: seq<Event>): seq<Event> {
    before + [Take(call, t)] + polls
  }

  ghost predicate WaitKept(rule: Limiting) {
    forall before, call, key, t, polls :: Told(before, call, key, rule, t, polls) ==> TooEarly(before, call, key, t, polls) == 0
  }

  ghost predicate WaitKeptUnlessHeld(rule: Limiting) {
    forall before, call, key, t, polls ::
      Told(before, call, key, rule, t, polls) && HeldIn(EMPTY, Whole(before, call, t, polls), key) == 0 ==>
        TooEarly(before, call, key, t, polls) == 0
  }

  lemma Thirds(before: seq<Event>, call: nat, key: string, rule: Limiting, t: real, polls: seq<Event>)
    requires Clocked(before + [Take(call, t)] + polls) && UsesRule(before + [Take(call, t)] + polls, key, rule)
    ensures Clocked(before) && UsesRule(before, key, rule) && forall i :: 0 <= i < |before| ==> before[i].at <= t
    ensures Clocked(polls) && UsesRule(polls, key, rule) && forall i :: 0 <= i < |polls| && !polls[i].Sweep? ==> t <= polls[i].at
  {
    var evs := before + [Take(call, t)] + polls;
    assert evs[|before|] == Take(call, t);
    Part(evs, 0, before, key, rule);
    Part(evs, |before| + 1, polls, key, rule);
    hide UsesRule;
    forall i | 0 <= i < |before| ensures before[i].at <= t {
      assert evs[i] == before[i];
    }
    forall i | 0 <= i < |polls| && !polls[i].Sweep? ensures t <= polls[i].at {
      assert evs[|before| + 1 + i] == polls[i];
    }
  }

  lemma Part(evs: seq<Event>, from: nat, part: seq<Event>, key: string, rule: Limiting)
    requires Clocked(evs) && UsesRule(evs, key, rule)
    requires from + |part| <= |evs| && part == evs[from..from + |part|]
    ensures Clocked(part) && UsesRule(part, key, rule)
  {
    hide NormalizeRule;
    assert forall i :: 0 <= i < |part| ==> evs[from + i] == part[i];
  }

  /** What a run leaves for the key, and how many of its calls are loose. */
  lemma ReachedState(before: seq<Event>, key: string, rule: Limiting, t: real)
    requires Clocked(before) && UsesRule(before, key, rule) && forall i :: 0 <= i < |before| ==> before[i].at <= t
    ensures Shape(Run(EMPTY, before)) && KeyFits(Run(EMPTY, before), key, rule, t)
    ensures |Loose(Run(EMPTY, before), key)| <= HeldIn(EMPTY, before, key)
  {
    hide Run, Shape, KeyFits, Schedule, Loose, HeldIn, StraysIn, Clocked, UsesRule;
    var first := Earliest(before, t);
    EmptyFits(key, rule, first);
    ClockedSchedule(before, key, rule, first, t);
    RunFits(EMPTY, before, key, rule, first, t);
    StraysWereHeld(EMPTY, before, key);
    NothingLoose(key);
  }

  lemma LooseCall(s: State, call: nat, t: real, key: string)
    requires TakesFor(s, Take(call, t), key) && Loose(s, key) == {}
    ensures !Detached(s, call)
  {
    assert call !in Loose(s, key);
  }

  lemma HeldParts(before: seq<Event>, call: nat, t: real, polls: seq<Event>, key: string)
    ensures HeldIn(EMPTY, Whole(before, call, t, polls), key)
         == HeldIn(EMPTY, before, key) + HeldIn(Step(Run(EMPTY, before), Take(call, t)), polls, key)
    ensures Run(EMPTY, Whole(before, call, t, polls)) == Run(Step(Run(EMPTY, before), Take(call, t)), polls)
  {
    hide Step, AdmittedIn, StraysIn, Run, HeldIn;
    RunSplits(EMPTY, before, [Take(call, t)] + polls, key);
    assert Whole(before, call, t, polls) == before + ([Take(call, t)] + polls);
    OneEvent(Run(EMPTY, before), Take(call, t), key);
    RunSplits(Run(EMPTY, before), [Take(call, t)], polls, key);
  }

  lemma ToldIsKept(before: seq<Event>, call: nat, key: string, rule: Limiting, t: real, polls: seq<Event>)
    requires Told(before, call, key, rule, t, polls) && HeldIn(EMPTY, Whole(before, call, t, polls), key) == 0
    ensures TooEarly(before, call, key, t, polls) == 0
    ensures Shape(Run(EMPTY, Whole(before, call, t, polls)))
    ensures ReachesOneAt(Run(EMPTY, Whole(before, call, t, polls)), key, rule, t + TakeStep(Run(EMPTY, before), call, t).1.wait)
  {
    hide Run, HeldIn, StraysIn, AdmittedIn, Shape, KeyFits, Clocked, UsesRule, Loose, ReachesOneAt, Step, TakeStep, Detached;
    var s := Run(EMPTY, before);
    var s', due := Step(s, Take(call, t)), t + TakeStep(s, call, t).1.wait;
    Thirds(before, call, key, rule, t, polls);
    ReachedState(before, key, rule, t);
    HeldParts(before, call, t, polls, key);
    LooseCall(s, call, t, key);
    RefusalSetsDue(s, call, key, rule, t);
    StepShape(s, Take(call, t));
    TakeFits(s, call, key, rule, t);
    ClockedBefore(polls, key, rule, t, due);
    ExactWait(s', polls, key, rule, t, due);
    StraysWereHeld(s', polls, key);
    LooseStays(s, call, t, key);
  }

  lemma TakeFits(s: State, call: nat, key: string, rule: Limiting, t: real)
    requires Shape(s) && KeyFits(s, key, rule, t)
    ensures KeyFits(Step(s, Take(call, t)), key, rule, t)
  {
    hide Step, Shape, KeyFits;
    StepFits(s, Take(call, t), key, rule, t);
  }

  lemma LooseStays(s: State, call: nat, t: real, key: string)
    requires Shape(s) && Loose(s, key) == {}
    ensures Loose(Step(s, Take(call, t)), key) == {}
  {
    hide Step, Loose, Shape;
    LooseAfterTake(s, Take(call, t), key);
  }

  /** THE WAIT ENDS, over runs: where no sweep drops a held bucket, the first call for the
      key that takes a token at or after the promised moment is admitted. */
  lemma FirstCallAdmitted(before: seq<Event>, call: nat, key: string, rule: Limiting, t: real, polls: seq<Event>,
                          quiet: seq<Event>, late: nat, at: real)
    requires Told(before, call, key, rule, t, polls)
    requires var all := Whole(before, call, t, polls) + quiet;
             && Clocked(all + [Take(late, at)]) && UsesRule(all + [Take(late, at)], key, rule)
             && HeldIn(EMPTY, all, key) == 0 && TakesFor(Run(EMPTY, all), Take(late, at), key)
    requires Quiet(Run(EMPTY, Whole(before, call, t, polls)), quiet, key, rule)
    requires at >= t + TakeStep(Run(EMPTY, before), call, t).1.wait
    ensures TakeStep(Run(EMPTY, Whole(before, call, t, polls) + quiet), late, at).1 == Admitted
  {
    hide Run, HeldIn, StraysIn, AdmittedIn, Shape, KeyFits, Clocked, UsesRule, Loose, ReachesOneAt, TakeStep, Detached, Whole, Quiet, TooEarly;
    var whole := Whole(before, call, t, polls);
    RunSplits(EMPTY, whole, quiet, key);
    ToldIsKept(before, call, key, rule, t, polls);
    assert whole + quiet + [Take(late, at)] + [] == whole + quiet + [Take(late, at)];
    Thirds(whole + quiet, late, key, rule, at, []);
    ReachedState(whole + quiet, key, rule, at);
    LooseCall(Run(EMPTY, whole + quiet), late, at, key);
    PendingFits(Run(EMPTY, whole + quiet), late, key, rule, at);
    FirstCallAfterWait(Run(EMPTY, whole), quiet, late, key, rule, t + TakeStep(Run(EMPTY, before), call, t).1.wait, at);
  }

  lemma PendingFits(s: State, call: nat, key: string, rule: Limiting, at: real)
    requires Shape(s) && KeyFits(s, key, rule, at) && TakesFor(s, Take(call, at), key) && !Detached(s, call)
    ensures s.pending[call].rule == rule && s.levels[s.pending[call].id].lastRefill <= at
  {
  }

  /** The run in which a promise is broken: one call holds the idle bucket, a burst is
      served from a new one, and one more call is told to wait. */
  function HeldUpThenRefused(key: string, rule: Limiting): seq<Event> {
    MadeEarly(key, rule) + HeldUp(1, key, rule) + [Lookup(0, key, rule, IDLE_UNTIL)]
  }

  lemma RefusedState(key: string, rule: Limiting)
    ensures var s := Run(EMPTY, HeldUpThenRefused(key, rule));
            && s.buckets == map[key := 1] && s.levels == [Level((rule.burst - 1) as real, 0.0), Level(0.0, IDLE_UNTIL)]
            && (forall c :: c in s.pending <==> c == 0 || c == 1)
            && s.pending[0] == Pending(key, rule, 1) && s.pending[1] == Pending(key, rule, 0)
  {
    hide Run, MadeEarly, HeldUp;
    var before, looked := MadeEarly(key, rule) + HeldUp(1, key, rule), Lookup(0, key, rule, IDLE_UNTIL);
    HeldUpState(1, key, rule);
    RunSplits(EMPTY, MadeEarly(key, rule), HeldUp(1, key, rule), key);
    RunSplits(EMPTY, before, [looked], key);
    OneEvent(Run(EMPTY, before), looked, key);
  }

  lemma EmptyRefuses(rule: Limiting, at: real)
    ensures TakeToken(Level(0.0, at), rule, at).1 == Refused(SecondsToNext(0.0, rule)) && SecondsToNext(0.0, rule) > 0.0
  {
    hide SecondsToNext;
    RefillNow(Level(0.0, at), rule);
    NextTokenArrives(0.0, rule);
  }

  /** A HELD CALL BEATS THE WAIT. For every rule there is a run in which a call is told to
      wait and a call that held a dropped bucket is admitted at that very instant. */
  lemma HeldCallBeatsWait(key: string, rule: Limiting)
    ensures var before, polls := HeldUpThenRefused(key, rule), [Take(1, IDLE_UNTIL)];
            Told(before, 0, key, rule, IDLE_UNTIL, polls) && TooEarly(before, 0, key, IDLE_UNTIL, polls) == 1
  {
    hide Run, HeldUpThenRefused, AdmittedIn, Clocked, UsesRule, Refill, TakeToken;
    var before, late := HeldUpThenRefused(key, rule), Take(1, IDLE_UNTIL);
    var s := Run(EMPTY, before);
    RefusedState(key, rule);
    EmptyRefuses(rule, IDLE_UNTIL);
    IdleRefills(rule);
    var s' := Step(s, Take(0, IDLE_UNTIL));
    assert s'.levels[0] == s.levels[0] && 1 in s'.pending && s'.pending[1] == Pending(key, rule, 0);
    TakeOne(s', 1, key, rule, 0, IDLE_UNTIL);
    OneEvent(s', late, key);
    RefusedIsClocked(key, rule);
  }

  lemma RefusedIsClocked(key: string, rule: Limiting)
    ensures var evs := HeldUpThenRefused(key, rule) + [Take(0, IDLE_UNTIL)] + [Take(1, IDLE_UNTIL)];
            Clocked(evs) && UsesRule(evs, key, rule)
  {
    hide Calls, Lookups, NormalizeRule;
    NormalizeLimiting(rule);
    var first, second := MadeEarly(key, rule),
      HeldUp(1, key, rule) + [Lookup(0, key, rule, IDLE_UNTIL), Take(0, IDLE_UNTIL), Take(1, IDLE_UNTIL)];
    forall i | 0 <= i < |second| ensures second[i].at == IDLE_UNTIL && (second[i].Lookup? ==> second[i].rule == rule) { }
    OneInstant(first, key, rule, 0.0);
    OneInstant(second, key, rule, IDLE_UNTIL);
    ClockedJoin(first, second, key, rule);
    assert HeldUpThenRefused(key, rule) + [Take(0, IDLE_UNTIL)] + [Take(1, IDLE_UNTIL)] == first + second;
  }

  /** EXACTLY WHEN the wait is kept: never over all runs, whatever the rule; always over
      the runs in which no sweep drops a bucket that a call holds. */
  lemma WaitKeptExactlyWhen(rule: Limiting)
    ensures !WaitKept(rule) && WaitKeptUnlessHeld(rule)
  {
    hide Told, TooEarly, HeldIn, HeldUpThenRefused;
    HeldCallBeatsWait("", rule);
    forall before, call, key, t, polls |
      Told(before, call, key, rule, t, polls) && HeldIn(EMPTY, Whole(before, call, t, polls), key) == 0
      ensures TooEarly(before, call, key, t, polls) == 0
    {
      ToldIsKept(before, call, key, rule, t, polls);
    }
  }
}
