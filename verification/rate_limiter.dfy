/** The token-bucket limiter of middleware/ratelimit.go at lock granularity: a call
    looks its bucket up under the limiter's lock and takes a token later, under the
    bucket's own lock, while other calls and the sweeper go on. Tokens and seconds are
    real numbers; a clock reading is a number of seconds. */
module RateLimiter {

  datatype Rule = Rule(rpm: int, burst: int)

  /** A rule that limits at all, once normalised. */
  type Limiting = r: Rule | r.rpm > 0 && r.burst >= 1 witness Rule(1, 1)

  /** What one bucket remembers. */
  datatype Level = Level(tokens: real, lastRefill: real)

  datatype Verdict = Unlimited | Admitted | Refused(wait: real)

  const STALE_AFTER := 600.0

  /** Negative parts become zero, and a limiting rule gets a burst of at least one. */
  function NormalizeRule(rule: Rule): (r: Rule)
    ensures r.rpm >= 0 && r.burst >= 0
    ensures r.rpm > 0 ==> r.burst >= 1
    ensures rule.rpm >= 0 ==> r.rpm == rule.rpm
    ensures rule.burst >= 1 || (rule.burst == 0 && rule.rpm <= 0) ==> r.burst == rule.burst
    ensures r.burst > rule.burst ==> r.burst == if rule.rpm > 0 then 1 else 0
  {
    var r0 := if rule.rpm < 0 then rule.(rpm := 0) else rule;
    var r1 := if r0.rpm > 0 && r0.burst <= 0 then r0.(burst := 1) else r0;
    if r1.burst < 0 then r1.(burst := 0) else r1
  }

  /** Tokens a rule hands out in so many seconds. */
  function Earned(seconds: real, rule: Rule): real {
    seconds * (rule.rpm as real / 60.0)
  }

  function Cap(tokens: real, rule: Rule): real {
    if tokens > rule.burst as real then rule.burst as real else tokens
  }

  /** Tokens in a bucket once it has been refilled up to `now`. */
  function Refill(b: Level, rule: Rule, now: real): real {
    Cap(b.tokens + Earned(now - b.lastRefill, rule), rule)
  }

  function SecondsToNext(tokens: real, rule: Limiting): real {
    (1.0 - tokens) / (rule.rpm as real / 60.0)
  }

  function TakeToken(b: Level, rule: Limiting, now: real): (Level, Verdict) {
    var tokens := Refill(b, rule, now);
    if tokens < 1.0 then (Level(tokens, now), Refused(SecondsToNext(tokens, rule)))
    else (Level(tokens - 1.0, now), Admitted)
  }

  predicate Stale(b: Level, now: real) {
    b.lastRefill < now - STALE_AFTER
  }

  // ---- buckets with identity ---------------------------------------------

  /** A call between its two critical sections keeps the bucket it found. */
  datatype Pending = Pending(key: string, rule: Limiting, id: nat)

  /** Buckets are numbered as they are made; the map says which one a key has now. A
      bucket dropped from the map lives on for the calls that found it. */
  datatype State = State(buckets: map<string, nat>, levels: seq<Level>, pending: map<nat, Pending>)

  const EMPTY := State(map[], [], map[])

  /** Under the limiter's lock: find the key's bucket or make a full one. */
  function LookupStep(s: State, call: nat, key: string, rawRule: Rule, at: real): State {
    var rule := NormalizeRule(rawRule);
    if rule.rpm <= 0 then s
    else if key in s.buckets then s.(pending := s.pending[call := Pending(key, rule, s.buckets[key])])
    else
      var id := |s.levels|;
      State(s.buckets[key := id], s.levels + [Level(rule.burst as real, at)], s.pending[call := Pending(key, rule, id)])
  }

  predicate Waiting(s: State, call: nat) {
    call in s.pending && s.pending[call].id < |s.levels|
  }

  /** Under the bucket's lock: refill, then take a token or refuse. */
  function TakeStep(s: State, call: nat, at: real): (State, Verdict) {
    if !Waiting(s, call) then (s, Unlimited)
    else
      var p := s.pending[call];
      var (b, verdict) := TakeToken(s.levels[p.id], p.rule, at);
      (s.(levels := s.levels[p.id := b], pending := s.pending - {call}), verdict)
  }

  predicate Drops(s: State, key: string, at: real) {
    key in s.buckets && s.buckets[key] < |s.levels| && Stale(s.levels[s.buckets[key]], at)
  }

  /** The sweeper's look at one key, with a clock reading from before it got the lock. */
  function SweepStep(s: State, key: string, at: real): State {
    if Drops(s, key, at) then s.(buckets := s.buckets - {key}) else s
  }

  // ---- runs --------------------------------------------------------------

  datatype Event =
    | Lookup(call: nat, key: string, rule: Rule, at: real)
    | Take(call: nat, at: real)
    | Sweep(key: string, at: real)

  function Step(s: State, e: Event): State {
    match e
    case Lookup(call, key, rule, at) => LookupStep(s, call, key, rule, at)
    case Take(call, at) => TakeStep(s, call, at).0
    case Sweep(key, at) => SweepStep(s, key, at)
  }

  function Run(s: State, evs: seq<Event>): State
    decreases |evs|
  {
    if evs == [] then s else Run(Step(s, evs[0]), evs[1..])
  }

  predicate TakesFor(s: State, e: Event, key: string) {
    e.Take? && Waiting(s, e.call) && s.pending[e.call].key == key
  }

  /** The call holds a bucket that is no longer the key's. */
  predicate Detached(s: State, call: nat)
    requires call in s.pending
  {
    var p := s.pending[call];
    p.key !in s.buckets || s.buckets[p.key] != p.id
  }

  /** 1 when the event admits a call for `key`. */
  function Count(s: State, e: Event, key: string): nat {
    if TakesFor(s, e, key) && TakeStep(s, e.call, e.at).1.Admitted? then 1 else 0
  }

  /** 1 when it does so from a bucket the sweeper has dropped meanwhile. */
  function StrayCount(s: State, e: Event, key: string): nat {
    if Count(s, e, key) == 1 && Detached(s, e.call) then 1 else 0
  }

  function Holders(s: State, id: nat): set<nat> {
    set call | call in s.pending && s.pending[call].id == id
  }

  /** How many calls hold the bucket that the event drops. */
  function HeldCount(s: State, e: Event, key: string): nat {
    if e.Sweep? && e.key == key && Drops(s, key, e.at) then |Holders(s, s.buckets[key])| else 0
  }

  /** How many calls for `key` a run admits. */
  function AdmittedIn(s: State, evs: seq<Event>, key: string): nat
    decreases |evs|
  {
    if evs == [] then 0 else Count(s, evs[0], key) + AdmittedIn(Step(s, evs[0]), evs[1..], key)
  }

  /** How many of them from dropped buckets. */
  function StraysIn(s: State, evs: seq<Event>, key: string): nat
    decreases |evs|
  {
    if evs == [] then 0 else StrayCount(s, evs[0], key) + StraysIn(Step(s, evs[0]), evs[1..], key)
  }

  /** How many calls lose their bucket to the sweeper in a run. */
  function HeldIn(s: State, evs: seq<Event>, key: string): nat
    decreases |evs|
  {
    if evs == [] then 0 else HeldCount(s, evs[0], key) + HeldIn(Step(s, evs[0]), evs[1..], key)
  }

  /** Both critical sections read a clock that never runs backwards; the sweeper may
      carry an earlier reading. */
  predicate Clocked(evs: seq<Event>) {
    forall i, j :: 0 <= i < j < |evs| && !evs[j].Sweep? ==> evs[i].at <= evs[j].at
  }

  predicate UsesRule(evs: seq<Event>, key: string, rule: Limiting) {
    forall i :: 0 <= i < |evs| && evs[i].Lookup? && evs[i].key == key ==> NormalizeRule(evs[i].rule) == rule
  }

  // ---- arithmetic of earning ---------------------------------------------

  lemma EarnedSum(a: real, b: real, rule: Rule)
    ensures Earned(a + b, rule) == Earned(a, rule) + Earned(b, rule)
    ensures Earned(0.0, rule) == 0.0
  {
  }

  lemma EarnedSign(a: real, rule: Limiting)
    ensures a >= 0.0 ==> Earned(a, rule) >= 0.0
    ensures a > 0.0 ==> Earned(a, rule) > 0.0
  {
  }

  lemma EarnedGrows(a: real, b: real, rule: Limiting)
    requires a <= b
    ensures Earned(a, rule) <= Earned(b, rule)
  {
    hide Earned;
    EarnedSum(a, b - a, rule);
    EarnedSign(b - a, rule);
    assert a + (b - a) == b;
  }

  lemma TenMinutes(rule: Limiting)
    requires rule.burst <= 10 * rule.rpm
    ensures Earned(STALE_AFTER, rule) >= rule.burst as real
  {
    var r := rule.rpm as real;
    assert 600.0 * (r / 60.0) == 10.0 * r;
    assert rule.burst as real <= (10 * rule.rpm) as real;
  }

  function Later(a: real, b: real): real {
    if a < b then b else a
  }

  lemma RefillNow(b: Level, rule: Limiting)
    requires b.tokens <= rule.burst as real
    ensures Refill(b, rule, b.lastRefill) == b.tokens
  {
    hide Earned;
    EarnedSum(0.0, 0.0, rule);
    assert b.lastRefill - b.lastRefill == 0.0;
  }

  lemma RefillInRange(b: Level, rule: Limiting, now: real)
    requires 0.0 <= b.tokens && b.lastRefill <= now
    ensures 0.0 <= Refill(b, rule, now) <= rule.burst as real
  {
    hide Earned;
    EarnedSign(now - b.lastRefill, rule);
  }

  /** Waiting earns no more than the rule hands out. */
  lemma RefillGrows(b: Level, rule: Limiting, now: real, later: real)
    requires now <= later
    ensures Refill(b, rule, later) <= Refill(b, rule, now) + Earned(later - now, rule)
  {
    hide Earned;
    EarnedSign(later - now, rule);
    EarnedSum(now - b.lastRefill, later - now, rule);
    assert now - b.lastRefill + (later - now) == later - b.lastRefill;
  }

  /** A bucket idle for over ten minutes is full again when the burst is at most ten
      minutes' worth of requests. */
  lemma IdleIsFull(b: Level, rule: Limiting, sweepAt: real, now: real)
    requires rule.burst <= 10 * rule.rpm && 0.0 <= b.tokens && Stale(b, sweepAt) && sweepAt <= now
    ensures Refill(b, rule, now) == rule.burst as real
  {
    hide Earned;
    EarnedGrows(STALE_AFTER, now - b.lastRefill, rule);
    TenMinutes(rule);
  }

  /** A token is spent if the call is admitted and none otherwise. */
  lemma TakeSpends(b: Level, rule: Limiting, now: real)
    requires 0.0 <= b.tokens && b.lastRefill <= now
    ensures var (b', v) := TakeToken(b, rule, now);
            && Refill(b', rule, now) == Refill(b, rule, now) - (if v.Admitted? then 1.0 else 0.0)
            && 0.0 <= b'.tokens <= rule.burst as real && b'.lastRefill == now
  {
    hide Earned;
    RefillInRange(b, rule, now);
    RefillNow(TakeToken(b, rule, now).0, rule);
  }

  // ---- what every state keeps --------------------------------------------

  /** Numbers are in use, no two keys share a bucket, and a call that holds the bucket
      a key has now is a call for that key. */
  ghost predicate Shape(s: State) {
    && (forall k :: k in s.buckets ==> s.buckets[k] < |s.levels|)
    && (forall j, k :: j in s.buckets && k in s.buckets && s.buckets[j] == s.buckets[k] ==> j == k)
    && (forall c :: c in s.pending ==> s.pending[c].id < |s.levels|)
    && (forall c, k :: c in s.pending && k in s.buckets && s.pending[c].id == s.buckets[k] ==> s.pending[c].key == k)
  }

  /** Calls for the key are under its rule, and its bucket holds between none and all. */
  ghost predicate KeyFits(s: State, key: string, rule: Limiting, now: real) {
    && (forall c :: c in s.pending && s.pending[c].key == key ==> s.pending[c].rule == rule)
    && (key in s.buckets && s.buckets[key] < |s.levels| ==>
          0.0 <= s.levels[s.buckets[key]].tokens <= rule.burst as real && s.levels[s.buckets[key]].lastRefill <= now)
  }

  /** The next event comes in time and under the key's rule. */
  predicate Fits(e: Event, key: string, rule: Limiting, now: real) {
    && (!e.Sweep? ==> now <= e.at)
    && (e.Lookup? && e.key == key ==> NormalizeRule(e.rule) == rule)
  }

  lemma StepShape(s: State, e: Event)
    requires Shape(s)
    ensures Shape(Step(s, e))
  {
    hide TakeToken, NormalizeRule, Stale;
  }

  lemma StepFits(s: State, e: Event, key: string, rule: Limiting, now: real)
    requires Shape(s) && KeyFits(s, key, rule, now) && Fits(e, key, rule, now)
    ensures KeyFits(Step(s, e), key, rule, Later(now, e.at))
  {
    hide TakeToken, NormalizeRule, Stale;
    if e.Take? && Waiting(s, e.call) && key in s.buckets && s.pending[e.call].id == s.buckets[key] {
      TakeSpends(s.levels[s.buckets[key]], rule, e.at);
    }
  }

  // ---- the bound ---------------------------------------------------------

  /** Tokens the key's current bucket could spend at `now`; a missing one counts as full. */
  ghost function Budget(s: State, key: string, rule: Limiting, now: real): real {
    if key in s.buckets && s.buckets[key] < |s.levels| then Refill(s.levels[s.buckets[key]], rule, now)
    else rule.burst as real
  }

  lemma BudgetInRange(s: State, key: string, rule: Limiting, now: real)
    requires KeyFits(s, key, rule, now)
    ensures 0.0 <= Budget(s, key, rule, now) <= rule.burst as real
  {
    hide Earned, Refill;
    if key in s.buckets && s.buckets[key] < |s.levels| {
      RefillInRange(s.levels[s.buckets[key]], rule, now);
    }
  }

  lemma BudgetGrows(s: State, key: string, rule: Limiting, now: real, later: real)
    requires now <= later
    ensures Budget(s, key, rule, later) <= Budget(s, key, rule, now) + Earned(later - now, rule)
  {
    hide Earned, Refill;
    EarnedSign(later - now, rule);
    if key in s.buckets && s.buckets[key] < |s.levels| {
      RefillGrows(s.levels[s.buckets[key]], rule, now, later);
    }
  }

  /** Dropping a stale bucket changes no budget. */
  lemma SweepKeepsBudget(s: State, key: string, rule: Limiting, swept: string, sweepAt: real, now: real)
    requires rule.burst <= 10 * rule.rpm && Shape(s) && KeyFits(s, key, rule, now) && sweepAt <= now
    ensures Budget(SweepStep(s, swept, sweepAt), key, rule, now) == Budget(s, key, rule, now)
  {
    hide Earned, Refill, Stale;
    if swept == key && Drops(s, key, sweepAt) {
      IdleIsFull(s.levels[s.buckets[key]], rule, sweepAt, now);
    }
  }

  lemma LookupKeepsBudget(s: State, key: string, rule: Limiting, e: Event, now: real)
    requires Shape(s) && e.Lookup? && Fits(e, key, rule, now)
    ensures Budget(Step(s, e), key, rule, e.at) == Budget(s, key, rule, e.at)
  {
    hide Refill, NormalizeRule;
    RefillFull(rule, e.at);
  }

  lemma RefillFull(rule: Limiting, at: real)
    ensures Refill(Level(rule.burst as real, at), rule, at) == rule.burst as real
  {
    RefillNow(Level(rule.burst as real, at), rule);
  }

  /** A take spends one token of the key's bucket if it is admitted from that bucket. */
  lemma TakeSpendsBudget(s: State, key: string, rule: Limiting, e: Event, now: real)
    requires Shape(s) && KeyFits(s, key, rule, now) && e.Take? && Fits(e, key, rule, now)
    ensures Budget(Step(s, e), key, rule, e.at) == Budget(s, key, rule, e.at) - (Count(s, e, key) - StrayCount(s, e, key)) as real
  {
    hide Refill, TakeToken;
    if Waiting(s, e.call) && key in s.buckets && s.pending[e.call].id == s.buckets[key] {
      TakeSpends(s.levels[s.buckets[key]], rule, e.at);
    }
  }

  lemma StepSpends(s: State, e: Event, key: string, rule: Limiting, now: real)
    requires rule.burst <= 10 * rule.rpm && Shape(s) && KeyFits(s, key, rule, now) && Fits(e, key, rule, now)
    ensures Budget(Step(s, e), key, rule, Later(now, e.at)) + (Count(s, e, key) - StrayCount(s, e, key)) as real
         <= Budget(s, key, rule, now) + Earned(Later(now, e.at) - now, rule)
  {
    hide Earned, Refill, Budget, Shape, LookupStep, TakeStep, SweepStep;
    var mid := Later(now, e.at);
    BudgetGrows(s, key, rule, now, mid);
    match e
    case Lookup(_, _, _, _) => LookupKeepsBudget(s, key, rule, e, now);
    case Take(_, _) => TakeSpendsBudget(s, key, rule, e, now);
    case Sweep(swept, at) =>
      FitsLater(s, key, rule, now, mid);
      SweepKeepsBudget(s, key, rule, swept, at, mid);
  }

  lemma FitsLater(s: State, key: string, rule: Limiting, now: real, later: real)
    requires KeyFits(s, key, rule, now) && now <= later
    ensures KeyFits(s, key, rule, later)
  {
  }

  /** The events still to come, read from the front: in time, everything by `end`, the
      key always under its rule. */
  ghost predicate Schedule(evs: seq<Event>, key: string, rule: Limiting, now: real, end: real)
    decreases |evs|
  {
    evs == [] ||
    (evs[0].at <= end && Fits(evs[0], key, rule, now) && Schedule(evs[1..], key, rule, Later(now, evs[0].at), end))
  }

  /** From any state in range, what a window admits from the key's current buckets is
      paid from the budget at its start plus what the window earns. */
  lemma {:induction false} WindowSpends(s: State, evs: seq<Event>, key: string, rule: Limiting, now: real, end: real)
    requires rule.burst <= 10 * rule.rpm && Shape(s) && KeyFits(s, key, rule, now)
    requires Schedule(evs, key, rule, now, end) && now <= end
    ensures (AdmittedIn(s, evs, key) - StraysIn(s, evs, key)) as real <= Budget(s, key, rule, now) + Earned(end - now, rule)
    decreases |evs|
  {
    hide Earned, Budget, Step, Count, StrayCount, Shape, KeyFits, Fits;
    if evs == [] {
      BudgetInRange(s, key, rule, now);
      EarnedSign(end - now, rule);
    } else {
      var mid := Later(now, evs[0].at);
      StepShape(s, evs[0]);
      StepFits(s, evs[0], key, rule, now);
      WindowSpends(Step(s, evs[0]), evs[1..], key, rule, mid, end);
      StepSpends(s, evs[0], key, rule, now);
      EarnedSum(mid - now, end - mid, rule);
      assert mid - now + (end - mid) == end - now;
    }
  }

  lemma {:induction false} ClockedSchedule(evs: seq<Event>, key: string, rule: Limiting, now: real, end: real)
    requires Clocked(evs) && UsesRule(evs, key, rule)
    requires forall i :: 0 <= i < |evs| ==> evs[i].at <= end && (!evs[i].Sweep? ==> now <= evs[i].at)
    ensures Schedule(evs, key, rule, now, end)
    decreases |evs|
  {
    hide NormalizeRule;
    if evs != [] {
      assert forall i :: 0 <= i < |evs[1..]| ==> evs[1..][i] == evs[i + 1];
      ClockedSchedule(evs[1..], key, rule, Later(now, evs[0].at), end);
    }
  }

  /** What any scheduled run leaves behind for a key. */
  lemma {:induction false} RunFits(s: State, evs: seq<Event>, key: string, rule: Limiting, now: real, end: real)
    requires Shape(s) && KeyFits(s, key, rule, now) && Schedule(evs, key, rule, now, end) && now <= end
    ensures Shape(Run(s, evs)) && KeyFits(Run(s, evs), key, rule, end)
    decreases |evs|
  {
    hide Step, Shape, KeyFits, Fits;
    if evs == [] {
      FitsLater(s, key, rule, now, end);
    } else {
      StepShape(s, evs[0]);
      StepFits(s, evs[0], key, rule, now);
      RunFits(Step(s, evs[0]), evs[1..], key, rule, Later(now, evs[0].at), end);
    }
  }

  lemma EmptyFits(key: string, rule: Limiting, now: real)
    ensures Shape(EMPTY) && KeyFits(EMPTY, key, rule, now)
  {
  }

  /** A time no later than `t` and than every event. */
  ghost function Earliest(evs: seq<Event>, t: real): (r: real)
    ensures r <= t && forall i :: 0 <= i < |evs| ==> r <= evs[i].at
  {
    if evs == [] then t
    else
      var r := Earliest(evs[1..], t);
      assert forall i :: 1 <= i < |evs| ==> evs[i] == evs[1..][i - 1];
      if evs[0].at < r then evs[0].at else r
  }

  // ---- calls that lose their bucket --------------------------------------

  /** The calls for the key that hold a bucket it no longer has. */
  ghost function Loose(s: State, key: string): set<nat> {
    set c | c in s.pending && s.pending[c].key == key && Detached(s, c)
  }

  lemma LooseAfterLookup(s: State, e: Event, key: string)
    requires Shape(s) && e.Lookup?
    ensures Loose(Step(s, e), key) <= Loose(s, key)
  {
    hide NormalizeRule;
  }

  lemma LooseAfterTake(s: State, e: Event, key: string)
    requires Shape(s) && e.Take?
    ensures Loose(Step(s, e), key) <= Loose(s, key) - {e.call}
    ensures StrayCount(s, e, key) == 1 ==> e.call in Loose(s, key)
  {
    hide TakeToken;
  }

  lemma LooseAfterSweep(s: State, e: Event, key: string)
    requires e.Sweep?
    ensures !(e.key == key && Drops(s, key, e.at)) ==> Loose(Step(s, e), key) <= Loose(s, key)
    ensures e.key == key && Drops(s, key, e.at) ==> Loose(Step(s, e), key) <= Loose(s, key) + Holders(s, s.buckets[key])
  {
    hide Stale;
  }

  /** A stray admission uses up a loose call, and only the sweeper makes calls loose. */
  lemma StrayStep(s: State, e: Event, key: string)
    requires Shape(s)
    ensures |Loose(Step(s, e), key)| + StrayCount(s, e, key) <= |Loose(s, key)| + HeldCount(s, e, key)
  {
    hide Step, Loose, Shape, TakeStep, Holders, Stale;
    var before, after := Loose(s, key), Loose(Step(s, e), key);
    match e
    case Lookup(_, _, _, _) =>
      LooseAfterLookup(s, e, key);
      Smaller(after, before);
    case Take(call, _) =>
      LooseAfterTake(s, e, key);
      Smaller(after, before - {call});
    case Sweep(_, at) =>
      LooseAfterSweep(s, e, key);
      if e.key == key && Drops(s, key, at) {
        var held := Holders(s, s.buckets[key]);
        Smaller(after, before + held);
        assert |before + held| <= |before| + |held|;
      } else {
        Smaller(after, before);
      }
  }

  lemma {:induction false} Smaller(a: set<nat>, b: set<nat>)
    requires a <= b
    ensures |a| <= |b|
    decreases |a|
  {
    if a != {} {
      var x :| x in a;
      Smaller(a - {x}, b - {x});
    }
  }

  /** STRAYS WERE HELD. Admissions from dropped buckets are at most the calls that held
      a bucket when the sweeper dropped it. */
  lemma {:induction false} StraysWereHeld(s: State, evs: seq<Event>, key: string)
    requires Shape(s)
    ensures StraysIn(s, evs, key) + |Loose(Run(s, evs), key)| <= |Loose(s, key)| + HeldIn(s, evs, key)
    decreases |evs|
  {
    hide Step, StrayCount, HeldCount, Loose, Shape;
    if evs != [] {
      StepShape(s, evs[0]);
      StrayStep(s, evs[0], key);
      StraysWereHeld(Step(s, evs[0]), evs[1..], key);
    }
  }

  lemma {:induction false} RunSplits(s: State, a: seq<Event>, b: seq<Event>, key: string)
    ensures Run(s, a + b) == Run(Run(s, a), b)
    ensures AdmittedIn(s, a + b, key) == AdmittedIn(s, a, key) + AdmittedIn(Run(s, a), b, key)
    ensures StraysIn(s, a + b, key) == StraysIn(s, a, key) + StraysIn(Run(s, a), b, key)
    ensures HeldIn(s, a + b, key) == HeldIn(s, a, key) + HeldIn(Run(s, a), b, key)
    decreases |a|
  {
    hide Step, Count, StrayCount, HeldCount;
    if a == [] {
      assert a + b == b;
    } else {
      assert (a + b)[1..] == a[1..] + b;
      RunSplits(Step(s, a[0]), a[1..], b, key);
    }
  }

  // ---- the bound over runs -----------------------------------------------

  /** A window of a run under one rule for the key, from `start` to `end`. */
  ghost predicate Window(before: seq<Event>, window: seq<Event>, key: string, rule: Limiting, start: real, end: real) {
    && Clocked(before + window) && UsesRule(before + window, key, rule) && start <= end
    && (forall i :: 0 <= i < |window| ==> window[i].at <= end)
    && (forall i :: 0 <= i < |window| && !window[i].Sweep? ==> start <= window[i].at)
  }

  /** What the rule promises for so many seconds. */
  function Allowance(rule: Limiting, seconds: real): real {
    rule.burst as real + rule.rpm as real * seconds / 60.0
  }

  lemma AllowanceEarns(rule: Limiting, seconds: real)
    ensures Allowance(rule, seconds) == rule.burst as real + Earned(seconds, rule)
  {
  }

  /** Where a window's own clock starts: at its first critical section. */
  lemma {:induction false} Opening(before: seq<Event>, window: seq<Event>, k: nat, start: real, end: real) returns (now: real)
    requires Clocked(before + window) && start <= end && k <= |window|
    requires forall i :: 0 <= i < |window| ==> window[i].at <= end
    requires forall i :: 0 <= i < |window| && !window[i].Sweep? ==> start <= window[i].at
    requires forall i :: 0 <= i < k ==> window[i].Sweep?
    ensures start <= now <= end || forall i :: 0 <= i < |window| ==> window[i].Sweep?
    ensures forall i :: 0 <= i < |before| ==> before[i].at <= now || forall j :: 0 <= j < |window| ==> window[j].Sweep?
    ensures forall i :: 0 <= i < |window| && !window[i].Sweep? ==> now <= window[i].at
    decreases |window| - k
  {
    var evs := before + window;
    assert forall i :: 0 <= i < |before| ==> evs[i] == before[i];
    assert forall i :: 0 <= i < |window| ==> evs[|before| + i] == window[i];
    if k == |window| {
      now := start;
    } else if window[k].Sweep? {
      now := Opening(before, window, k + 1, start, end);
    } else {
      now := window[k].at;
    }
  }

  lemma {:induction false} SweepsAdmitNone(s: State, evs: seq<Event>, key: string)
    requires forall i :: 0 <= i < |evs| ==> evs[i].Sweep?
    ensures AdmittedIn(s, evs, key) == 0
    decreases |evs|
  {
    hide SweepStep;
    if evs != [] {
      SweepsAdmitNone(Step(s, evs[0]), evs[1..], key);
    }
  }

  lemma Halves(before: seq<Event>, window: seq<Event>, key: string, rule: Limiting)
    requires Clocked(before + window) && UsesRule(before + window, key, rule)
    ensures Clocked(before) && UsesRule(before, key, rule) && Clocked(window) && UsesRule(window, key, rule)
  {
    hide NormalizeRule;
    var evs := before + window;
    assert forall i :: 0 <= i < |before| ==> evs[i] == before[i];
    assert forall i :: 0 <= i < |window| ==> evs[|before| + i] == window[i];
  }

  /** THE BOUND. After any run, and with sweeps anywhere, also between the two critical
      sections of a call, a window of T seconds admits at most burst + rpm * T / 60 calls
      from the key's current buckets, if the burst is at most ten minutes' worth. */
  lemma AdmissionBound(before: seq<Event>, window: seq<Event>, key: string, rule: Limiting, start: real, end: real)
    requires rule.burst <= 10 * rule.rpm && Window(before, window, key, rule, start, end)
    ensures AdmittedIn(Run(EMPTY, before), window, key) as real
         <= Allowance(rule, end - start) + StraysIn(Run(EMPTY, before), window, key) as real
  {
    hide Earned, Step, Count, StrayCount, Shape, KeyFits, Run, AdmittedIn, StraysIn, Schedule, Clocked, UsesRule, Allowance;
    var s := Run(EMPTY, before);
    AllowanceEarns(rule, end - start);
    EarnedSign(end - start, rule);
    Halves(before, window, key, rule);
    if forall i :: 0 <= i < |window| ==> window[i].Sweep? {
      SweepsAdmitNone(s, window, key);
    } else {
      var now := Opening(before, window, 0, start, end);
      var first := Earliest(before, now);
      EmptyFits(key, rule, first);
      ClockedSchedule(before, key, rule, first, now);
      RunFits(EMPTY, before, key, rule, first, now);
      ClockedSchedule(window, key, rule, now, end);
      WindowSpends(s, window, key, rule, now, end);
      BudgetInRange(s, key, rule, now);
      EarnedGrows(end - now, end - start, rule);
    }
  }

  /** THE BOUND WITH RACES. Every window of every run keeps the promise apart from the
      calls that held a bucket when the sweeper dropped it. */
  lemma HeldBound(before: seq<Event>, window: seq<Event>, key: string, rule: Limiting, start: real, end: real)
    requires rule.burst <= 10 * rule.rpm && Window(before, window, key, rule, start, end)
    ensures AdmittedIn(Run(EMPTY, before), window, key) as real
         <= Allowance(rule, end - start) + HeldIn(EMPTY, before + window, key) as real
  {
    hide Step, Run, AdmittedIn, StraysIn, HeldIn, Window, Allowance, Loose;
    AdmissionBound(before, window, key, rule, start, end);
    EmptyFits(key, rule, start);
    StraysWereHeld(EMPTY, before + window, key);
    RunSplits(EMPTY, before, window, key);
    NothingLoose(key);
  }

  lemma NothingLoose(key: string)
    ensures |Loose(EMPTY, key)| == 0
  {
    assert Loose(EMPTY, key) == {};
  }
}
