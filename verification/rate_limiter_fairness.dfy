/** The other half of the limiter's promise: what it may not refuse. A call is turned away
    only when the key's own calls have used its rate up. */
module RateLimiterFairness {
  import opened RateLimiter
  import opened RateLimiterRaces
  import opened RateLimiterWait

  /** Calls for the key that a stretch of a run admits from the buckets the key had then. */
  function Spent(before: seq<Event>, window: seq<Event>, key: string): int {
    AdmittedIn(Run(EMPTY, before), window, key) - StraysIn(Run(EMPTY, before), window, key)
  }

  /** Since number `k`, at `start`, the key's bucket has never been full again: what it
      holds is what it held then, plus what was earned, less what was spent. */
  ghost predicate Ledger(evs: seq<Event>, n: nat, key: string, rule: Limiting, k: nat, start: real) {
    && k <= n <= |evs|
    && var s := Run(EMPTY, evs[..n]);
       && key in s.buckets && s.buckets[key] < |s.levels|
       && var b := s.levels[s.buckets[key]];
          && start <= b.lastRefill
          && b.tokens == rule.burst as real + Earned(b.lastRefill - start, rule) - Spent(evs[..k], evs[k..n], key) as real
  }

  // ---- one event ---------------------------------------------------------

  /** How an event changes the bucket a key has: it is made, left alone, or taken from. */
  lemma BucketChanges(s: State, e: Event, key: string, rule: Limiting, now: real)
    requires Shape(s) && KeyFits(s, key, rule, now) && Fits(e, key, rule, now) && key in Step(s, e).buckets
    ensures var after, spent := Step(s, e).levels[Step(s, e).buckets[key]], Count(s, e, key) - StrayCount(s, e, key);
            if key !in s.buckets then !e.Sweep? && after == Level(rule.burst as real, e.at) && spent == 0
            else if TakesFor(s, e, key) && !Detached(s, e.call) then
              after == TakeToken(s.levels[s.buckets[key]], rule, e.at).0
              && spent == (if TakeToken(s.levels[s.buckets[key]], rule, e.at).1.Admitted? then 1 else 0)
            else after == s.levels[s.buckets[key]] && spent == 0
  {
    hide TakeToken, NormalizeRule, Stale;
  }

  /** A take from a full bucket leaves all but one; from any other, what it held and earned. */
  lemma TakeAccounts(b: Level, rule: Limiting, at: real)
    ensures var (after, verdict) := TakeToken(b, rule, at);
            && after.lastRefill == at && (verdict.Admitted? || after.tokens < 1.0)
            && if b.tokens + Earned(at - b.lastRefill, rule) >= rule.burst as real
               then verdict == Admitted && after.tokens == rule.burst as real - 1.0
               else after.tokens == b.tokens + Earned(at - b.lastRefill, rule) - if verdict.Admitted? then 1.0 else 0.0
  {
    hide Earned, SecondsToNext;
  }

  lemma SpentStep(evs: seq<Event>, k: nat, n: nat, key: string)
    requires k <= n < |evs|
    ensures Run(EMPTY, evs[..n + 1]) == Step(Run(EMPTY, evs[..n]), evs[n])
    ensures Spent(evs[..k], evs[k..n + 1], key)
         == Spent(evs[..k], evs[k..n], key) + Count(Run(EMPTY, evs[..n]), evs[n], key) - StrayCount(Run(EMPTY, evs[..n]), evs[n], key)
  {
    hide Run, Step, Count, StrayCount, AdmittedIn, StraysIn, HeldIn;
    var s := Run(EMPTY, evs[..n]);
    assert evs[..n] == evs[..k] + evs[k..n] && evs[..n + 1] == evs[..n] + [evs[n]] && evs[k..n + 1] == evs[k..n] + [evs[n]];
    RunSplits(EMPTY, evs[..k], evs[k..n], key);
    RunSplits(EMPTY, evs[..n], [evs[n]], key);
    RunSplits(Run(EMPTY, evs[..k]), evs[k..n], [evs[n]], key);
    OneEvent(s, evs[n], key);
    OneStray(s, evs[n], key);
  }

  lemma OneStray(s: State, e: Event, key: string)
    ensures StraysIn(s, [e], key) == StrayCount(s, e, key)
  {
    hide Step, StrayCount;
    assert [e][1..] == [];
  }

  lemma NothingSpent(evs: seq<Event>, n: nat, key: string)
    requires n <= |evs|
    ensures Spent(evs[..n], evs[n..n], key) == 0
  {
    hide Run;
    assert evs[n..n] == [];
  }

  // ---- runs --------------------------------------------------------------

  /** The state before number `n`, and that its event fits. */
  lemma PrefixFits(evs: seq<Event>, n: nat, key: string, rule: Limiting)
    requires Clocked(evs) && UsesRule(evs, key, rule) && n < |evs| && !evs[n].Sweep?
    ensures Shape(Run(EMPTY, evs[..n])) && KeyFits(Run(EMPTY, evs[..n]), key, rule, evs[n].at)
    ensures Fits(evs[n], key, rule, evs[n].at)
  {
    hide Run, Shape, KeyFits, Loose, HeldIn, NormalizeRule;
    ReachedState(evs[..n], key, rule, evs[n].at);
  }

  lemma SweepKeepsLedger(evs: seq<Event>, n: nat, key: string, rule: Limiting, k: nat, start: real)
    requires n < |evs| && evs[n].Sweep? && Ledger(evs, n, key, rule, k, start) && key in Run(EMPTY, evs[..n + 1]).buckets
    ensures Ledger(evs, n + 1, key, rule, k, start)
  {
    hide Run, Earned, Spent, Stale;
    SpentStep(evs, k, n, key);
  }

  /** Where the ledger starts anew when a call takes from the bucket, or makes it. */
  lemma LedgerStep(evs: seq<Event>, n: nat, key: string, rule: Limiting, k: nat, start: real) returns (from: nat, since: real)
    requires Clocked(evs) && UsesRule(evs, key, rule) && n < |evs| && !evs[n].Sweep?
    requires key in Run(EMPTY, evs[..n]).buckets && Ledger(evs, n, key, rule, k, start)
    ensures key in Run(EMPTY, evs[..n + 1]).buckets && Ledger(evs, n + 1, key, rule, from, since)
    ensures (from == k && since == start) || (from == n && since == evs[n].at)
  {
    hide Run, Step, Shape, KeyFits, Fits, Earned, Spent, TakeToken, Count, StrayCount, Detached, Clocked, UsesRule;
    var s, e := Run(EMPTY, evs[..n]), evs[n];
    PrefixFits(evs, n, key, rule);
    KeysStay(s, e, key);
    BucketChanges(s, e, key, rule, e.at);
    SpentStep(evs, k, n, key);
    SpentStep(evs, n, n, key);
    NothingSpent(evs, n, key);
    StepShape(s, e);
    ShapeBounds(Step(s, e), key);
    from, since := k, start;
    if TakesFor(s, e, key) && !Detached(s, e.call) {
      var b := s.levels[s.buckets[key]];
      TakeAccounts(b, rule, e.at);
      TakeInTime(s, key, rule, e.at);
      EarnedSum(b.lastRefill - start, e.at - b.lastRefill, rule);
      assert b.lastRefill - start + (e.at - b.lastRefill) == e.at - start;
      if b.tokens + Earned(e.at - b.lastRefill, rule) >= rule.burst as real {
        from, since := n, e.at;
        EarnedNothing(rule, e.at);
      }
    }
  }

  lemma EarnedNothing(rule: Limiting, at: real)
    ensures Earned(at - at, rule) == 0.0
  {
  }

  lemma TakeInTime(s: State, key: string, rule: Limiting, now: real)
    requires KeyFits(s, key, rule, now) && key in s.buckets && s.buckets[key] < |s.levels|
    ensures s.levels[s.buckets[key]].lastRefill <= now
  {
  }

  lemma KeysStay(s: State, e: Event, key: string)
    requires !e.Sweep? && key in s.buckets
    ensures key in Step(s, e).buckets
  {
    hide TakeToken, NormalizeRule;
  }

  lemma ShapeBounds(s: State, key: string)
    requires Shape(s) && key in s.buckets
    ensures s.buckets[key] < |s.levels|
  {
  }

  /** A bucket that is made starts full. */
  lemma LedgerOpens(evs: seq<Event>, n: nat, key: string, rule: Limiting)
    requires Clocked(evs) && UsesRule(evs, key, rule) && n < |evs|
    requires key !in Run(EMPTY, evs[..n]).buckets && key in Run(EMPTY, evs[..n + 1]).buckets
    ensures !evs[n].Sweep? && Ledger(evs, n + 1, key, rule, n, evs[n].at)
  {
    hide Run, Step, Shape, KeyFits, Fits, Earned, Spent, TakeToken, Count, StrayCount, TakesFor, Detached, Clocked, UsesRule;
    var s, e := Run(EMPTY, evs[..n]), evs[n];
    SpentStep(evs, n, n, key);
    SweepAddsNone(s, e, key);
    PrefixFits(evs, n, key, rule);
    BucketChanges(s, e, key, rule, e.at);
    NothingSpent(evs, n, key);
    StepShape(s, e);
    ShapeBounds(Step(s, e), key);
    EarnedNothing(rule, e.at);
  }

  lemma SweepAddsNone(s: State, e: Event, key: string)
    ensures e.Sweep? && key !in s.buckets ==> key !in Step(s, e).buckets
  {
  }

  /** Every bucket a run leaves for the key has a ledger, from an event of the run on. */
  lemma {:induction false} HasLedger(evs: seq<Event>, n: nat, key: string, rule: Limiting) returns (k: nat, start: real)
    requires Clocked(evs) && UsesRule(evs, key, rule) && n <= |evs| && key in Run(EMPTY, evs[..n]).buckets
    ensures Ledger(evs, n, key, rule, k, start) && k < n && !evs[k].Sweep? && start == evs[k].at
  {
    hide Step, Ledger, Clocked, UsesRule, Run;
    NoneAtFirst(evs, key);
    SpentStep(evs, 0, n - 1, key);
    if key !in Run(EMPTY, evs[..n - 1]).buckets {
      LedgerOpens(evs, n - 1, key, rule);
      k, start := n - 1, evs[n - 1].at;
    } else {
      k, start := HasLedger(evs, n - 1, key, rule);
      if evs[n - 1].Sweep? {
        SweepKeepsLedger(evs, n - 1, key, rule, k, start);
      } else {
        k, start := LedgerStep(evs, n - 1, key, rule, k, start);
      }
    }
  }

  lemma NoneAtFirst(evs: seq<Event>, key: string)
    ensures key !in Run(EMPTY, evs[..0]).buckets
  {
    assert evs[..0] == [];
  }

  // ---- refusals ----------------------------------------------------------

  /** A take at the end of a run, by a call that holds the bucket the key has now. */
  ghost predicate TakesNow(before: seq<Event>, call: nat, key: string, rule: Limiting, t: real) {
    && Clocked(before + [Take(call, t)]) && UsesRule(before, key, rule)
    && TakesFor(Run(EMPTY, before), Take(call, t), key) && !Detached(Run(EMPTY, before), call)
  }

  ghost predicate Refuses(before: seq<Event>, call: nat, t: real) {
    TakeStep(Run(EMPTY, before), call, t).1.Refused?
  }

  /** The key's rate is used up: since `start` its buckets have admitted so many calls that
      one more would exceed the burst and what the rule hands out in that time. */
  ghost predicate UsedUp(before: seq<Event>, key: string, rule: Limiting, t: real, k: nat, start: real) {
    && k <= |before| && start <= t && (forall i :: k <= i < |before| && !before[i].Sweep? ==> start <= before[i].at)
    && Spent(before[..k], before[k..], key) as real + 1.0 > Allowance(rule, t - start)
  }

  lemma TakesNowParts(before: seq<Event>, call: nat, key: string, rule: Limiting, t: real)
    requires TakesNow(before, call, key, rule, t)
    ensures Clocked(before) && (forall i :: 0 <= i < |before| ==> before[i].at <= t)
    ensures var evs := before + [Take(call, t)];
            Clocked(evs) && UsesRule(evs, key, rule) && evs[..|before|] == before && evs[|before|] == Take(call, t)
    ensures key in Run(EMPTY, before).buckets
  {
    hide Run, NormalizeRule;
    var evs := before + [Take(call, t)];
    assert evs[|before|] == Take(call, t) && forall i :: 0 <= i < |before| ==> evs[i] == before[i];
  }

  /** NOBODY IS REFUSED EARLY. A call that takes from the key's current bucket is refused
      only if, in some window that ends now, the key's calls have used its rate up. */
  lemma RefusedOnlyWhenUsedUp(before: seq<Event>, call: nat, key: string, rule: Limiting, t: real) returns (k: nat, start: real)
    requires TakesNow(before, call, key, rule, t) && Refuses(before, call, t)
    ensures UsedUp(before, key, rule, t, k, start)
  {
    hide Run, Earned, Shape, KeyFits, Fits, TakeToken, Spent, Clocked, UsesRule, Allowance;
    var evs, n := before + [Take(call, t)], |before|;
    TakesNowParts(before, call, key, rule, t);
    k, start := HasLedger(evs, n, key, rule);
    assert evs[..k] == before[..k] && evs[k..n] == before[k..];
    StartsAt(evs, k, start, n);
    PrefixFits(evs, n, key, rule);
    var s := Run(EMPTY, before);
    ShapeBounds(s, key);
    TakeInTime(s, key, rule, t);
    RefusalAccounts(s, call, key, rule, t);
    var b := s.levels[s.buckets[key]];
    EarnedSum(b.lastRefill - start, t - b.lastRefill, rule);
    assert b.lastRefill - start + (t - b.lastRefill) == t - start;
    AllowanceEarns(rule, t - start);
  }

  lemma StartsAt(evs: seq<Event>, k: nat, start: real, n: nat)
    requires Clocked(evs) && k < n < |evs| && start == evs[k].at && !evs[n].Sweep?
    ensures start <= evs[n].at && forall i :: k <= i < n && !evs[i].Sweep? ==> start <= evs[i].at
  {
  }

  lemma RefusalAccounts(s: State, call: nat, key: string, rule: Limiting, t: real)
    requires KeyFits(s, key, rule, t) && TakesFor(s, Take(call, t), key) && !Detached(s, call) && TakeStep(s, call, t).1.Refused?
    requires s.buckets[key] < |s.levels|
    ensures var b := s.levels[s.buckets[key]]; b.tokens + Earned(t - b.lastRefill, rule) < 1.0
  {
    hide Earned, TakeToken;
    TakeAccounts(s.levels[s.buckets[key]], rule, t);
  }

  // ---- and exactly then --------------------------------------------------

  lemma AdmissionWithin(before: seq<Event>, call: nat, key: string, rule: Limiting, t: real, k: nat, start: real)
    requires rule.burst <= 10 * rule.rpm && TakesNow(before, call, key, rule, t) && UsedUp(before, key, rule, t, k, start)
    ensures Count(Run(EMPTY, before), Take(call, t), key) == 0
  {
    hide Run, Count, StrayCount, AdmittedIn, StraysIn, HeldIn, Allowance, Clocked, UsesRule, Detached, TakesFor;
    TakesNowParts(before, call, key, rule, t);
    var evs, window := before + [Take(call, t)], before[k..] + [Take(call, t)];
    assert evs == before[..k] + window && before == before[..k] + before[k..];
    WindowOf(before, call, key, rule, t, k, start);
    AdmissionBound(before[..k], window, key, rule, start, t);
    RunSplits(EMPTY, before[..k], before[k..], key);
    RunSplits(Run(EMPTY, before[..k]), before[k..], [Take(call, t)], key);
    OneEvent(Run(EMPTY, before), Take(call, t), key);
    OneStray(Run(EMPTY, before), Take(call, t), key);
    CurrentIsNoStray(before, call, key, rule, t);
  }

  lemma CurrentIsNoStray(before: seq<Event>, call: nat, key: string, rule: Limiting, t: real)
    requires TakesNow(before, call, key, rule, t)
    ensures StrayCount(Run(EMPTY, before), Take(call, t), key) == 0
  {
    hide Run, Clocked, UsesRule, Detached, TakeStep;
  }

  lemma WindowOf(before: seq<Event>, call: nat, key: string, rule: Limiting, t: real, k: nat, start: real)
    requires TakesNow(before, call, key, rule, t) && UsedUp(before, key, rule, t, k, start)
    ensures Window(before[..k], before[k..] + [Take(call, t)], key, rule, start, t)
  {
    hide Run, Clocked, UsesRule, Spent, Allowance;
    TakesNowParts(before, call, key, rule, t);
    assert before[..k] + (before[k..] + [Take(call, t)]) == before + [Take(call, t)];
  }

  /** EXACTLY WHEN A CALL IS REFUSED, where the burst is at most ten minutes' worth: when
      the key's rate is used up in some window that ends now. */
  lemma RefusedExactlyWhen(before: seq<Event>, call: nat, key: string, rule: Limiting, t: real)
    requires rule.burst <= 10 * rule.rpm && TakesNow(before, call, key, rule, t)
    ensures Refuses(before, call, t) <==> exists k, start :: UsedUp(before, key, rule, t, k, start)
  {
    hide Run, UsedUp, Clocked, UsesRule, Detached;
    if Refuses(before, call, t) {
      var k, start := RefusedOnlyWhenUsedUp(before, call, key, rule, t);
    }
    if k, start :| UsedUp(before, key, rule, t, k, start) {
      AdmissionWithin(before, call, key, rule, t, k, start);
      NotAdmittedIsRefused(Run(EMPTY, before), call, key, t);
    }
  }

  lemma NotAdmittedIsRefused(s: State, call: nat, key: string, t: real)
    requires TakesFor(s, Take(call, t), key) && Count(s, Take(call, t), key) == 0
    ensures TakeStep(s, call, t).1.Refused?
  {
    hide Refill, SecondsToNext;
  }
}
