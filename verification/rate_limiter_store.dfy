/** The limiter as middleware/ratelimit.go stores it: a map of shared buckets, updated
    in place under two locks. Each critical section is proved to be one event of
    RateLimiter, whatever other events come in between. */
module RateLimiterStore {
  import opened RateLimiter

  /** A bucket is shared by reference: a call finds it under the limiter's lock and
      updates it under the bucket's own. */
  class Bucket {
    var tokens: real
    var lastRefill: real

    constructor (tokens: real, lastRefill: real)
      ensures this.tokens == tokens && this.lastRefill == lastRefill
    {
      this.tokens := tokens;
      this.lastRefill := lastRefill;
    }

    ghost function Value(): Level
      reads this
    {
      Level(tokens, lastRefill)
    }

    /** The critical section under the bucket's own lock. */
    method Take(rule: Limiting, now: real) returns (admitted: bool, wait: real)
      modifies this
      ensures (Value(), if admitted then Admitted else Refused(wait)) == TakeToken(old(Value()), rule, now)
    {
      var elapsed := now - lastRefill;
      var rate := rule.rpm as real / 60.0;
      tokens := tokens + elapsed * rate;
      if tokens > rule.burst as real {
        tokens := rule.burst as real;
      }
      lastRefill := now;
      if tokens < 1.0 {
        return false, (1.0 - tokens) / rate;
      }
      tokens := tokens - 1.0;
      return true, 0.0;
    }
  }

  class Limiter {
    var buckets: map<string, Bucket>
    /** Every bucket ever made, in order, and the calls between their two sections. */
    ghost var made: seq<Bucket>
    ghost var ids: map<string, nat>
    ghost var pending: map<nat, Pending>

    /** The map's buckets are the ones made for its keys, and no bucket is made twice. */
    ghost predicate Valid()
      reads this
    {
      && buckets.Keys == ids.Keys
      && (forall key :: key in ids ==> ids[key] < |made| && buckets[key] == made[ids[key]])
      && (forall i, j :: 0 <= i < j < |made| ==> made[i] != made[j])
    }

    ghost function Levels(): (levels: seq<Level>)
      reads this, made
      ensures |levels| == |made| && forall i :: 0 <= i < |made| ==> levels[i] == made[i].Value()
    {
      seq(|made|, i requires 0 <= i < |made| reads this, made => made[i].Value())
    }

    ghost function View(): State
      reads this, made
    {
      State(ids, Levels(), pending)
    }

    constructor ()
      ensures Valid() && View() == EMPTY
    {
      buckets, made, ids, pending := map[], [], map[], map[];
    }

    /** A full bucket for a key without one. */
    method Make(key: string, burst: int, at: real) returns (b: Bucket)
      requires Valid() && key !in buckets
      modifies this`buckets, this`ids, this`made
      ensures Valid() && fresh(b) && made == old(made) + [b] && ids == old(ids)[key := |old(made)|]
      ensures Levels() == old(Levels()) + [Level(burst as real, at)]
    {
      b := new Bucket(burst as real, at);
      buckets := buckets[key := b];
      ids := ids[key := |made|];
      made := made + [b];
    }

    /** The critical section under the limiter's lock. A call without a limiting rule
        gets no bucket and is let through. */
    method Lookup(ghost call: nat, key: string, rawRule: Rule, at: real) returns (b: Bucket?)
      requires Valid()
      modifies this
      ensures Valid() && View() == Step(old(View()), RateLimiter.Lookup(call, key, rawRule, at))
      ensures b == null <==> NormalizeRule(rawRule).rpm <= 0
      ensures b != null ==> call in pending && pending[call].rule == NormalizeRule(rawRule)
                            && pending[call].id < |made| && b == made[pending[call].id]
                            && (b in old(made) || fresh(b))
    {
      hide NormalizeRule;
      var rule := NormalizeRule(rawRule);
      if rule.rpm <= 0 {
        return null;
      }
      var burst := if rule.burst <= 0 then 1 else rule.burst;
      if key in buckets {
        b := buckets[key];
      } else {
        b := Make(key, burst, at);
      }
      pending := pending[call := Pending(key, rule, ids[key])];
    }

    /** The second critical section of a call that holds a bucket, in the map or not. */
    method TakeFrom(ghost call: nat, b: Bucket, rule: Limiting, at: real) returns (admitted: bool, wait: real)
      requires Valid() && call in pending && pending[call].rule == rule
      requires pending[call].id < |made| && b == made[pending[call].id]
      modifies this`pending, b
      ensures Valid() && View() == Step(old(View()), RateLimiter.Take(call, at))
      ensures TakeStep(old(View()), call, at).1 == if admitted then Admitted else Refused(wait)
    {
      hide TakeToken;
      ghost var before, id := View(), pending[call].id;
      admitted, wait := b.Take(rule, at);
      pending := pending - {call};
      assert Levels() == before.levels[id := b.Value()];
    }

    /** Both sections of a call that nothing comes between. */
    method Allow(ghost call: nat, key: string, rawRule: Rule, created: real, now: real) returns (admitted: bool, wait: real)
      requires Valid()
      modifies this, made
      ensures Valid()
      ensures View() == Step(Step(old(View()), RateLimiter.Lookup(call, key, rawRule, created)), RateLimiter.Take(call, now))
              || NormalizeRule(rawRule).rpm <= 0
      ensures NormalizeRule(rawRule).rpm <= 0 ==> admitted && View() == old(View())
      ensures NormalizeRule(rawRule).rpm > 0 ==>
                TakeStep(Step(old(View()), RateLimiter.Lookup(call, key, rawRule, created)), call, now).1
                == if admitted then Admitted else Refused(wait)
    {
      hide NormalizeRule, Step, TakeStep;
      var b := Lookup(call, key, rawRule, created);
      if b == null {
        UnlimitedLookup(old(View()), call, key, rawRule, created);
        return true, 0.0;
      }
      admitted, wait := TakeFrom(call, b, NormalizeRule(rawRule), now);
    }

    /** The sweeper's look at one key. */
    method SweepKey(key: string, at: real)
      requires Valid() && key in buckets
      modifies this`buckets, this`ids
      ensures Valid() && View() == Step(old(View()), Sweep(key, at))
      ensures buckets.Keys == old(buckets).Keys || buckets.Keys == old(buckets).Keys - {key}
    {
      var b := buckets[key];
      if b.lastRefill < at - STALE_AFTER {
        buckets := buckets - {key};
        ids := ids - {key};
      }
    }

    /** The sweeper visits the keys in any order and drops each stale bucket. */
    method SweepAll(at: real) returns (ghost visits: seq<Event>)
      requires Valid()
      modifies this`buckets, this`ids
      ensures Valid() && View() == Run(old(View()), visits)
      ensures forall e :: e in visits ==> e.Sweep? && e.at == at
      ensures forall key :: key in old(buckets) ==> Sweep(key, at) in visits
    {
      hide Run, Step, Valid, View;
      var todo := buckets.Keys;
      visits := [];
      RunNone(View());
      while todo != {}
        invariant Valid() && todo <= buckets.Keys && made == old(made) && pending == old(pending)
        invariant View() == Run(old(View()), visits)
        invariant forall e :: e in visits ==> e.Sweep? && e.at == at
        invariant forall key :: key in old(buckets) && key !in todo ==> Sweep(key, at) in visits
      {
        var key :| key in todo;
        SweepKey(key, at);
        todo := todo - {key};
        RunOneMore(old(View()), visits, Sweep(key, at));
        visits := visits + [Sweep(key, at)];
      }
    }
  }

  lemma UnlimitedLookup(s: State, call: nat, key: string, rawRule: Rule, at: real)
    requires NormalizeRule(rawRule).rpm <= 0
    ensures Step(s, Lookup(call, key, rawRule, at)) == s
  {
    hide NormalizeRule;
  }

  lemma RunNone(s: State)
    ensures Run(s, []) == s
  {
  }

  lemma RunOneMore(s: State, evs: seq<Event>, e: Event)
    ensures Run(s, evs + [e]) == Step(Run(s, evs), e)
  {
    hide Step;
    RunSplits(s, evs, [e], "");
    assert [e][1..] == [];
  }
}
