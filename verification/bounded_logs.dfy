/** Two bounded logs that keep the same thing in two ways: the monitor's ring buffer
    (middleware/monitor.go) and the audit log's resliced list (config/audit.go). Both
    keep the last 500 of everything recorded, beside counters that never forget. */
module BoundedLogs {
  import opened Common

  const LIMIT := 500

  /** The simple form: the end of the whole history. */
  function LastN<T>(history: seq<T>, n: nat): seq<T> {
    if |history| <= n then history else history[|history| - n..]
  }

  /** Bounding after every step is the same as bounding once at the end. */
  lemma LastNAppend<T>(history: seq<T>, x: T, n: nat)
    ensures LastN(LastN(history, n) + [x], n) == LastN(history + [x], n)
  {
    if |history| > n {
      assert history == history[..|history| - n] + LastN(history, n);
    }
  }

  lemma LastNCuts<T>(s: seq<T>, n: nat)
    ensures LastN(s, n) == if |s| > n then s[|s| - n..] else s
  {
  }

  lemma LastNTwice<T>(history: seq<T>, n: nat, m: nat)
    requires m <= n
    ensures LastN(LastN(history, n), m) == LastN(history, m)
  {
  }

  // ---- counters and their sums -------------------------------------------

  datatype Event = Event(id: int, status: int, service: string, latency: real, ts: int)

  const GATEWAY := "_gateway"

  function CounterName(e: Event): string {
    if e.service == "" then GATEWAY else e.service
  }

  predicate Failed(e: Event) {
    e.status >= 400
  }

  function Errors(history: seq<Event>): nat {
    if history == [] then 0
    else Errors(history[..|history| - 1]) + if Failed(history[|history| - 1]) then 1 else 0
  }

  /** The positions of the events that were answered with an error. */
  ghost function ErrorsAt(history: seq<Event>): set<int> {
    set i: int | 0 <= i < |history| && history[i].status >= 400
  }

  lemma {:induction false} ErrorsAreCounted(history: seq<Event>)
    ensures Errors(history) == |ErrorsAt(history)|
  {
    if history != [] {
      var n := |history| - 1;
      ErrorsAreCounted(history[..n]);
      assert ErrorsAt(history) == ErrorsAt(history[..n]) + if history[n].status >= 400 then {n} else {};
    }
  }

  function OfService(history: seq<Event>, name: string): seq<Event> {
    if history == [] then []
    else
      var n := |history| - 1;
      OfService(history[..n], name) + if CounterName(history[n]) == name then [history[n]] else []
  }

  function Latency(history: seq<Event>): real {
    if history == [] then 0.0 else Latency(history[..|history| - 1]) + history[|history| - 1].latency
  }

  ghost function Sum(names: set<string>, amount: string -> nat): nat {
    if names == {} then 0
    else
      var name :| name in names;
      amount(name) + Sum(names - {name}, amount)
  }

  lemma {:induction false} SumTakesOne(names: set<string>, amount: string -> nat, name: string)
    requires name in names
    ensures Sum(names, amount) == amount(name) + Sum(names - {name}, amount)
    decreases |names|
  {
    var first :| first in names && Sum(names, amount) == amount(first) + Sum(names - {first}, amount);
    if first != name {
      SumTakesOne(names - {first}, amount, name);
      SumTakesOne(names - {name}, amount, first);
      assert names - {first} - {name} == names - {name} - {first};
    }
  }

  lemma {:induction false} SumSame(names: set<string>, a: string -> nat, b: string -> nat)
    requires forall name :: name in names ==> a(name) == b(name)
    ensures Sum(names, a) == Sum(names, b)
    decreases |names|
  {
    if names != {} {
      var name :| name in names;
      SumTakesOne(names, a, name);
      SumTakesOne(names, b, name);
      SumSame(names - {name}, a, b);
    }
  }

  lemma {:induction false} SumOfNothing(names: set<string>, amount: string -> nat)
    requires forall name :: name in names ==> amount(name) == 0
    ensures Sum(names, amount) == 0
    decreases |names|
  {
    if names != {} {
      var name :| name in names;
      SumTakesOne(names, amount, name);
      SumOfNothing(names - {name}, amount);
    }
  }

  ghost function Requests(history: seq<Event>): string -> nat {
    name => |OfService(history, name)|
  }

  ghost function ErrorsOf(history: seq<Event>): string -> nat {
    name => Errors(OfService(history, name))
  }

  /** One event adds to the sum what it adds to its own counter. */
  lemma SumStep(names: set<string>, a: string -> nat, b: string -> nat, name: string)
    requires name in names && forall other :: other in names && other != name ==> a(other) == b(other)
    ensures Sum(names, b) == Sum(names, a) + b(name) - a(name)
  {
    SumTakesOne(names, a, name);
    SumTakesOne(names, b, name);
    SumSame(names - {name}, a, b);
  }

  lemma OfServiceStep(history: seq<Event>, name: string)
    requires history != []
    ensures var n := |history| - 1;
            if CounterName(history[n]) == name
            then OfService(history, name) == OfService(history[..n], name) + [history[n]]
                 && Errors(OfService(history, name)) == Errors(OfService(history[..n], name)) + (if Failed(history[n]) then 1 else 0)
            else OfService(history, name) == OfService(history[..n], name)
  {
    var n := |history| - 1;
    var before := OfService(history[..n], name);
    assert (before + [history[n]])[..|before|] == before;
  }

  lemma AppendOfService(before: seq<Event>, e: Event)
    ensures forall other :: OfService(before + [e], other)
              == if other == CounterName(e) then OfService(before, other) + [e] else OfService(before, other)
    ensures Errors(before + [e]) == Errors(before) + (if Failed(e) then 1 else 0)
  {
    assert (before + [e])[..|before|] == before;
  }

  /** CONSERVATION. All requests, and all failed ones, are the sums over the services'
      own counters, the gateway's counter included. */
  lemma {:induction false} TotalsAreSums(history: seq<Event>, names: set<string>)
    requires forall i :: 0 <= i < |history| ==> CounterName(history[i]) in names
    ensures |history| == Sum(names, Requests(history))
    ensures Errors(history) == Sum(names, ErrorsOf(history))
  {
    if history == [] {
      SumOfNothing(names, Requests(history));
      SumOfNothing(names, ErrorsOf(history));
    } else {
      var n := |history| - 1;
      var name := CounterName(history[n]);
      TotalsAreSums(history[..n], names);
      forall other ensures other != name ==> OfService(history, other) == OfService(history[..n], other) {
        OfServiceStep(history, other);
      }
      OfServiceStep(history, name);
      SumStep(names, Requests(history[..n]), Requests(history), name);
      SumStep(names, ErrorsOf(history[..n]), ErrorsOf(history), name);
    }
  }

  // ---- the monitor -------------------------------------------------------

  datatype Stats = Stats(backend: string, requests: nat, errors: nat, average: real, lastStatus: int, lastSeen: int)

  /** The figures shown for a service are those of its own events; without events the
      average is zero. */
  ghost predicate Describes(stats: Stats, events: seq<Event>) {
    && stats.requests == |events| && stats.errors == Errors(events)
    && stats.average * stats.requests as real == Latency(events) && (events == [] ==> stats.average == 0.0)
    && stats.lastStatus == (if events == [] then 0 else events[|events| - 1].status)
    && stats.lastSeen == (if events == [] then 0 else events[|events| - 1].ts)
  }

  class Counter {
    var backend: string
    var requests: nat
    var errors: nat
    var totalLatency: real
    var lastStatus: int
    var lastSeen: int

    constructor (backend: string)
      ensures this.backend == backend && requests == 0 && errors == 0 && totalLatency == 0.0 && lastStatus == 0 && lastSeen == 0
    {
      this.backend, requests, errors, totalLatency, lastStatus, lastSeen := backend, 0, 0, 0.0, 0, 0;
    }

    /** What this counter says about the events it has seen. */
    ghost predicate Counts(events: seq<Event>)
      reads this
    {
      && requests == |events| && errors == Errors(events) && totalLatency == Latency(events)
      && lastStatus == (if events == [] then 0 else events[|events| - 1].status)
      && lastSeen == (if events == [] then 0 else events[|events| - 1].ts)
    }

    method SetBackend(backend: string, ghost events: seq<Event>)
      requires Counts(events)
      modifies this`backend
      ensures Counts(events) && this.backend == backend
    {
      this.backend := backend;
    }

    lemma CountsNothing()
      requires requests == 0 && errors == 0 && totalLatency == 0.0 && lastStatus == 0 && lastSeen == 0
      ensures Counts([])
    {
    }

    method Figures(ghost events: seq<Event>) returns (stats: Stats)
      requires Counts(events)
      ensures Describes(stats, events) && stats.backend == backend
    {
      var average := 0.0;
      if requests > 0 {
        average := totalLatency / requests as real;
      }
      return Stats(backend, requests, errors, average, lastStatus, lastSeen);
    }

    method Count(e: Event, ghost events: seq<Event>)
      requires Counts(events)
      modifies this
      ensures Counts(events + [e]) && backend == old(backend)
    {
      assert (events + [e])[..|events|] == events;
      requests := requests + 1;
      if e.status >= 400 {
        errors := errors + 1;
      }
      totalLatency := totalLatency + e.latency;
      lastStatus := e.status;
      lastSeen := e.ts;
    }
  }

  /** The ring's slot of an event, by its number. */
  function Slot(k: nat): nat {
    k % LIMIT
  }

  class Monitor {
    const ring: array<Option<Event>>
    var ringHead: nat
    var ringLen: nat
    var total: nat
    var totalErr: nat
    var services: map<string, Counter>
    ghost var history: seq<Event>

    /** The ring's slots hold the end of the history, each event at its number modulo 500. */
    ghost predicate RingValid()
      reads this, ring
    {
      && ring.Length == LIMIT && ringHead == Slot(|history|)
      && ringLen == (if |history| < LIMIT then |history| else LIMIT)
      && forall k :: |history| - ringLen <= k < |history| ==> ring[Slot(k)] == Some(history[k])
    }

    ghost predicate CountersValid()
      reads this, services.Values
    {
      total == |history| && totalErr == Errors(history) && CountersFor(history)
    }

    /** Every event has its service's counter, and each counter has seen its own events. */
    ghost predicate CountersFor(events: seq<Event>)
      reads this`services, services.Values
    {
      && (forall i :: 0 <= i < |events| ==> CounterName(events[i]) in services)
      && (forall name :: name in services ==> services[name].Counts(OfService(events, name)))
      && (forall a, b :: a in services && b in services && a != b ==> services[a] != services[b])
    }

    constructor ()
      ensures RingValid() && CountersValid() && history == [] && fresh(ring)
    {
      ring := new Option<Event>[LIMIT](_ => None);
      ringHead, ringLen, total, totalErr, services, history := 0, 0, 0, 0, map[], [];
    }

    method RegisterService(name: string, backend: string)
      requires CountersValid()
      modifies this`services, services.Values
      ensures CountersValid()
      ensures services.Keys == old(services).Keys + {name} && services[name].backend == backend
      ensures forall other :: other in old(services) ==> services[other] == old(services)[other]
      ensures forall other :: other in old(services) && other != name ==> services[other].backend == old(services[other].backend)
    {
      hide Counter.Counts, OfService, Errors;
      if name !in services {
        var c := new Counter(backend);
        NoneOf(history, name);
        c.CountsNothing();
        services := services[name := c];
      } else {
        ghost var c := services[name];
        services[name].SetBackend(backend, OfService(history, name));
        assert forall other :: other in services && other != name ==> services[other] != c;
      }
    }

    lemma {:induction false} NoneOf(events: seq<Event>, name: string)
      requires forall i :: 0 <= i < |events| ==> CounterName(events[i]) != name
      ensures OfService(events, name) == []
    {
      if events != [] {
        NoneOf(events[..|events| - 1], name);
      }
    }

    method Record(e: Event)
      requires RingValid() && CountersValid()
      modifies this, ring, services.Values
      ensures RingValid() && CountersValid() && history == old(history) + [e]
      ensures services.Keys == old(services).Keys + {CounterName(e)}
    {
      hide Slot, CountersFor, Counter.Counts, OfService, Errors;
      ghost var before := history;
      Push(e);
      CountEvent(e, before);
    }

    method Push(e: Event)
      requires RingValid()
      modifies this`ringHead, this`ringLen, this`history, ring
      ensures RingValid() && history == old(history) + [e]
    {
      Slots(|history|, ringLen);
      ring[ringHead] := Some(e);
      ringHead := (ringHead + 1) % LIMIT;
      if ringLen < LIMIT {
        ringLen := ringLen + 1;
      }
      history := history + [e];
    }

    /** The slot being written is not one that is still needed. */
    lemma Slots(n: nat, len: nat)
      requires len <= n && len <= LIMIT
      ensures Slot(n + 1) == (Slot(n) + 1) % LIMIT
      ensures forall k :: n - len <= k < n && n - k < LIMIT ==> Slot(k) != Slot(n)
    {
      SlotSteps(n);
      hide Slot;
      forall k | n - len <= k < n && n - k < LIMIT ensures Slot(k) != Slot(n) {
        SlotsDiffer(k, n);
      }
    }

    lemma SlotSteps(n: nat)
      ensures Slot(n + 1) == (Slot(n) + 1) % LIMIT
    {
    }

    lemma SlotsDiffer(k: nat, n: nat)
      requires k < n < k + LIMIT
      ensures Slot(k) != Slot(n)
    {
      assert n - k == LIMIT * (n / LIMIT - k / LIMIT) + (Slot(n) - Slot(k));
    }

    method CountEvent(e: Event, ghost before: seq<Event>)
      requires history == before + [e] && total == |before| && totalErr == Errors(before)
      requires CountersFor(before)
      modifies this`total, this`totalErr, this`services, services.Values
      ensures CountersValid() && services.Keys == old(services).Keys + {CounterName(e)}
    {
      hide Counter.Counts, OfService, Errors;
      AppendOfService(before, e);
      total := total + 1;
      if e.status >= 400 {
        totalErr := totalErr + 1;
      }
      var name := if e.service == "" then GATEWAY else e.service;
      assert name == CounterName(e);
      hide CounterName;
      var c := CounterFor(name, before);
      Bump(c, e, before);
    }

    method Bump(c: Counter, e: Event, ghost before: seq<Event>)
      requires CountersFor(before) && CounterName(e) in services && services[CounterName(e)] == c
      modifies c
      ensures CountersFor(before + [e])
    {
      hide Counter.Counts, OfService, CounterName, Errors;
      AppendOfService(before, e);
      ghost var others := services.Keys - {CounterName(e)};
      assert forall other :: other in others ==> services[other] != c && services[other].Counts(OfService(before, other));
      c.Count(e, OfService(before, CounterName(e)));
      assert forall other :: other in others ==> services[other].Counts(OfService(before, other));
      assert forall i :: 0 <= i < |before| ==> (before + [e])[i] == before[i];
    }

    /** The counter of that name, made if there is none yet. */
    method CounterFor(name: string, ghost before: seq<Event>) returns (c: Counter)
      requires CountersFor(before)
      modifies this`services
      ensures name in services && services[name] == c && services.Keys == old(services).Keys + {name}
      ensures name in old(services) ==> services == old(services)
      ensures name !in old(services) ==> fresh(c) && services == old(services)[name := c]
      ensures CountersFor(before)
    {
      hide Counter.Counts, OfService, CounterName;
      if name !in services {
        var made := new Counter("");
        made.CountsNothing();
        NoneOf(before, name);
        services := services[name := made];
      }
      return services[name];
    }

    /** The ring read from its oldest slot is the end of the history, in order. */
    method RecentEvents() returns (result: seq<Event>)
      requires RingValid()
      ensures result == LastN(history, LIMIT)
    {
      hide Slot, LastN;
      result := [];
      var start: int := ringHead - ringLen;
      if start < 0 {
        start := start + LIMIT;
      }
      StartSlot(|history|, ringLen);
      LastNCuts(history, LIMIT);
      ghost var tail := LastN(history, LIMIT);
      for i := 0 to ringLen
        invariant |tail| == ringLen && result == tail[..i]
      {
        SlotHolds(start, i);
        var idx := (start + i) % LIMIT;
        if ring[idx].Some? {
          result := result + [ring[idx].value];
        }
      }
    }

    lemma SlotHolds(start: nat, i: nat)
      requires RingValid() && i < ringLen && start == Slot(|history| - ringLen)
      ensures |LastN(history, LIMIT)| == ringLen && ring[(start + i) % LIMIT] == Some(LastN(history, LIMIT)[i])
    {
      NextSlot(|history|, ringLen, start, i);
      hide Slot;
      assert ring[Slot(|history| - ringLen + i)] == Some(history[|history| - ringLen + i]);
    }

    lemma StartSlot(n: nat, len: nat)
      requires len == (if n < LIMIT then n else LIMIT)
      ensures var start := Slot(n) - len;
              0 <= (if start < 0 then start + LIMIT else start) < LIMIT
              && (if start < 0 then start + LIMIT else start) == Slot(n - len)
    {
    }

    lemma NextSlot(n: nat, len: nat, start: nat, i: nat)
      requires len <= n && i < len && start == Slot(n - len)
      ensures (start + i) % LIMIT == Slot(n - len + i)
    {
    }

    /** Per-service figures, without the gateway's own. */
    method ServiceStats() returns (stats: map<string, Stats>)
      requires CountersValid()
      ensures stats.Keys == services.Keys - {GATEWAY}
      ensures forall name :: name in stats ==> Describes(stats[name], OfService(history, name))
    {
      stats := map[];
      var todo := services.Keys;
      while todo != {}
        invariant todo <= services.Keys
        invariant stats.Keys == services.Keys - todo - {GATEWAY}
        invariant forall name :: name in stats ==> Describes(stats[name], OfService(history, name))
      {
        var name :| name in todo;
        todo := todo - {name};
        if name == GATEWAY {
          continue;
        }
        var figures := services[name].Figures(OfService(history, name));
        stats := stats[name := figures];
      }
    }

    method Snapshot() returns (allRequests: nat, allErrors: nat, stats: map<string, Stats>, recent: seq<Event>)
      requires RingValid() && CountersValid()
      ensures recent == if |history| <= 500 then history else history[|history| - 500..]
      ensures stats.Keys == services.Keys - {GATEWAY}
      ensures forall name :: name in stats ==> Describes(stats[name], OfService(history, name))
      ensures allRequests == |history| == Sum(services.Keys, Requests(history))
      ensures allErrors == |ErrorsAt(history)| == Sum(services.Keys, ErrorsOf(history))
    {
      hide Errors, ErrorsAt, OfService, Sum, Requests, ErrorsOf, Describes, CountersValid, LastN, Slot;
      stats := ServiceStats();
      recent := RecentEvents();
      LastNCuts(history, LIMIT);
      Totals();
      return total, totalErr, stats, recent;
    }

    lemma Totals()
      requires CountersValid()
      ensures total == |history| == Sum(services.Keys, Requests(history))
      ensures totalErr == |ErrorsAt(history)| == Sum(services.Keys, ErrorsOf(history))
    {
      hide Errors, ErrorsAt, OfService, Sum, Requests, ErrorsOf, Counter.Counts;
      ErrorsAreCounted(history);
      TotalsAreSums(history, services.Keys);
    }
  }

  // ---- the audit log -----------------------------------------------------

  /** `decision` is the field counted; the rest of an event is carried along. */
  datatype AuditEvent = AuditEvent(id: string, ts: int, user: string, service: string, httpMethod: string, path: string,
                                   decision: string, reason: string, policyId: string, status: int)

  function Stamped(e: AuditEvent, freshId: string, now: int): AuditEvent {
    e.(id := if e.id == "" then freshId else e.id, ts := if e.ts == 0 then now else e.ts)
  }

  function CountOf(history: seq<AuditEvent>, decision: string): nat {
    if history == [] then 0
    else CountOf(history[..|history| - 1], decision) + if history[|history| - 1].decision == decision then 1 else 0
  }

  /** Every audit event is counted once, as allowed, denied or other. */
  lemma {:induction false} CountsPartition(history: seq<AuditEvent>)
    ensures CountOf(history, "allow") + CountOf(history, "deny") <= |history|
    ensures CountOf(history, "allow") + CountOf(history, "deny") == |history| <==>
              forall i :: 0 <= i < |history| ==> history[i].decision == "allow" || history[i].decision == "deny"
  {
    if history != [] {
      var n := |history| - 1;
      CountsPartition(history[..n]);
      assert forall i :: 0 <= i < n ==> history[i] == history[..n][i];
    }
  }

  lemma CountOfAppend(history: seq<AuditEvent>, e: AuditEvent)
    ensures CountOf(history + [e], "allow") == CountOf(history, "allow") + (if e.decision == "allow" then 1 else 0)
    ensures CountOf(history + [e], "deny") == CountOf(history, "deny") + (if e.decision == "deny" then 1 else 0)
  {
    assert (history + [e])[..|history|] == history;
  }

  class AuditLog {
    var events: seq<AuditEvent>
    var allow: nat
    var deny: nat
    var other: nat
    ghost var history: seq<AuditEvent>

    ghost predicate Valid()
      reads this
    {
      && events == LastN(history, LIMIT)
      && allow == CountOf(history, "allow") && deny == CountOf(history, "deny")
      && allow + deny + other == |history|
    }

    constructor ()
      ensures Valid() && history == []
    {
      events, allow, deny, other, history := [], 0, 0, 0, [];
    }

    /** A missing ID and a missing timestamp are filled in first. */
    method RecordAuditEvent(raw: AuditEvent, freshId: string, now: int)
      requires Valid()
      modifies this
      ensures Valid()
      ensures history == old(history) + [Stamped(raw, freshId, now)]
    {
      var e := raw;
      if e.id == "" {
        e := e.(id := freshId);
      }
      if e.ts == 0 {
        e := e.(ts := now);
      }
      assert e == Stamped(raw, freshId, now);
      Append(e);
    }

    /** The part under the lock. */
    method Append(e: AuditEvent)
      requires Valid()
      modifies this
      ensures Valid() && history == old(history) + [e]
    {
      hide CountOf, LastN;
      LastNAppend(history, e, LIMIT);
      LastNCuts(events + [e], LIMIT);
      CountOfAppend(history, e);
      if e.decision == "allow" {
        allow := allow + 1;
      } else if e.decision == "deny" {
        deny := deny + 1;
      } else {
        other := other + 1;
      }
      events := events + [e];
      if |events| > LIMIT {
        events := events[|events| - LIMIT..];
      }
      history := history + [e];
    }

    /** A limit of zero or less, or beyond what is kept, means everything kept. */
    method ListRecentAuditEvents(rawLimit: int) returns (out: seq<AuditEvent>)
      requires Valid()
      ensures var n := if 0 < rawLimit < 500 then rawLimit else 500;
              out == if |history| <= n then history else history[|history| - n..]
    {
      var limit := rawLimit;
      if limit <= 0 || limit > |events| {
        limit := |events|;
      }
      var start := |events| - limit;
      LastNTwice(history, LIMIT, if 0 < rawLimit < LIMIT then rawLimit else LIMIT);
      return events[start..];
    }
  }
}
