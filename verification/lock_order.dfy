/** Deadlock freedom of the store operations. Threads run programs of lock and
    unlock steps over readers-writer locks in which a waiting writer holds back
    new readers. If every program takes its locks in one order, no reachable
    system is stuck, and every run comes to an end with all threads finished. */
module LockOrder {

  /** The mutexes of the gateway; every rate-limit bucket has its own. */
  datatype Lock =
    | Deliveries | Tokens | Policies | SecretMeta | Setup | Users | RateLimits | Audit | Services
    | ServiceSecrets | Limiter | Bucket(key: string) | Lockouts | Replay | SessionTables | Monitor | Subscribers
    | FileVault

  /** The order in which locks may be nested. */
  function Rank(l: Lock): int {
    match l
    case Deliveries => 0
    case Tokens => 1
    case Policies => 1
    case SecretMeta => 1
    case Setup => 2
    case Users => 3
    case RateLimits => 3
    case Audit => 3
    case Services => 4
    case ServiceSecrets => 5
    case Limiter => 5
    case Bucket(_) => 6
    case Lockouts => 7
    case Replay => 7
    case SessionTables => 7
    case Monitor => 7
    case Subscribers => 7
    case FileVault => 7
  }

  datatype Mode = Read | Write

  datatype Op = Acquire(lock: Lock, mode: Mode) | Release(lock: Lock)

  /** A thread holds some locks, may have announced itself as the next writer of
      the lock it waits for, and has the rest of its program before it. */
  datatype Thread = Thread(held: map<Lock, Mode>, announced: bool, rest: seq<Op>)

  type System = seq<Thread>

  predicate Wants(t: Thread, l: Lock, m: Mode) {
    t.rest != [] && t.rest[0] == Acquire(l, m)
  }

  predicate Announced(t: Thread, l: Lock) {
    t.announced && Wants(t, l, Write)
  }

  predicate HoldsWrite(t: Thread, l: Lock) {
    l in t.held && t.held[l] == Write
  }

  /** Readers wait for writers, present or announced; a writer first announces
      itself, one at a time, and then waits for all holders to leave. */
  predicate CanStep(sys: System, i: nat)
    requires i < |sys|
  {
    var t := sys[i];
    t.rest != [] &&
    match t.rest[0]
    case Release(_) => true
    case Acquire(l, Read) => forall j :: 0 <= j < |sys| && j != i ==> !HoldsWrite(sys[j], l) && !Announced(sys[j], l)
    case Acquire(l, Write) =>
      if t.announced then forall j :: 0 <= j < |sys| && j != i ==> l !in sys[j].held
      else forall j :: 0 <= j < |sys| && j != i ==> !HoldsWrite(sys[j], l) && !Announced(sys[j], l)
  }

  function Advance(t: Thread): Thread
    requires t.rest != []
  {
    match t.rest[0]
    case Release(l) => Thread(t.held - {l}, false, t.rest[1..])
    case Acquire(l, Read) => Thread(t.held[l := Read], false, t.rest[1..])
    case Acquire(l, Write) => if t.announced then Thread(t.held[l := Write], false, t.rest[1..]) else t.(announced := true)
  }

  function Step(sys: System, i: nat): System
    requires i < |sys| && CanStep(sys, i)
  {
    sys[i := Advance(sys[i])]
  }

  // ---- the discipline ----------------------------------------------------

  predicate Above(held: set<Lock>, l: Lock) {
    forall h :: h in held ==> Rank(h) < Rank(l)
  }

  /** Locks are taken in increasing order, released when held, and none is left held. */
  predicate Disciplined(held: set<Lock>, rest: seq<Op>)
    decreases |rest|
  {
    if rest == [] then held == {}
    else
      match rest[0]
      case Acquire(l, _) => Above(held, l) && Disciplined(held + {l}, rest[1..])
      case Release(l) => l in held && Disciplined(held - {l}, rest[1..])
  }

  ghost predicate Sound(sys: System) {
    && (forall i :: 0 <= i < |sys| ==> Disciplined(sys[i].held.Keys, sys[i].rest))
    && (forall i :: 0 <= i < |sys| && sys[i].announced ==> sys[i].rest != [] && sys[i].rest[0].Acquire? && sys[i].rest[0].mode == Write)
    && (forall i, j, l :: 0 <= i < |sys| && 0 <= j < |sys| && i != j && HoldsWrite(sys[i], l) ==> l !in sys[j].held)
  }

  lemma StepSound(sys: System, i: nat)
    requires i < |sys| && Sound(sys) && CanStep(sys, i)
    ensures Sound(Step(sys, i))
  {
    var t, t' := sys[i], Advance(sys[i]);
    assert Disciplined(t'.held.Keys, t'.rest) by {
      match t.rest[0]
      case Acquire(l, m) => assert t.held[l := m].Keys == t.held.Keys + {l};
      case Release(l) => assert (t.held - {l}).Keys == t.held.Keys - {l};
    }
    StepExclusive(sys, i);
  }

  /** No lock is ever held for writing together with any other holder. */
  lemma StepExclusive(sys: System, i: nat)
    requires i < |sys| && Sound(sys) && CanStep(sys, i)
    ensures var sys' := Step(sys, i);
            forall a, b, l :: 0 <= a < |sys'| && 0 <= b < |sys'| && a != b && HoldsWrite(sys'[a], l) ==> l !in sys'[b].held
  {
    hide Disciplined;
    var t' := Advance(sys[i]);
    forall j, l | 0 <= j < |sys| && j != i && HoldsWrite(sys[j], l) ensures l !in t'.held { }
    forall j, l | 0 <= j < |sys| && j != i && HoldsWrite(t', l) ensures l !in sys[j].held { }
  }

  predicate Finished(sys: System) {
    forall i :: 0 <= i < |sys| ==> sys[i].rest == []
  }

  /** A thread waiting for a lock of the highest rank anyone waits for. */
  lemma HighestWaiter(sys: System) returns (i: nat)
    requires !Finished(sys)
    requires forall j :: 0 <= j < |sys| && sys[j].rest != [] ==> sys[j].rest[0].Acquire?
    ensures i < |sys| && sys[i].rest != []
    ensures forall j :: 0 <= j < |sys| && sys[j].rest != [] ==> Rank(sys[j].rest[0].lock) <= Rank(sys[i].rest[0].lock)
  {
    i :| 0 <= i < |sys| && sys[i].rest != [];
    var k := 0;
    while k < |sys|
      invariant 0 <= k <= |sys| && 0 <= i < |sys| && sys[i].rest != []
      invariant forall j :: 0 <= j < k && sys[j].rest != [] ==> Rank(sys[j].rest[0].lock) <= Rank(sys[i].rest[0].lock)
    {
      if sys[k].rest != [] && Rank(sys[k].rest[0].lock) > Rank(sys[i].rest[0].lock) {
        i := k;
      }
      k := k + 1;
    }
  }

  /** NO DEADLOCK. A sound system with unfinished threads always has one that can step. */
  lemma SomeoneCanStep(sys: System) returns (i: nat)
    requires Sound(sys) && !Finished(sys)
    ensures i < |sys| && CanStep(sys, i)
  {
    if j :| 0 <= j < |sys| && sys[j].rest != [] && sys[j].rest[0].Release? {
      return j;
    }
    i := HighestWaiter(sys);
    var l := sys[i].rest[0].lock;
    NobodyHolds(sys, i);
    if j :| 0 <= j < |sys| && j != i && Announced(sys[j], l) {
      i := j;
    }
  }

  lemma NobodyHolds(sys: System, i: nat)
    requires Sound(sys) && i < |sys| && sys[i].rest != [] && sys[i].rest[0].Acquire?
    requires forall j :: 0 <= j < |sys| && sys[j].rest != [] ==>
               sys[j].rest[0].Acquire? && Rank(sys[j].rest[0].lock) <= Rank(sys[i].rest[0].lock)
    ensures forall j :: 0 <= j < |sys| ==> sys[i].rest[0].lock !in sys[j].held
  {
    forall j | 0 <= j < |sys| ensures sys[i].rest[0].lock !in sys[j].held {
      assert Disciplined(sys[j].held.Keys, sys[j].rest);
    }
  }

  // ---- runs end ----------------------------------------------------------

  function Work(t: Thread): int {
    2 * |t.rest| - (if t.announced then 1 else 0)
  }

  function TotalWork(sys: System): int {
    if sys == [] then 0 else Work(sys[0]) + TotalWork(sys[1..])
  }

  lemma {:induction false} WorkUpdates(sys: System, i: nat, t: Thread)
    requires i < |sys|
    ensures TotalWork(sys[i := t]) == TotalWork(sys) - Work(sys[i]) + Work(t)
  {
    if i == 0 {
      assert sys[i := t][1..] == sys[1..];
    } else {
      assert sys[i := t][1..] == sys[1..][i - 1 := t];
      WorkUpdates(sys[1..], i - 1, t);
    }
  }

  lemma {:induction false} WorkNonNegative(sys: System)
    requires Sound(sys)
    ensures TotalWork(sys) >= 0
  {
    SomeWork(sys);
  }

  lemma {:induction false} SomeWork(sys: System)
    requires forall i :: 0 <= i < |sys| && sys[i].announced ==> sys[i].rest != []
    ensures TotalWork(sys) >= 0
  {
    if sys != [] {
      assert forall i :: 0 <= i < |sys[1..]| ==> sys[1..][i] == sys[i + 1];
      SomeWork(sys[1..]);
    }
  }

  /** A schedule names, step by step, the thread that moves. */
  ghost predicate Follows(sys: System, schedule: seq<nat>)
    decreases |schedule|
  {
    schedule == [] ||
    (schedule[0] < |sys| && CanStep(sys, schedule[0]) && Follows(Step(sys, schedule[0]), schedule[1..]))
  }

  ghost function After(sys: System, schedule: seq<nat>): System
    requires Follows(sys, schedule)
    decreases |schedule|
  {
    if schedule == [] then sys else After(Step(sys, schedule[0]), schedule[1..])
  }

  /** Every run is at most as long as the work there is, and what it reaches is
      sound: it is finished or can go on. */
  lemma {:induction false} RunsEnd(sys: System, schedule: seq<nat>)
    requires Sound(sys) && Follows(sys, schedule)
    ensures Sound(After(sys, schedule))
    ensures |schedule| + TotalWork(After(sys, schedule)) <= TotalWork(sys)
    decreases |schedule|
  {
    if schedule != [] {
      var i := schedule[0];
      StepSound(sys, i);
      WorkUpdates(sys, i, Advance(sys[i]));
      RunsEnd(Step(sys, i), schedule[1..]);
    }
  }

  // ---- programs as nested critical sections ------------------------------

  /** Critical sections, one after the other; each may nest others. */
  datatype Code = Done | Then(lock: Lock, mode: Mode, body: Code, next: Code)

  function Flatten(c: Code): seq<Op> {
    match c
    case Done => []
    case Then(l, m, body, next) => [Acquire(l, m)] + Flatten(body) + [Release(l)] + Flatten(next)
  }

  /** Every section nests strictly inside the ones around it. */
  predicate InOrder(c: Code, outer: int) {
    match c
    case Done => true
    case Then(l, _, body, next) => outer < Rank(l) && InOrder(body, Rank(l)) && InOrder(next, outer)
  }

  lemma DisciplinedStep(held: set<Lock>, op: Op, rest: seq<Op>)
    ensures Disciplined(held, [op] + rest) <==>
              if op.Acquire? then Above(held, op.lock) && Disciplined(held + {op.lock}, rest)
              else op.lock in held && Disciplined(held - {op.lock}, rest)
  {
    assert ([op] + rest)[1..] == rest;
  }

  lemma FlattenThen(c: Code, tail: seq<Op>)
    requires c.Then?
    ensures Flatten(c) + tail
         == [Acquire(c.lock, c.mode)] + (Flatten(c.body) + ([Release(c.lock)] + (Flatten(c.next) + tail)))
  {
  }

  lemma {:induction false} InOrderIsDisciplined(c: Code, outer: int, held: set<Lock>, tail: seq<Op>)
    requires InOrder(c, outer) && (forall h :: h in held ==> Rank(h) <= outer) && Disciplined(held, tail)
    ensures Disciplined(held, Flatten(c) + tail)
    decreases c
  {
    hide Disciplined, Flatten, Rank;
    if c.Done? {
      NothingToDo(tail);
    } else {
      var l := c.lock;
      var rest := [Release(l)] + (Flatten(c.next) + tail);
      InOrderIsDisciplined(c.next, outer, held, tail);
      assert held + {l} - {l} == held;
      DisciplinedStep(held + {l}, Release(l), Flatten(c.next) + tail);
      InOrderIsDisciplined(c.body, Rank(l), held + {l}, rest);
      DisciplinedStep(held, Acquire(l, c.mode), Flatten(c.body) + rest);
      FlattenThen(c, tail);
    }
  }

  lemma NothingToDo(tail: seq<Op>)
    ensures Flatten(Done) + tail == tail
  {
  }

  function Seq(a: Code, b: Code): Code {
    match a
    case Done => b
    case Then(l, m, body, next) => Then(l, m, body, Seq(next, b))
  }

  lemma {:induction false} SeqInOrder(a: Code, b: Code, outer: int)
    requires InOrder(a, outer) && InOrder(b, outer)
    ensures InOrder(Seq(a, b), outer)
  {
    match a
    case Done =>
    case Then(_, _, _, next) => SeqInOrder(next, b, outer);
  }

  function StartThread(c: Code): Thread {
    Thread(map[], false, Flatten(c))
  }

  function StartSystem(codes: seq<Code>): (sys: System)
    ensures |sys| == |codes| && forall i :: 0 <= i < |sys| ==> sys[i] == StartThread(codes[i])
  {
    seq(|codes|, i requires 0 <= i < |codes| => StartThread(codes[i]))
  }

  lemma StartSound(codes: seq<Code>)
    requires forall i :: 0 <= i < |codes| ==> InOrder(codes[i], -1)
    ensures Sound(StartSystem(codes))
  {
    forall i | 0 <= i < |codes| ensures Disciplined({}, Flatten(codes[i])) {
      InOrderIsDisciplined(codes[i], -1, {}, []);
      assert Flatten(codes[i]) + [] == Flatten(codes[i]);
    }
    var nothing: map<Lock, Mode> := map[];
    assert nothing.Keys == {};
  }

  /** For ordered programs: no reachable system is stuck, and a run that cannot
      go on has finished every thread. */
  lemma OrderedProgramsFinish(codes: seq<Code>, schedule: seq<nat>)
    requires forall i :: 0 <= i < |codes| ==> InOrder(codes[i], -1)
    requires Follows(StartSystem(codes), schedule)
    ensures var end := After(StartSystem(codes), schedule);
            Finished(end) || exists i: nat :: i < |end| && CanStep(end, i)
    ensures |schedule| <= TotalWork(StartSystem(codes))
  {
    StartSound(codes);
    RunsEnd(StartSystem(codes), schedule);
    var end := After(StartSystem(codes), schedule);
    WorkNonNegative(end);
    if !Finished(end) {
      var i := SomeoneCanStep(end);
    }
  }
}
