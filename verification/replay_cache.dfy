/** One-time-code replay protection of auth/totp.go: an accepted code stays in a
    per-user cache for ninety seconds. The cache is purged lazily and swept in
    the background; both are proved to be invisible. */
module ReplayCache {
  import opened Common

  type Codes = map<string, int>

  /** user -> code -> expiry */
  type Used = map<string, Codes>

  const CODE_LIFETIME := 90 * SECOND

  function Purged(codes: Codes, now: int): Codes {
    map code | code in codes && !(now > codes[code]) :: codes[code]
  }

  function Swept(used: Used, now: int): Used {
    map user | user in used && Purged(used[user], now) != map[] :: Purged(used[user], now)
  }

  /** `valid` is what the one-time-password algorithm says about the code. */
  function ValidateTOTP(used: Used, user: string, code: string, valid: bool, now: int): (Used, bool) {
    if !valid then (used, false)
    else
      var codes := Purged(if user in used then used[user] else map[], now);
      if code in codes then (used[user := codes], false)
      else (used[user := codes[code := now + CODE_LIFETIME]], true)
  }

  // ---- what a sweep can change -------------------------------------------

  /** The codes that still matter at `now`, without empty tables. */
  ghost function Current(used: Used, now: int): Used {
    Swept(used, now)
  }

  lemma PurgeTwice(codes: Codes, early: int, late: int)
    requires early <= late
    ensures Purged(Purged(codes, early), late) == Purged(codes, late)
    ensures Purged(codes, early) == map[] ==> Purged(codes, late) == map[]
  {
    assert Purged(Purged(codes, early), late) == Purged(codes, late);
  }

  lemma SweepInvisible(used: Used, sweepAt: int, now: int)
    requires sweepAt <= now
    ensures Current(Swept(used, sweepAt), now) == Current(used, now)
  {
    forall user | user in used
      ensures Purged(Purged(used[user], sweepAt), now) == Purged(used[user], now)
      ensures Purged(used[user], sweepAt) == map[] ==> Purged(used[user], now) == map[]
    {
      PurgeTwice(used[user], sweepAt, now);
    }
  }

  lemma CurrentLater(used: Used, other: Used, now: int, later: int)
    requires Current(used, now) == Current(other, now) && now <= later
    ensures Current(used, later) == Current(other, later)
  {
    SweepInvisible(used, now, later);
    SweepInvisible(other, now, later);
  }

  /** A check depends on the current codes only, and so does what it leaves. */
  lemma CheckSeesCurrent(used: Used, other: Used, user: string, code: string, valid: bool, now: int)
    requires Current(used, now) == Current(other, now)
    ensures ValidateTOTP(used, user, code, valid, now).1 == ValidateTOTP(other, user, code, valid, now).1
    ensures Current(ValidateTOTP(used, user, code, valid, now).0, now)
         == Current(ValidateTOTP(other, user, code, valid, now).0, now)
  {
    CodesOf(used, user, now);
    CodesOf(other, user, now);
    if valid {
      AfterCheck(used, user, code, now);
      AfterCheck(other, user, code, now);
    }
  }

  lemma CodesOf(used: Used, user: string, now: int)
    ensures Purged(if user in used then used[user] else map[], now)
         == (if user in Current(used, now) then Current(used, now)[user] else map[])
  {
  }

  lemma AfterCheck(used: Used, user: string, code: string, now: int)
    ensures var codes := Purged(if user in used then used[user] else map[], now);
            Current(ValidateTOTP(used, user, code, true, now).0, now)
              == Current(used, now)[user := if code in codes then codes else codes[code := now + CODE_LIFETIME]]
  {
    var codes := Purged(if user in used then used[user] else map[], now);
    var kept := if code in codes then codes else codes[code := now + CODE_LIFETIME];
    assert code in Purged(kept, now);
    assert Purged(kept, now) == kept;
    var used' := ValidateTOTP(used, user, code, true, now).0;
    forall u ensures u in Current(used', now) <==> u in Current(used, now)[user := kept] { }
  }

  // ---- the rule in terms of history --------------------------------------

  datatype Acceptance = Acceptance(user: string, code: string, at: int)

  /** This user had this exact code accepted in the last ninety seconds. */
  predicate UsedRecently(history: seq<Acceptance>, user: string, code: string, now: int) {
    exists i :: 0 <= i < |history| && history[i].user == user && history[i].code == code
                && now <= history[i].at + CODE_LIFETIME
  }

  function AcceptOnce(history: seq<Acceptance>, user: string, code: string, valid: bool, now: int): (seq<Acceptance>, bool) {
    if valid && !UsedRecently(history, user, code, now) then (history + [Acceptance(user, code, now)], true)
    else (history, false)
  }

  /** An acceptance is in the cache, or too old to matter. */
  predicate StillKnown(used: Used, a: Acceptance, now: int) {
    || a.at + CODE_LIFETIME < now
    || (a.user in used && a.code in used[a.user] && a.at + CODE_LIFETIME <= used[a.user][a.code])
  }

  /** The cache knows, from `now` on, exactly what the history says. */
  ghost predicate Remembers(used: Used, history: seq<Acceptance>, now: int) {
    && (forall i :: 0 <= i < |history| ==> StillKnown(used, history[i], now))
    && (forall user, code :: user in used && code in used[user] ==> Recorded(history, user, code, used[user][code]))
  }

  ghost predicate Recorded(history: seq<Acceptance>, user: string, code: string, expiry: int) {
    exists i :: 0 <= i < |history| && history[i] == Acceptance(user, code, expiry - CODE_LIFETIME)
  }

  lemma RememberedAnswer(used: Used, history: seq<Acceptance>, user: string, code: string, now: int)
    requires Remembers(used, history, now)
    ensures UsedRecently(history, user, code, now)
        <==> code in Purged(if user in used then used[user] else map[], now)
  {
    if user in used && code in used[user] && now <= used[user][code] {
      assert Recorded(history, user, code, used[user][code]);
    }
  }

  lemma RemembersLater(used: Used, history: seq<Acceptance>, now: int, later: int)
    requires Remembers(used, history, now) && now <= later
    ensures Remembers(used, history, later)
  {
  }

  lemma RemembersSwept(used: Used, history: seq<Acceptance>, now: int, sweepAt: int)
    requires Remembers(used, history, now) && sweepAt <= now
    ensures Remembers(Swept(used, sweepAt), history, now)
  {
    var used' := Swept(used, sweepAt);
    forall i | 0 <= i < |history| ensures StillKnown(used', history[i], now) {
      var a := history[i];
      assert StillKnown(used, a, now);
      if a.at + CODE_LIFETIME >= now {
        assert a.code in Purged(used[a.user], sweepAt);
      }
    }
  }

  lemma JustRecorded(history: seq<Acceptance>, user: string, code: string, now: int)
    ensures Recorded(history + [Acceptance(user, code, now)], user, code, now + CODE_LIFETIME)
  {
    assert (history + [Acceptance(user, code, now)])[|history|] == Acceptance(user, code, now);
  }

  lemma StaysRecorded(history: seq<Acceptance>, more: Acceptance, user: string, code: string, expiry: int)
    requires Recorded(history, user, code, expiry)
    ensures Recorded(history + [more], user, code, expiry)
  {
    var i :| 0 <= i < |history| && history[i] == Acceptance(user, code, expiry - CODE_LIFETIME);
    assert (history + [more])[i] == history[i];
  }

  /** One check of the real cache answers as the history rule does. */
  lemma ValidateRefines(used: Used, history: seq<Acceptance>, user: string, code: string, valid: bool, now: int)
    requires Remembers(used, history, now)
    ensures ValidateTOTP(used, user, code, valid, now).1 == AcceptOnce(history, user, code, valid, now).1
    ensures Remembers(ValidateTOTP(used, user, code, valid, now).0, AcceptOnce(history, user, code, valid, now).0, now)
  {
    RememberedAnswer(used, history, user, code, now);
    if valid {
      KnownAfter(used, history, user, code, now);
      hide Recorded, StillKnown;
      var (used', accepted) := ValidateTOTP(used, user, code, valid, now);
      var history' := AcceptOnce(history, user, code, valid, now).0;
      forall u, c | u in used' && c in used'[u]
        ensures Recorded(history', u, c, used'[u][c])
      {
        if accepted && u == user && c == code {
          JustRecorded(history, user, code, now);
        } else {
          assert Recorded(history, u, c, used[u][c]);
          StaysRecorded(history, Acceptance(user, code, now), u, c, used[u][c]);
        }
      }
    }
  }

  /** What the checked table still knows: all it knew, and a code that is accepted. */
  lemma KnownAfter(used: Used, history: seq<Acceptance>, user: string, code: string, now: int)
    requires Remembers(used, history, now)
    ensures forall i :: 0 <= i < |history| ==> StillKnown(ValidateTOTP(used, user, code, true, now).0, history[i], now)
    ensures ValidateTOTP(used, user, code, true, now).1 ==>
              StillKnown(ValidateTOTP(used, user, code, true, now).0, Acceptance(user, code, now), now)
  {
    hide Recorded;
    forall i | 0 <= i < |history| ensures StillKnown(ValidateTOTP(used, user, code, true, now).0, history[i], now) {
      assert StillKnown(used, history[i], now);
    }
  }

  // ---- runs --------------------------------------------------------------

  datatype Event = Check(user: string, code: string, valid: bool, at: int) | Sweep(at: int)

  /** Checks see a clock that never runs backwards; sweeps may carry an earlier reading. */
  ghost predicate Clocked(evs: seq<Event>, now: int)
    decreases |evs|
  {
    evs == [] || ((evs[0].Check? ==> now <= evs[0].at) && Clocked(evs[1..], Later(now, evs[0].at)))
  }

  function Answers(used: Used, evs: seq<Event>): seq<bool>
    decreases |evs|
  {
    if evs == [] then []
    else
      match evs[0]
      case Sweep(at) => Answers(Swept(used, at), evs[1..])
      case Check(user, code, valid, at) =>
        var (used', accepted) := ValidateTOTP(used, user, code, valid, at);
        [accepted] + Answers(used', evs[1..])
  }

  function RuleAnswers(history: seq<Acceptance>, evs: seq<Event>): seq<bool>
    decreases |evs|
  {
    if evs == [] then []
    else
      match evs[0]
      case Sweep(at) => RuleAnswers(history, evs[1..])
      case Check(user, code, valid, at) =>
        var (history', accepted) := AcceptOnce(history, user, code, valid, at);
        [accepted] + RuleAnswers(history', evs[1..])
  }

  /** THE REFINEMENT. Whatever the sweep schedule, the cache answers every check
      of a run by the ninety-second rule alone. */
  lemma {:induction false} CacheFollowsRule(used: Used, history: seq<Acceptance>, evs: seq<Event>, now: int)
    requires Remembers(used, history, now) && Clocked(evs, now)
    ensures Answers(used, evs) == RuleAnswers(history, evs)
    decreases |evs|
  {
    if evs != [] {
      var e, later := evs[0], Later(now, evs[0].at);
      RemembersLater(used, history, now, later);
      match e
      case Sweep(at) =>
        RemembersSwept(used, history, later, at);
        CacheFollowsRule(Swept(used, at), history, evs[1..], later);
      case Check(user, code, valid, at) =>
        ValidateRefines(used, history, user, code, valid, at);
        CacheFollowsRule(ValidateTOTP(used, user, code, valid, at).0,
                         AcceptOnce(history, user, code, valid, at).0, evs[1..], later);
    }
  }

  lemma EmptyCacheFollowsRule(evs: seq<Event>, start: int)
    requires Clocked(evs, start)
    ensures Answers(map[], evs) == RuleAnswers([], evs)
  {
    CacheFollowsRule(map[], [], evs, start);
  }

  // ---- one use per time step ---------------------------------------------

  const STEP := 30 * SECOND

  /** A code of time step `step` is valid from one step before it to one after. */
  predicate InWindow(step: int, at: int) {
    -1 <= at / STEP - step <= 1
  }

  /** Repeated acceptances of one code by one user are more than ninety seconds apart. */
  ghost predicate Spaced(history: seq<Acceptance>) {
    forall i, j :: 0 <= i < j < |history| ==>
      history[i].at <= history[j].at
      && (history[i].user == history[j].user && history[i].code == history[j].code
          ==> history[i].at + CODE_LIFETIME < history[j].at)
  }

  function RuleHistory(history: seq<Acceptance>, evs: seq<Event>): seq<Acceptance>
    decreases |evs|
  {
    if evs == [] then history
    else
      match evs[0]
      case Sweep(at) => RuleHistory(history, evs[1..])
      case Check(user, code, valid, at) => RuleHistory(AcceptOnce(history, user, code, valid, at).0, evs[1..])
  }

  lemma {:induction false} HistorySpaced(history: seq<Acceptance>, evs: seq<Event>, now: int)
    requires Spaced(history) && (forall i :: 0 <= i < |history| ==> history[i].at <= now) && Clocked(evs, now)
    ensures Spaced(RuleHistory(history, evs))
    decreases |evs|
  {
    if evs != [] {
      var later := Later(now, evs[0].at);
      match evs[0]
      case Sweep(at) => HistorySpaced(history, evs[1..], later);
      case Check(user, code, valid, at) =>
        var history' := AcceptOnce(history, user, code, valid, at).0;
        assert Spaced(history');
        HistorySpaced(history', evs[1..], later);
    }
  }

  /** Within one time step's validity window the same code string is accepted once. */
  lemma OneUsePerTimeStep(evs: seq<Event>, start: int, step: int, i: nat, j: nat)
    requires Clocked(evs, start)
    requires i < |RuleHistory([], evs)| && j < |RuleHistory([], evs)|
    requires var h := RuleHistory([], evs);
             h[i].user == h[j].user && h[i].code == h[j].code && InWindow(step, h[i].at) && InWindow(step, h[j].at)
    ensures i == j
  {
    HistorySpaced([], evs, start);
  }

  /** A code accepted for the first time is refused for exactly ninety seconds. */
  lemma LifetimeIsTight(history: seq<Acceptance>, user: string, code: string, at: int)
    requires !UsedRecently(history, user, code, at)
    requires forall i :: 0 <= i < |history| ==> history[i].at <= at
    ensures var h := AcceptOnce(history, user, code, true, at).0;
            forall later :: later >= at ==>
              (AcceptOnce(h, user, code, true, later).1 <==> later > at + CODE_LIFETIME)
  {
    var h := AcceptOnce(history, user, code, true, at).0;
    assert h[|history|] == Acceptance(user, code, at);
  }
}
