/** The locking of every store operation, as nested critical sections. The
    parameters of an operation choose among the paths its code can take. */
module LockPrograms {
  import opened LockOrder

  function Section(l: Lock, m: Mode, body: Code): Code {
    Then(l, m, body, Done)
  }

  function Touch(l: Lock, m: Mode): Code {
    Section(l, m, Done)
  }

  function Times(n: nat, c: Code): Code {
    if n == 0 then Done else Seq(c, Times(n - 1, c))
  }

  function When(b: bool, c: Code): Code {
    if b then c else Done
  }

  /** A path taken from the environment needs no look at the setup mode. */
  function PathOf(fromEnv: bool): Code {
    When(!fromEnv, Touch(Setup, Read))
  }

  /** Looks up each submitted service name. */
  function KnownServices(names: nat): Code {
    Times(names, Touch(Services, Read))
  }

  function SaveDeliveriesCode(persists: bool, fromEnv: bool): Code {
    Seq(Touch(Setup, Read), When(persists, PathOf(fromEnv)))
  }

  datatype Operation =
    // config/token_deliveries.go
    | LoadDeliveriesOp(persists: bool, fromEnv: bool)
    | CreateDeliveryOp(purged: bool, persists: bool, fromEnv: bool)
    | ListDeliveriesOp(purged: bool, persists: bool, fromEnv: bool)
    | ClaimDeliveryOp(purged: bool, found: bool, saves: bool, persists: bool, fromEnv: bool)
    | DeleteDeliveriesOp(changed: bool, persists: bool, fromEnv: bool)
    // config/apitokens.go
    | LoadTokensOp(fromEnv: bool, services: nat)
    | CreateTokenOp(named: bool, ai: bool, services: nat, normalized: nat, built: bool, fromEnv: bool)
    | RevokeTokenOp(known: bool, saved: bool, changed: bool, persists: bool, fromEnv: bool)
    | ValidateTokenOp(accepted: bool, fromEnv: bool)
    | ReadTokensOp
    // config/access_policies.go
    | WritePoliciesOp(changes: bool, fromEnv: bool)
    | ReadPoliciesOp
    | EvaluateAccessOp(hasStore: bool, admin: bool, allowed: bool)
    // config/service_secret_metadata.go, config/service_secrets.go
    | WriteSecretMetaOp(changes: bool, fromEnv: bool)
    | NoteSecretOp(changes: bool, fromEnv: bool)
    | ServiceSecretOp(mode: Mode)
    // config/setup_runtime.go
    | UpgradeOp(written: bool, servicesSaved: bool, limitsSaved: bool, hasStore: bool)
    | ResetSetupOp
    | WriteSetupOp
    | ReadSetupOp
    // config/userstore.go
    | WriteUsersOp(services: nat)
    | ReadUsersOp
    // config/services.go
    | WriteServicesOp
    | ReadServicesOp
    | ChangeServicesOp
    // config/ratelimits.go, config/audit.go
    | RateLimitsOp(mode: Mode)
    | RecordAuditOp(fromEnv: bool)
    | ReadAuditOp
    // middleware
    | AllowOp(key: string)
    | SweepBucketsOp(keys: seq<string>)
    | MonitorOp(mode: Mode)
    | SubscribersOp(mode: Mode)
    // config/vault.go: a read, and for a change a write after it
    | VaultOp(changes: bool)
    // auth
    | LockoutOp
    | ReplayOp
    | SessionOp

  function DeleteDeliveriesCode(changed: bool, persists: bool, fromEnv: bool): Code {
    Section(Deliveries, Write, When(changed, SaveDeliveriesCode(persists, fromEnv)))
  }

  function SweepBuckets(keys: seq<string>): Code {
    if keys == [] then Done else Then(Bucket(keys[0]), Write, Done, SweepBuckets(keys[1..]))
  }

  /** The upgrade saves services, then rate limits, then users, all under the setup
      lock, and stops at the first failure. */
  function UpgradeBody(servicesSaved: bool, limitsSaved: bool, hasStore: bool): Code {
    Seq(Seq(Touch(Services, Read), Touch(Services, Write)),
        When(servicesSaved, Seq(Seq(Touch(RateLimits, Read), Touch(RateLimits, Write)),
                                When(limitsSaved && hasStore, Touch(Users, Write)))))
  }

  function CodeOf(op: Operation): Code {
    match op
    case LoadDeliveriesOp(persists, fromEnv) => Section(Deliveries, Write, SaveDeliveriesCode(persists, fromEnv))
    case CreateDeliveryOp(purged, persists, fromEnv) =>
      Section(Deliveries, Write, Seq(When(purged, SaveDeliveriesCode(persists, fromEnv)), SaveDeliveriesCode(persists, fromEnv)))
    case ListDeliveriesOp(purged, persists, fromEnv) =>
      Section(Deliveries, Write, When(purged, SaveDeliveriesCode(persists, fromEnv)))
    case ClaimDeliveryOp(purged, found, saves, persists, fromEnv) =>
      Section(Deliveries, Write,
              Seq(When(purged, SaveDeliveriesCode(persists, fromEnv)),
                  When(found, Seq(Touch(Tokens, Read), When(saves, SaveDeliveriesCode(persists, fromEnv))))))
    case DeleteDeliveriesOp(changed, persists, fromEnv) => DeleteDeliveriesCode(changed, persists, fromEnv)
    case LoadTokensOp(fromEnv, services) => Section(Tokens, Write, Seq(PathOf(fromEnv), KnownServices(services)))
    case CreateTokenOp(named, ai, services, normalized, built, fromEnv) =>
      Section(Tokens, Write,
              When(named, Seq(When(ai, Touch(Services, Read)),
                              When(built, Seq(KnownServices(services), Seq(KnownServices(normalized), PathOf(fromEnv)))))))
    case RevokeTokenOp(known, saved, changed, persists, fromEnv) =>
      Seq(Section(Tokens, Write, When(known, PathOf(fromEnv))),
          When(known && saved, DeleteDeliveriesCode(changed, persists, fromEnv)))
    case ValidateTokenOp(accepted, fromEnv) => Section(Tokens, Write, When(accepted, PathOf(fromEnv)))
    case ReadTokensOp => Touch(Tokens, Read)
    case WritePoliciesOp(changes, fromEnv) => Section(Policies, Write, When(changes, PathOf(fromEnv)))
    case ReadPoliciesOp => Touch(Policies, Read)
    case EvaluateAccessOp(hasStore, admin, allowed) =>
      Seq(When(hasStore, Seq(Touch(Users, Read), When(!admin, Touch(Users, Read)))),
          When(!hasStore || (!admin && allowed), Touch(Policies, Read)))
    case WriteSecretMetaOp(changes, fromEnv) => Section(SecretMeta, Write, When(changes, PathOf(fromEnv)))
    case NoteSecretOp(changes, fromEnv) =>
      Seq(Touch(SecretMeta, Read), Section(SecretMeta, Write, When(changes, PathOf(fromEnv))))
    case ServiceSecretOp(mode) => Touch(ServiceSecrets, mode)
    case UpgradeOp(written, servicesSaved, limitsSaved, hasStore) =>
      Section(Setup, Write, When(written, UpgradeBody(servicesSaved, limitsSaved, hasStore)))
    case ResetSetupOp => Section(Setup, Write, Touch(Audit, Write))
    case WriteSetupOp => Touch(Setup, Write)
    case ReadSetupOp => Touch(Setup, Read)
    case WriteUsersOp(services) => Section(Users, Write, KnownServices(services))
    case ReadUsersOp => Touch(Users, Read)
    case WriteServicesOp => Touch(Services, Write)
    case ReadServicesOp => Touch(Services, Read)
    case ChangeServicesOp => Seq(Touch(Services, Read), Touch(Services, Write))
    case RateLimitsOp(mode) => Touch(RateLimits, mode)
    case RecordAuditOp(fromEnv) => Seq(Touch(Audit, Write), PathOf(fromEnv))
    case ReadAuditOp => Touch(Audit, Read)
    case AllowOp(key) => Seq(Touch(Limiter, Write), Touch(Bucket(key), Write))
    case SweepBucketsOp(keys) => Section(Limiter, Write, SweepBuckets(keys))
    case MonitorOp(mode) => Touch(Monitor, mode)
    case SubscribersOp(mode) => Touch(Subscribers, mode)
    case VaultOp(changes) => Seq(Touch(FileVault, Write), When(changes, Touch(FileVault, Write)))
    case LockoutOp => Touch(Lockouts, Write)
    case ReplayOp => Touch(Replay, Write)
    case SessionOp => Touch(SessionTables, Write)
  }

  lemma {:induction false} TimesInOrder(n: nat, c: Code, outer: int)
    requires InOrder(c, outer)
    ensures InOrder(Times(n, c), outer)
  {
    if n > 0 {
      TimesInOrder(n - 1, c, outer);
      SeqInOrder(c, Times(n - 1, c), outer);
    }
  }

  lemma KnownServicesInOrder(n: nat, outer: int)
    requires outer < Rank(Services)
    ensures InOrder(KnownServices(n), outer)
  {
    TimesInOrder(n, Touch(Services, Read), outer);
  }

  lemma {:induction false} SweepInOrder(keys: seq<string>)
    ensures InOrder(SweepBuckets(keys), Rank(Limiter))
  {
    if keys != [] {
      SweepInOrder(keys[1..]);
    }
  }

  lemma PathInOrder(fromEnv: bool, outer: int)
    requires outer < Rank(Setup)
    ensures InOrder(PathOf(fromEnv), outer)
  {
  }

  lemma SaveInOrder(persists: bool, fromEnv: bool, outer: int)
    requires outer < Rank(Setup)
    ensures InOrder(SaveDeliveriesCode(persists, fromEnv), outer)
  {
    SeqInOrder(Touch(Setup, Read), When(persists, PathOf(fromEnv)), outer);
  }

  lemma SectionInOrder(l: Lock, m: Mode, body: Code, outer: int)
    requires outer < Rank(l) && InOrder(body, Rank(l))
    ensures InOrder(Section(l, m, body), outer)
  {
  }

  lemma UpgradeInOrder(written: bool, servicesSaved: bool, limitsSaved: bool, hasStore: bool)
    ensures InOrder(CodeOf(UpgradeOp(written, servicesSaved, limitsSaved, hasStore)), -1)
  {
    var r := Rank(Setup);
    SeqInOrder(Touch(Services, Read), Touch(Services, Write), r);
    SeqInOrder(Touch(RateLimits, Read), Touch(RateLimits, Write), r);
    var limits, users := Seq(Touch(RateLimits, Read), Touch(RateLimits, Write)), When(limitsSaved && hasStore, Touch(Users, Write));
    SeqInOrder(limits, users, r);
    SeqInOrder(Seq(Touch(Services, Read), Touch(Services, Write)), When(servicesSaved, Seq(limits, users)), r);
    SectionInOrder(Setup, Write, When(written, UpgradeBody(servicesSaved, limitsSaved, hasStore)), -1);
  }

  lemma DeliveryOpsInOrder(purged: bool, found: bool, saves: bool, persists: bool, fromEnv: bool)
    ensures InOrder(CodeOf(ClaimDeliveryOp(purged, found, saves, persists, fromEnv)), -1)
    ensures InOrder(CodeOf(CreateDeliveryOp(purged, persists, fromEnv)), -1)
    ensures InOrder(DeleteDeliveriesCode(saves, persists, fromEnv), -1)
    ensures InOrder(CodeOf(ListDeliveriesOp(purged, persists, fromEnv)), -1)
    ensures InOrder(CodeOf(LoadDeliveriesOp(persists, fromEnv)), -1)
  {
    var save := SaveDeliveriesCode(persists, fromEnv);
    SaveInOrder(persists, fromEnv, 0);
    SaveInOrder(persists, fromEnv, Rank(Deliveries));
    SeqInOrder(Touch(Tokens, Read), When(saves, save), 0);
    SeqInOrder(When(purged, save), When(found, Seq(Touch(Tokens, Read), When(saves, save))), 0);
    SeqInOrder(When(purged, save), save, 0);
  }

  lemma TokenOpsInOrder(ai: bool, services: nat, normalized: nat, built: bool, fromEnv: bool)
    ensures InOrder(CodeOf(LoadTokensOp(fromEnv, services)), -1)
    ensures forall named :: InOrder(CodeOf(CreateTokenOp(named, ai, services, normalized, built, fromEnv)), -1)
  {
    PathInOrder(fromEnv, 1);
    KnownServicesInOrder(services, 1);
    KnownServicesInOrder(normalized, 1);
    SeqInOrder(PathOf(fromEnv), KnownServices(services), 1);
    SeqInOrder(KnownServices(normalized), PathOf(fromEnv), 1);
    var tail := Seq(KnownServices(services), Seq(KnownServices(normalized), PathOf(fromEnv)));
    SeqInOrder(KnownServices(services), Seq(KnownServices(normalized), PathOf(fromEnv)), 1);
    SeqInOrder(When(ai, Touch(Services, Read)), When(built, tail), 1);
  }

  lemma TouchInOrder(l: Lock, m: Mode, outer: int)
    requires outer < Rank(l)
    ensures InOrder(Touch(l, m), outer)
  {
  }

  lemma WhenInOrder(b: bool, c: Code, outer: int)
    requires InOrder(c, outer)
    ensures InOrder(When(b, c), outer)
  {
  }

  lemma PathOpsInOrder(op: Operation)
    requires op.ValidateTokenOp? || op.WritePoliciesOp? || op.WriteSecretMetaOp? || op.NoteSecretOp? || op.RecordAuditOp?
    ensures InOrder(CodeOf(op), -1)
  {
    hide InOrder, Section, Touch, When, PathOf, Seq;
    PathInOrder(op.fromEnv, 1);
    PathInOrder(op.fromEnv, -1);
    match op
    case ValidateTokenOp(accepted, fromEnv) => PathSectionInOrder(Tokens, accepted, fromEnv);
    case WritePoliciesOp(changes, fromEnv) => PathSectionInOrder(Policies, changes, fromEnv);
    case WriteSecretMetaOp(changes, fromEnv) => PathSectionInOrder(SecretMeta, changes, fromEnv);
    case NoteSecretOp(changes, fromEnv) =>
      PathSectionInOrder(SecretMeta, changes, fromEnv);
      TouchInOrder(SecretMeta, Read, -1);
      SeqInOrder(Touch(SecretMeta, Read), Section(SecretMeta, Write, When(changes, PathOf(fromEnv))), -1);
    case RecordAuditOp(fromEnv) =>
      TouchInOrder(Audit, Write, -1);
      SeqInOrder(Touch(Audit, Write), PathOf(fromEnv), -1);
  }

  lemma PathSectionInOrder(l: Lock, b: bool, fromEnv: bool)
    requires Rank(l) == 1
    ensures InOrder(Section(l, Write, When(b, PathOf(fromEnv))), -1)
  {
    hide InOrder, Section, When, PathOf;
    PathInOrder(fromEnv, 1);
    WhenInOrder(b, PathOf(fromEnv), 1);
    SectionInOrder(l, Write, When(b, PathOf(fromEnv)), -1);
  }

  /** Operations that touch one lock. */
  lemma TouchOpsInOrder(op: Operation)
    requires op.ReadTokensOp? || op.ReadPoliciesOp? || op.ServiceSecretOp? || op.WriteSetupOp? || op.ReadSetupOp?
          || op.ReadUsersOp? || op.WriteServicesOp? || op.ReadServicesOp? || op.RateLimitsOp? || op.ReadAuditOp?
          || op.MonitorOp? || op.SubscribersOp? || op.LockoutOp? || op.ReplayOp? || op.SessionOp?
    ensures InOrder(CodeOf(op), -1)
  {
    hide InOrder, Touch, Section, Seq, When, PathOf, KnownServices, SweepBuckets, SaveDeliveriesCode, UpgradeBody, DeleteDeliveriesCode;
    forall l, m ensures InOrder(Touch(l, m), -1) {
      TouchInOrder(l, m, -1);
    }
  }

  /** Operations that touch two locks one after the other, and the reset. */
  lemma PairOpsInOrder(op: Operation)
    requires op.ResetSetupOp? || op.ChangeServicesOp? || op.AllowOp? || op.VaultOp?
    ensures InOrder(CodeOf(op), -1)
  {
    hide InOrder, Section, Touch, When, Seq;
    forall l, m ensures InOrder(Touch(l, m), -1) {
      TouchInOrder(l, m, -1);
    }
    match op
    case ResetSetupOp =>
      TouchInOrder(Audit, Write, Rank(Setup));
      SectionInOrder(Setup, Write, Touch(Audit, Write), -1);
    case ChangeServicesOp => SeqInOrder(Touch(Services, Read), Touch(Services, Write), -1);
    case AllowOp(key) => SeqInOrder(Touch(Limiter, Write), Touch(Bucket(key), Write), -1);
    case VaultOp(changes) =>
      WhenInOrder(changes, Touch(FileVault, Write), -1);
      SeqInOrder(Touch(FileVault, Write), When(changes, Touch(FileVault, Write)), -1);
  }

  lemma UserOpsInOrder(services: nat, keys: seq<string>)
    ensures InOrder(CodeOf(WriteUsersOp(services)), -1)
    ensures InOrder(CodeOf(SweepBucketsOp(keys)), -1)
  {
    hide InOrder, Section, KnownServices, SweepBuckets;
    KnownServicesInOrder(services, Rank(Users));
    SectionInOrder(Users, Write, KnownServices(services), -1);
    SweepInOrder(keys);
    SectionInOrder(Limiter, Write, SweepBuckets(keys), -1);
  }

  lemma RevokeInOrder(known: bool, saved: bool, changed: bool, persists: bool, fromEnv: bool)
    ensures InOrder(CodeOf(RevokeTokenOp(known, saved, changed, persists, fromEnv)), -1)
  {
    PathInOrder(fromEnv, Rank(Tokens));
    SectionInOrder(Tokens, Write, When(known, PathOf(fromEnv)), -1);
    DeliveryOpsInOrder(true, true, changed, persists, fromEnv);
    SeqInOrder(Section(Tokens, Write, When(known, PathOf(fromEnv))),
               When(known && saved, DeleteDeliveriesCode(changed, persists, fromEnv)), -1);
  }

  lemma AccessOpInOrder(hasStore: bool, admin: bool, allowed: bool)
    ensures InOrder(CodeOf(EvaluateAccessOp(hasStore, admin, allowed)), -1)
  {
    var users := Seq(Touch(Users, Read), When(!admin, Touch(Users, Read)));
    SeqInOrder(Touch(Users, Read), When(!admin, Touch(Users, Read)), -1);
    SeqInOrder(When(hasStore, users), When(!hasStore || (!admin && allowed), Touch(Policies, Read)), -1);
  }

  /** ONE ORDER FOR ALL. Every operation, on every path, nests its locks in rank order. */
  lemma OperationInOrder(op: Operation)
    ensures InOrder(CodeOf(op), -1)
  {
    hide CodeOf, InOrder;
    match op
    case LoadDeliveriesOp(persists, fromEnv) => DeliveryOpsInOrder(true, true, true, persists, fromEnv);
    case CreateDeliveryOp(purged, persists, fromEnv) => DeliveryOpsInOrder(purged, true, true, persists, fromEnv);
    case ListDeliveriesOp(purged, persists, fromEnv) => DeliveryOpsInOrder(purged, true, true, persists, fromEnv);
    case ClaimDeliveryOp(purged, found, saves, persists, fromEnv) => DeliveryOpsInOrder(purged, found, saves, persists, fromEnv);
    case DeleteDeliveriesOp(changed, persists, fromEnv) => DeleteInOrder(changed, persists, fromEnv);
    case LoadTokensOp(fromEnv, services) => TokenOpsInOrder(true, services, 0, true, fromEnv);
    case CreateTokenOp(named, ai, services, normalized, built, fromEnv) => TokenOpsInOrder(ai, services, normalized, built, fromEnv);
    case RevokeTokenOp(known, saved, changed, persists, fromEnv) => RevokeInOrder(known, saved, changed, persists, fromEnv);
    case UpgradeOp(written, servicesSaved, limitsSaved, hasStore) => UpgradeInOrder(written, servicesSaved, limitsSaved, hasStore);
    case WriteUsersOp(services) => UserOpsInOrder(services, []);
    case SweepBucketsOp(keys) => UserOpsInOrder(0, keys);
    case ValidateTokenOp(_, _) => PathOpsInOrder(op);
    case WritePoliciesOp(_, _) => PathOpsInOrder(op);
    case WriteSecretMetaOp(_, _) => PathOpsInOrder(op);
    case NoteSecretOp(_, _) => PathOpsInOrder(op);
    case RecordAuditOp(_) => PathOpsInOrder(op);
    case EvaluateAccessOp(hasStore, admin, allowed) => AccessOpInOrder(hasStore, admin, allowed);
    case ResetSetupOp => PairOpsInOrder(op);
    case ChangeServicesOp => PairOpsInOrder(op);
    case AllowOp(_) => PairOpsInOrder(op);
    case VaultOp(_) => PairOpsInOrder(op);
    case _ => TouchOpsInOrder(op);
  }

  lemma DeleteInOrder(changed: bool, persists: bool, fromEnv: bool)
    ensures InOrder(CodeOf(DeleteDeliveriesOp(changed, persists, fromEnv)), -1)
  {
    DeliveryOpsInOrder(true, true, changed, persists, fromEnv);
  }

  /** A request runs operations one after the other, holding nothing in between. */
  function RequestCode(ops: seq<Operation>): Code {
    if ops == [] then Done else Seq(CodeOf(ops[0]), RequestCode(ops[1..]))
  }

  lemma {:induction false} RequestInOrder(ops: seq<Operation>)
    ensures InOrder(RequestCode(ops), -1)
  {
    if ops != [] {
      OperationInOrder(ops[0]);
      RequestInOrder(ops[1..]);
      SeqInOrder(CodeOf(ops[0]), RequestCode(ops[1..]), -1);
    }
  }

  function Requests(reqs: seq<seq<Operation>>): (codes: seq<Code>)
    ensures |codes| == |reqs| && forall i :: 0 <= i < |reqs| ==> codes[i] == RequestCode(reqs[i])
  {
    seq(|reqs|, i requires 0 <= i < |reqs| => RequestCode(reqs[i]))
  }

  /** DEADLOCK FREEDOM. Whatever requests run at once and however their steps
      interleave, an unfinished system has an enabled step, and no run is longer
      than the work there is. */
  lemma GatewayNeverDeadlocks(reqs: seq<seq<Operation>>, schedule: seq<nat>)
    requires Follows(StartSystem(Requests(reqs)), schedule)
    ensures var end := After(StartSystem(Requests(reqs)), schedule);
            Finished(end) || exists i: nat :: i < |end| && CanStep(end, i)
    ensures |schedule| <= TotalWork(StartSystem(Requests(reqs)))
  {
    forall i | 0 <= i < |reqs| ensures InOrder(Requests(reqs)[i], -1) {
      RequestInOrder(reqs[i]);
    }
    OrderedProgramsFinish(Requests(reqs), schedule);
  }

  // ---- why a revocation lets go of the token lock first -------------------

  /** A revocation that deleted the deliveries while still holding the token lock. */
  function NestedRevoke(): Code {
    Section(Tokens, Write, Touch(Deliveries, Write))
  }

  lemma FlattenedCodes()
    ensures Flatten(CodeOf(ClaimDeliveryOp(false, true, false, false, false)))
         == [Acquire(Deliveries, Write)] + [Acquire(Tokens, Read), Release(Tokens), Release(Deliveries)]
    ensures Flatten(NestedRevoke())
         == [Acquire(Tokens, Write)] + [Acquire(Deliveries, Write), Release(Deliveries), Release(Tokens)]
  {
  }

  lemma NestsTheOtherWay()
    ensures !InOrder(NestedRevoke(), -1)
  {
  }

  /** A claim and such a revocation can reach a state where neither can move. */
  lemma NestedRevokeDeadlocks()
    ensures var codes := [CodeOf(ClaimDeliveryOp(false, true, false, false, false)), NestedRevoke()];
            !InOrder(codes[1], -1)
            && var schedule := [0, 0, 1, 1];
            && Follows(StartSystem(codes), schedule)
            && var end := After(StartSystem(codes), schedule);
            && !Finished(end) && forall i :: 0 <= i < |end| ==> !CanStep(end, i)
  {
    NestsTheOtherWay();
    var claim, revoke := CodeOf(ClaimDeliveryOp(false, true, false, false, false)), NestedRevoke();
    var tailA := [Acquire(Tokens, Read), Release(Tokens), Release(Deliveries)];
    var tailB := [Acquire(Deliveries, Write), Release(Deliveries), Release(Tokens)];
    FlattenedCodes();
    hide CodeOf, Flatten;
    var s0 := StartSystem([claim, revoke]);
    var a1 := Thread(map[], true, Flatten(claim));
    var s1 := s0[0 := a1];
    var a2 := Thread(map[Deliveries := Write], false, tailA);
    assert Advance(a1) == a2;
    var s2 := s1[0 := a2];
    var b1 := Thread(map[], true, Flatten(revoke));
    var s3 := s2[1 := b1];
    var b2 := Thread(map[Tokens := Write], false, tailB);
    assert Advance(b1) == b2;
    var s4 := s3[1 := b2];
    DeadlockedEnd(s4, a2, b2);
    LastStep(s3, s4, 1, []);
    LastStep(s2, s3, 1, [1]);
    LastStep(s1, s2, 0, [1, 1]);
    LastStep(s0, s1, 0, [0, 1, 1]);
  }

  lemma DeadlockedEnd(sys: System, a: Thread, b: Thread)
    requires sys == [a, b]
    requires a.rest != [] && a.rest[0] == Acquire(Tokens, Read) && b.rest != [] && b.rest[0] == Acquire(Deliveries, Write)
    requires HoldsWrite(b, Tokens) && HoldsWrite(a, Deliveries) && !b.announced
    ensures !Finished(sys) && forall i :: 0 <= i < |sys| ==> !CanStep(sys, i)
  {
    assert sys[0] == a && sys[1] == b;
  }

  lemma LastStep(sys: System, next: System, i: nat, schedule: seq<nat>)
    requires i < |sys| && CanStep(sys, i) && next == Step(sys, i) && Follows(next, schedule)
    ensures Follows(sys, [i] + schedule) && After(sys, [i] + schedule) == After(next, schedule)
  {
    assert ([i] + schedule)[1..] == schedule;
  }
}
