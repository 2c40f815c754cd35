/** API tokens and the one-time delivery of their raw keys (config/apitokens.go,
    config/token_deliveries.go): two stores with two locks, their files, crashes
    and restarts. A step is what one critical section does; a claim holds the
    delivery lock over several steps while token operations go on. */
module TokenDelivery {
  import opened Common
  import opened Text

  datatype Token = Token(id: string, user: string, hash: string, expiresAt: Option<int>, revokedAt: Option<int>)

  datatype Delivery = Delivery(id: string, tokenId: string, user: string, expiresAt: Option<int>, nonce: string, ciphertext: string)

  type Tokens = map<string, Token>
  type Deliveries = map<string, Delivery>

  const DELIVERY_TTL := 24 * 60 * MINUTE

  /** Hash, key derivation and authenticated encryption, as functions. */
  datatype Crypto = Crypto(
    hash: string -> string,
    derive: string -> string,
    seal: (string, string, string) -> string,
    open: (string, string, string) -> Option<string>)
  {
    /** Opening undoes sealing under the same key and nonce; hashes and encoded
        ciphertexts carry no blanks. */
    ghost predicate Sound() {
      && (forall raw, key, nonce :: open(seal(raw, key, nonce), key, nonce) == Some(raw))
      && (forall raw, key, nonce :: Trimmed(seal(raw, key, nonce)))
      && (forall raw :: Trimmed(hash(raw)))
    }
  }

  /** What stays fixed over a run: the setup mode and the master password. */
  datatype Config = Config(persistent: bool, master: string, crypto: Crypto) {
    predicate Persists() { persistent && Trim(master) != "" }
  }

  /** A claim in progress holds the delivery lock. */
  datatype Claim =
    | Idle
    | Found(delivery: Delivery)
    | Active(delivery: Delivery)
    | Inactive(delivery: Delivery)
    | Saved(delivery: Delivery, raw: string)

  /** Everything ever drawn or handed out, for stating freshness and safety. */
  datatype History = History(
    issued: set<(string, Token)>,
    tokenIds: set<string>,
    hashes: set<string>,
    deliveryIds: set<string>,
    delivered: set<string>)

  datatype State = State(
    tokens: Tokens, tokensFile: Tokens,
    deliveries: Deliveries, deliveriesFile: Deliveries,
    ephemeralKey: string, claim: Claim, history: History)

  function Start(ephemeralKey: string): State {
    State(map[], map[], map[], map[], ephemeralKey, Idle, History({}, {}, {}, {}, {}))
  }

  function Key(c: Config, ephemeralKey: string): string {
    if Trim(c.master) == "" then ephemeralKey else c.crypto.derive(c.master)
  }

  // ---- records -----------------------------------------------------------

  function NormalizeToken(t: Token): Token {
    t.(id := Trim(t.id), user := Trim(t.user), hash := Trim(t.hash))
  }

  function NormalizeDelivery(d: Delivery): Delivery {
    d.(id := Trim(d.id), tokenId := Trim(d.tokenId), user := Trim(d.user),
       nonce := Trim(d.nonce), ciphertext := Trim(d.ciphertext))
  }

  predicate Expired(d: Delivery, now: int) {
    d.expiresAt.None? || now > d.expiresAt.value
  }

  predicate Usable(t: Token, now: int) {
    t.revokedAt.None? && (t.expiresAt.None? || now <= t.expiresAt.value)
  }

  function Unexpired(ds: Deliveries, now: int): Deliveries {
    map id | id in ds && !Expired(ds[id], now) :: ds[id]
  }

  function WithoutToken(ds: Deliveries, tokenId: string): Deliveries {
    map id | id in ds && ds[id].tokenId != tokenId :: ds[id]
  }

  /** Reading the file back keeps the records that have an ID and have not expired,
      normalised. Records are filed under their own ID. */
  function LoadDeliveries(file: Deliveries, now: int): Deliveries {
    map id | id in file && id != "" && !Expired(file[id], now) :: NormalizeDelivery(file[id])
  }

  function LoadTokens(file: Tokens): Tokens {
    map id | id in file :: NormalizeToken(file[id])
  }

  // ---- what one critical section does ------------------------------------

  datatype Outcome =
    | Silent
    | Failed
    | TokenCreated(raw: string, token: Token)
    | Valid(token: Token)
    | Invalid
    | DeliveryCreated(delivery: Delivery)
    | NotFound
    | NoLongerActive
    | Delivered(id: string, raw: string, user: string)

  /** Writing a file succeeds or fails as a whole. */
  function SaveTokens(s: State, ok: bool): State {
    if ok then s.(tokensFile := s.tokens) else s
  }

  function SaveDeliveries(c: Config, s: State, ok: bool): (State, bool) {
    if !c.Persists() then (s, true)
    else if ok then (s.(deliveriesFile := s.deliveries), true)
    else (s, false)
  }

  function Purge(c: Config, s: State, now: int, ok: bool): State {
    var kept := Unexpired(s.deliveries, now);
    if kept == s.deliveries then s else SaveDeliveries(c, s.(deliveries := kept), ok).0
  }

  function NewToken(c: Config, user: string, raw: string, id: string, expiresAt: Option<int>): Token {
    NormalizeToken(Token(id, user, c.crypto.hash(raw), expiresAt, None))
  }

  function CreateToken(c: Config, s: State, user: string, raw: string, id: string, expiresAt: Option<int>, saved: bool): (State, Outcome) {
    if Trim(user) == "" then (s, Failed)
    else
      var t := NewToken(c, user, raw, id, expiresAt);
      var h := s.history.(tokenIds := s.history.tokenIds + {t.id}, hashes := s.history.hashes + {t.hash});
      var s' := s.(tokens := s.tokens[t.id := t]);
      if saved then
        (SaveTokens(s', true).(history := h.(issued := h.issued + {(raw, t)})), TokenCreated(raw, t))
      else (s.(tokens := s'.tokens - {t.id}, history := h), Failed)
  }

  /** The half of a revocation that runs under the token lock. */
  function RevokeToken(s: State, rawId: string, saved: bool, now: int): (State, Outcome) {
    var id := Trim(rawId);
    if id !in s.tokens then (s, NotFound)
    else
      var t := if s.tokens[id].revokedAt.None? then s.tokens[id].(revokedAt := Some(now)) else s.tokens[id];
      (SaveTokens(s.(tokens := s.tokens[id := t]), saved), if saved then Silent else Failed)
  }

  /** The half that runs afterwards under the delivery lock. */
  function DeleteByToken(c: Config, s: State, rawId: string, ok: bool): State {
    var tokenId := Trim(rawId);
    var kept := WithoutToken(s.deliveries, tokenId);
    if tokenId == "" || kept == s.deliveries then s else SaveDeliveries(c, s.(deliveries := kept), ok).0
  }

  predicate Matches(c: Config, s: State, raw: string, id: string) {
    id in s.tokens && s.tokens[id].hash == c.crypto.hash(Trim(raw))
  }

  /** `pick` is the matching record the scan meets first. */
  function ValidateToken(c: Config, s: State, raw: string, pick: string, saved: bool, now: int): (State, Outcome) {
    if !Matches(c, s, raw, pick) then (s, Invalid)
    else if !Usable(s.tokens[pick], now) then (s, Invalid)
    else (SaveTokens(s, saved), Valid(s.tokens[pick]))
  }

  function CreateDelivery(c: Config, s: State, raw: string, t: Token, id: string, nonce: string, purgeOk: bool, ok: bool, now: int): (State, Outcome) {
    var d := NormalizeDelivery(Delivery(id, t.id, t.user, Some(now + DELIVERY_TTL), nonce,
                                        c.crypto.seal(raw, Key(c, s.ephemeralKey), nonce)));
    var s := s.(history := s.history.(deliveryIds := s.history.deliveryIds + {d.id}));
    var purged := Purge(c, s, now, purgeOk);
    var (s', saved) := SaveDeliveries(c, purged.(deliveries := purged.deliveries[d.id := d]), ok);
    if saved then (s', DeliveryCreated(d)) else (purged.(deliveries := s'.deliveries - {d.id}), Failed)
  }

  /** Up to the lookup: on success the delivery lock stays held. */
  function ClaimBegin(c: Config, s: State, rawUser: string, rawId: string, purgeOk: bool, now: int): (State, Outcome) {
    var user, id := Trim(rawUser), Trim(rawId);
    if user == "" || id == "" then (s, NotFound)
    else
      var s := Purge(c, s, now, purgeOk);
      if id !in s.deliveries || s.deliveries[id].user != user then (s, NotFound)
      else (s.(claim := Found(s.deliveries[id])), Silent)
  }

  /** Reading the token, under the token lock. */
  function ClaimCheck(s: State, now: int): State
    requires s.claim.Found?
  {
    var d := s.claim.delivery;
    var id := Trim(d.tokenId);
    s.(claim := if id in s.tokens && Usable(s.tokens[id], now) then Active(d) else Inactive(d))
  }

  /** Removing the delivery and saving, before anything is returned. */
  function ClaimSave(c: Config, s: State, ok: bool): (State, Outcome)
    requires s.claim.Active? || s.claim.Inactive?
  {
    var d := s.claim.delivery;
    var without := s.(deliveries := s.deliveries - {d.id}, claim := Idle);
    if s.claim.Inactive? then (SaveDeliveries(c, without, ok).0, NoLongerActive)
    else
      var plain := c.crypto.open(d.ciphertext, Key(c, s.ephemeralKey), d.nonce);
      if plain.None? then (s.(claim := Idle), Failed)
      else
        var (s', saved) := SaveDeliveries(c, without, ok);
        if saved then (s'.(claim := Saved(d, plain.value)), Silent) else (s', Failed)
  }

  function ClaimReturn(s: State): (State, Outcome)
    requires s.claim.Saved?
  {
    var d := s.claim.delivery;
    (s.(claim := Idle, history := s.history.(delivered := s.history.delivered + {d.id})),
     Delivered(d.id, s.claim.raw, d.user))
  }

  /** A crash and the next start: memory is gone, the files are read if they can be. */
  function Restart(c: Config, s: State, ephemeralKey: string, tokensRead: bool, deliveriesRead: bool, now: int): State {
    s.(tokens := if tokensRead then LoadTokens(s.tokensFile) else map[],
       deliveries := if c.Persists() && deliveriesRead then LoadDeliveries(s.deliveriesFile, now) else map[],
       ephemeralKey := ephemeralKey,
       claim := Idle)
  }

  // ---- steps and runs ----------------------------------------------------

  datatype Action =
    | DoCreateToken(user: string, raw: string, id: string, expiresAt: Option<int>, saved: bool)
    | DoRevokeToken(id: string, saved: bool, now: int)
    | DoDeleteByToken(id: string, saved: bool)
    | DoValidate(raw: string, pick: string, saved: bool, now: int)
    | DoCreateDelivery(raw: string, token: Token, id: string, nonce: string, purged: bool, saved: bool, now: int)
    | DoList(purged: bool, now: int)
    | DoClaimBegin(user: string, id: string, purged: bool, now: int)
    | DoClaimCheck(now: int)
    | DoClaimSave(saved: bool)
    | DoClaimReturn
    | DoRestart(ephemeralKey: string, tokensRead: bool, deliveriesRead: bool, now: int)

  /** Random IDs and keys are fresh; deliveries are made for keys just issued;
      the delivery lock is free for whoever takes it. */
  ghost predicate Enabled(c: Config, s: State, a: Action) {
    match a
    case DoCreateToken(user, raw, id, expiresAt, saved) =>
      Trimmed(id) && id != "" && id !in s.history.tokenIds && Trimmed(raw) && c.crypto.hash(raw) !in s.history.hashes
    case DoRevokeToken(_, _, _) => true
    case DoDeleteByToken(_, _) => s.claim.Idle?
    case DoValidate(raw, pick, _, _) => Matches(c, s, raw, pick) || forall id :: !Matches(c, s, raw, id)
    case DoCreateDelivery(raw, token, id, nonce, _, _, _) =>
      s.claim.Idle? && (raw, token) in s.history.issued
      && Trimmed(id) && id != "" && id !in s.history.deliveryIds && Trimmed(nonce)
    case DoList(_, _) => s.claim.Idle?
    case DoClaimBegin(_, _, _, _) => s.claim.Idle?
    case DoClaimCheck(_) => s.claim.Found?
    case DoClaimSave(_) => s.claim.Active? || s.claim.Inactive?
    case DoClaimReturn => s.claim.Saved?
    case DoRestart(_, _, _, _) => true
  }

  function Next(c: Config, s: State, a: Action): (State, Outcome) {
    match a
    case DoCreateToken(user, raw, id, expiresAt, saved) => CreateToken(c, s, user, raw, id, expiresAt, saved)
    case DoRevokeToken(id, saved, now) => RevokeToken(s, id, saved, now)
    case DoDeleteByToken(id, saved) => (DeleteByToken(c, s, id, saved), Silent)
    case DoValidate(raw, pick, saved, now) => ValidateToken(c, s, raw, pick, saved, now)
    case DoCreateDelivery(raw, token, id, nonce, purged, saved, now) => CreateDelivery(c, s, raw, token, id, nonce, purged, saved, now)
    case DoList(purged, now) => (Purge(c, s, now, purged), Silent)
    case DoClaimBegin(user, id, purged, now) => ClaimBegin(c, s, user, id, purged, now)
    case DoClaimCheck(now) => if s.claim.Found? then (ClaimCheck(s, now), Silent) else (s, Silent)
    case DoClaimSave(saved) => if s.claim.Active? || s.claim.Inactive? then ClaimSave(c, s, saved) else (s, Silent)
    case DoClaimReturn => if s.claim.Saved? then ClaimReturn(s) else (s, Silent)
    case DoRestart(key, tokensRead, deliveriesRead, now) => (Restart(c, s, key, tokensRead, deliveriesRead, now), Silent)
  }

  /** A run from an empty gateway. */
  datatype Run = Run(c: Config, ephemeralKey: string, acts: seq<Action>)

  function StateAt(r: Run, n: nat): State
    requires n <= |r.acts|
  {
    if n == 0 then Start(r.ephemeralKey) else Next(r.c, StateAt(r, n - 1), r.acts[n - 1]).0
  }

  function OutcomeAt(r: Run, n: nat): Outcome
    requires n < |r.acts|
  {
    Next(r.c, StateAt(r, n), r.acts[n]).1
  }

  ghost predicate Legal(r: Run) {
    r.c.crypto.Sound() && forall n :: 0 <= n < |r.acts| ==> Enabled(r.c, StateAt(r, n), r.acts[n])
  }

  // ---- the invariant -----------------------------------------------------

  /** A stored token is the issued one, apart from being revoked. */
  ghost predicate TokensSound(c: Config, ts: Tokens, h: History) {
    forall id :: id in ts ==>
      && ts[id].id == id && NormalizeToken(ts[id]) == ts[id] && id in h.tokenIds
      && IssuedAs(h, ts[id].(revokedAt := None))
  }

  ghost predicate IssuedAs(h: History, t: Token) {
    exists raw :: (raw, t) in h.issued
  }

  /** Each ID and each hash was issued once, for a key with that hash. */
  ghost predicate IssuedSound(c: Config, h: History) {
    && (forall p :: p in h.issued ==>
          p.1.hash == c.crypto.hash(p.0) && p.1.id in h.tokenIds && p.1.hash in h.hashes && p.1.revokedAt == None
          && NormalizeToken(p.1) == p.1)
    && (forall p, q :: p in h.issued && q in h.issued && (p.1.id == q.1.id || p.1.hash == q.1.hash) ==> p == q)
  }

  /** The delivery carries an issued key, sealed for the user of its token. */
  ghost predicate Sealed(c: Config, key: string, h: History, d: Delivery) {
    exists p :: p in h.issued && d.tokenId == p.1.id && d.user == p.1.user
                && d.ciphertext == c.crypto.seal(p.0, key, d.nonce)
  }

  ghost predicate DeliverySound(c: Config, key: string, h: History, id: string, d: Delivery) {
    d.id == id && id != "" && NormalizeDelivery(d) == d && id in h.deliveryIds && id !in h.delivered && Sealed(c, key, h, d)
  }

  ghost predicate DeliveriesSound(c: Config, key: string, ds: Deliveries, h: History) {
    forall id :: id in ds ==> DeliverySound(c, key, h, id, ds[id])
  }

  /** The key found in a claim that is about to be returned. */
  ghost predicate Opened(h: History, ts: Tokens, d: Delivery, raw: string) {
    exists t :: (raw, t) in h.issued && d.tokenId == t.id && d.user == t.user && t.id in ts
  }

  ghost predicate ClaimSound(c: Config, s: State) {
    match s.claim
    case Idle => true
    case Found(d) => d.id in s.deliveries && s.deliveries[d.id] == d
    case Active(d) => d.id in s.deliveries && s.deliveries[d.id] == d && d.tokenId in s.tokens
    case Inactive(d) => d.id in s.deliveries && s.deliveries[d.id] == d
    case Saved(d, raw) =>
      && d.id !in s.deliveries && (c.Persists() ==> d.id !in s.deliveriesFile)
      && d.id in s.history.deliveryIds && d.id !in s.history.delivered
      && Opened(s.history, s.tokens, d, raw)
  }

  ghost predicate Inv(c: Config, s: State) {
    && IssuedSound(c, s.history)
    && TokensSound(c, s.tokens, s.history) && TokensSound(c, s.tokensFile, s.history)
    && DeliveriesSound(c, Key(c, s.ephemeralKey), s.deliveries, s.history)
    && (c.Persists() ==> DeliveriesSound(c, Key(c, s.ephemeralKey), s.deliveriesFile, s.history))
    && s.history.delivered <= s.history.deliveryIds
    && ClaimSound(c, s)
  }

  /** What was true of stored records stays true when history only grows. */
  ghost predicate Grows(h: History, h': History) {
    h.issued <= h'.issued && h.tokenIds <= h'.tokenIds && h.hashes <= h'.hashes && h.deliveryIds <= h'.deliveryIds
  }

  lemma TokensStaySound(c: Config, ts: Tokens, h: History, h': History)
    requires TokensSound(c, ts, h) && Grows(h, h')
    ensures TokensSound(c, ts, h')
  {
    forall id | id in ts ensures IssuedAs(h', ts[id].(revokedAt := None)) {
      assert IssuedAs(h, ts[id].(revokedAt := None));
      var raw :| (raw, ts[id].(revokedAt := None)) in h.issued;
      assert (raw, ts[id].(revokedAt := None)) in h'.issued;
    }
  }

  lemma DeliveryStaysSound(c: Config, key: string, h: History, h': History, id: string, d: Delivery)
    requires DeliverySound(c, key, h, id, d) && Grows(h, h') && id !in h'.delivered
    ensures DeliverySound(c, key, h', id, d)
  {
    var p :| p in h.issued && d.tokenId == p.1.id && d.user == p.1.user && d.ciphertext == c.crypto.seal(p.0, key, d.nonce);
    assert p in h'.issued;
  }

  lemma DeliveriesStaySound(c: Config, key: string, ds: Deliveries, h: History, h': History)
    requires DeliveriesSound(c, key, ds, h) && Grows(h, h')
    requires forall id :: id in ds ==> id !in h'.delivered
    ensures DeliveriesSound(c, key, ds, h')
  {
    forall id | id in ds ensures DeliverySound(c, key, h', id, ds[id]) {
      DeliveryStaysSound(c, key, h, h', id, ds[id]);
    }
  }

  /** The invariant survives a growing history that records no new delivery. */
  lemma HistoryGrows(c: Config, s: State, h': History)
    requires Inv(c, s) && Grows(s.history, h') && h'.delivered == s.history.delivered && IssuedSound(c, h')
    ensures Inv(c, s.(history := h'))
  {
    hide DeliverySound, IssuedSound, TokensSound, Key, ClaimSound;
    var h := s.history;
    TokensStaySound(c, s.tokens, h, h');
    TokensStaySound(c, s.tokensFile, h, h');
    TableStaysSound(c, Key(c, s.ephemeralKey), s.deliveries, h, h');
    if c.Persists() {
      TableStaysSound(c, Key(c, s.ephemeralKey), s.deliveriesFile, h, h');
    }
    ClaimStaysSound(c, s, h');
  }

  lemma TableStaysSound(c: Config, key: string, ds: Deliveries, h: History, h': History)
    requires DeliveriesSound(c, key, ds, h) && Grows(h, h') && h'.delivered == h.delivered
    ensures DeliveriesSound(c, key, ds, h')
  {
    hide Sealed, NormalizeDelivery;
    DeliveriesStaySound(c, key, ds, h, h');
  }

  lemma ClaimStaysSound(c: Config, s: State, h': History)
    requires ClaimSound(c, s) && Grows(s.history, h') && h'.delivered == s.history.delivered
    ensures ClaimSound(c, s.(history := h'))
  {
    if s.claim.Saved? {
      var d, raw := s.claim.delivery, s.claim.raw;
      var t :| (raw, t) in s.history.issued && d.tokenId == t.id && d.user == t.user && t.id in s.tokens;
      assert (raw, t) in h'.issued;
    }
  }

  /** The invariant survives sound token tables that keep every ID. */
  lemma TokensChange(c: Config, s: State, ts: Tokens, file: Tokens)
    requires Inv(c, s) && TokensSound(c, ts, s.history) && TokensSound(c, file, s.history)
    requires s.tokens.Keys <= ts.Keys
    ensures Inv(c, s.(tokens := ts, tokensFile := file))
  {
    hide Sealed, IssuedSound, TokensSound, DeliveriesSound, Key;
    if s.claim.Saved? {
      var t :| (s.claim.raw, t) in s.history.issued && s.claim.delivery.tokenId == t.id && s.claim.delivery.user == t.user && t.id in s.tokens;
      assert t.id in ts;
    }
  }

  lemma TokenInserted(c: Config, ts: Tokens, h: History, t: Token)
    requires TokensSound(c, ts, h) && NormalizeToken(t) == t && t.id in h.tokenIds && IssuedAs(h, t.(revokedAt := None))
    ensures TokensSound(c, ts[t.id := t], h)
  {
    hide NormalizeToken, IssuedAs;
  }

  lemma NewTokenFacts(c: Config, user: string, raw: string, id: string, expiresAt: Option<int>)
    requires c.crypto.Sound() && Trimmed(id)
    ensures var t := NewToken(c, user, raw, id, expiresAt);
            && t.id == id && t.user == Trim(user) && t.hash == c.crypto.hash(raw) && t.expiresAt == expiresAt
            && t.revokedAt == None && NormalizeToken(t) == t
  {
    hide Trim, Trimmed;
  }

  lemma IssueRecorded(c: Config, h: History, raw: string, t: Token)
    requires IssuedSound(c, h) && t.id !in h.tokenIds && t.hash !in h.hashes
    requires t.hash == c.crypto.hash(raw) && t.revokedAt == None && NormalizeToken(t) == t
    ensures var h' := h.(tokenIds := h.tokenIds + {t.id}, hashes := h.hashes + {t.hash});
            IssuedSound(c, h') && IssuedSound(c, h'.(issued := h.issued + {(raw, t)}))
            && IssuedAs(h'.(issued := h.issued + {(raw, t)}), t)
  {
    hide NormalizeToken;
    assert (raw, t) in h.issued + {(raw, t)};
  }

  // ---- every step keeps the invariant ------------------------------------

  lemma CreateTokenKeeps(c: Config, s: State, user: string, raw: string, id: string, expiresAt: Option<int>, saved: bool)
    requires c.crypto.Sound() && Inv(c, s)
    requires Enabled(c, s, DoCreateToken(user, raw, id, expiresAt, saved))
    ensures Inv(c, CreateToken(c, s, user, raw, id, expiresAt, saved).0)
  {
    hide Inv, IssuedSound, TokensSound, NewToken, NormalizeToken, IssuedAs, Crypto.Sound, Trim;
    if Trim(user) != "" {
      InvParts(c, s);
      var t := NewToken(c, user, raw, id, expiresAt);
      NewTokenFacts(c, user, raw, id, expiresAt);
      IssueRecorded(c, s.history, raw, t);
      var h := s.history.(tokenIds := s.history.tokenIds + {t.id}, hashes := s.history.hashes + {t.hash});
      var h' := if saved then h.(issued := h.issued + {(raw, t)}) else h;
      HistoryGrows(c, s, h');
      var s' := s.(history := h');
      InvParts(c, s');
      if saved {
        assert t.(revokedAt := None) == t;
        TokenInserted(c, s.tokens, h', t);
        TokensChange(c, s', s.tokens[t.id := t], s.tokens[t.id := t]);
      } else {
        FreshKey(c, s.tokens, s.history, t.id);
        assert s.tokens[t.id := t] - {t.id} == s.tokens;
      }
    }
  }

  lemma FreshKey(c: Config, ts: Tokens, h: History, id: string)
    requires TokensSound(c, ts, h) && id !in h.tokenIds
    ensures id !in ts
  {
  }

  lemma InvParts(c: Config, s: State)
    requires Inv(c, s)
    ensures IssuedSound(c, s.history) && TokensSound(c, s.tokens, s.history) && TokensSound(c, s.tokensFile, s.history)
    ensures DeliveriesSound(c, Key(c, s.ephemeralKey), s.deliveries, s.history)
    ensures c.Persists() ==> DeliveriesSound(c, Key(c, s.ephemeralKey), s.deliveriesFile, s.history)
    ensures s.history.delivered <= s.history.deliveryIds && ClaimSound(c, s)
  {
  }

  lemma RevokeKeeps(c: Config, s: State, rawId: string, saved: bool, now: int)
    requires Inv(c, s)
    ensures Inv(c, RevokeToken(s, rawId, saved, now).0)
  {
    hide Inv, TokensSound, NormalizeToken, IssuedAs, Trim;
    var id := Trim(rawId);
    if id in s.tokens {
      InvParts(c, s);
      var stored := s.tokens[id];
      var t := if stored.revokedAt.None? then stored.(revokedAt := Some(now)) else stored;
      RevokedRecord(c, s.tokens, s.history, id, t);
      TokensChange(c, s, s.tokens[id := t], if saved then s.tokens[id := t] else s.tokensFile);
    }
  }

  lemma RevokedRecord(c: Config, ts: Tokens, h: History, id: string, t: Token)
    requires TokensSound(c, ts, h) && id in ts && t.(revokedAt := None) == ts[id].(revokedAt := None)
    ensures TokensSound(c, ts[id := t], h)
  {
    hide Trim, IssuedAs;
    assert NormalizeToken(ts[id]) == ts[id];
  }

  lemma ValidateKeeps(c: Config, s: State, raw: string, pick: string, saved: bool, now: int)
    requires Inv(c, s)
    ensures Inv(c, ValidateToken(c, s, raw, pick, saved, now).0)
  {
    hide Inv, TokensSound;
    InvParts(c, s);
    TokensChange(c, s, s.tokens, if saved then s.tokens else s.tokensFile);
  }

  /** The invariant survives a smaller delivery table, saved or not, while no claim is open. */
  lemma DeliveriesShrink(c: Config, s: State, kept: Deliveries, ok: bool)
    requires Inv(c, s) && s.claim.Idle?
    requires kept.Keys <= s.deliveries.Keys && forall id :: id in kept ==> kept[id] == s.deliveries[id]
    ensures Inv(c, SaveDeliveries(c, s.(deliveries := kept), ok).0)
    ensures Inv(c, s.(deliveries := kept))
  {
    hide DeliverySound, IssuedSound, TokensSound, Key;
  }

  /** A purge touches nothing but the delivery table and its file. */
  lemma PurgeFrame(c: Config, s: State, now: int, ok: bool)
    ensures var p := Purge(c, s, now, ok);
            p.tokens == s.tokens && p.tokensFile == s.tokensFile && p.history == s.history && p.claim == s.claim
            && p.ephemeralKey == s.ephemeralKey
  {
    hide Unexpired;
  }

  lemma PurgeKeeps(c: Config, s: State, now: int, ok: bool)
    requires Inv(c, s) && s.claim.Idle?
    ensures Inv(c, Purge(c, s, now, ok)) && Purge(c, s, now, ok).claim.Idle?
    ensures Purge(c, s, now, ok).deliveries == Unexpired(s.deliveries, now)
    ensures Purge(c, s, now, ok).(deliveries := map[], deliveriesFile := map[]) == s.(deliveries := map[], deliveriesFile := map[])
  {
    hide Inv;
    DeliveriesShrink(c, s, Unexpired(s.deliveries, now), ok);
  }

  lemma DeleteByTokenKeeps(c: Config, s: State, rawId: string, ok: bool)
    requires Inv(c, s) && s.claim.Idle?
    ensures Inv(c, DeleteByToken(c, s, rawId, ok))
  {
    hide Inv;
    DeliveriesShrink(c, s, WithoutToken(s.deliveries, Trim(rawId)), ok);
  }

  lemma CreateDeliveryKeeps(c: Config, s: State, raw: string, t: Token, id: string, nonce: string, purgeOk: bool, ok: bool, now: int)
    requires c.crypto.Sound() && Inv(c, s)
    requires Enabled(c, s, DoCreateDelivery(raw, t, id, nonce, purgeOk, ok, now))
    ensures Inv(c, CreateDelivery(c, s, raw, t, id, nonce, purgeOk, ok, now).0)
  {
    hide Inv, Purge, Key, Crypto.Sound, IssuedSound, NormalizeDelivery, DeliverySound;
    InvParts(c, s);
    var d := NormalizeDelivery(Delivery(id, t.id, t.user, Some(now + DELIVERY_TTL), nonce,
                                        c.crypto.seal(raw, Key(c, s.ephemeralKey), nonce)));
    NewDeliverySound(c, s, raw, t, id, nonce, now);
    var h := s.history.(deliveryIds := s.history.deliveryIds + {d.id});
    IssuedIgnoresDeliveries(c, s.history, h);
    HistoryGrows(c, s, h);
    var s1 := s.(history := h);
    PurgeKeeps(c, s1, now, purgeOk);
    var purged := Purge(c, s1, now, purgeOk);
    assert d.id !in purged.deliveries by {
      FreshDelivery(c, s, d.id);
    }
    InsertDelivery(c, purged, d, ok);
    assert purged.deliveries[d.id := d] - {d.id} == purged.deliveries;
  }

  lemma FreshDelivery(c: Config, s: State, id: string)
    requires Inv(c, s) && id !in s.history.deliveryIds
    ensures id !in s.deliveries && (c.Persists() ==> id !in s.deliveriesFile) && id !in s.history.delivered
  {
  }

  lemma IssuedIgnoresDeliveries(c: Config, h: History, h': History)
    requires IssuedSound(c, h) && h'.issued == h.issued && h'.tokenIds == h.tokenIds && h'.hashes == h.hashes
    ensures IssuedSound(c, h')
  {
    hide NormalizeToken;
  }

  lemma NewDeliverySound(c: Config, s: State, raw: string, t: Token, id: string, nonce: string, now: int)
    requires c.crypto.Sound() && Inv(c, s) && (raw, t) in s.history.issued
    requires Trimmed(id) && id != "" && id !in s.history.deliveryIds && Trimmed(nonce)
    ensures var key := Key(c, s.ephemeralKey);
            var d := NormalizeDelivery(Delivery(id, t.id, t.user, Some(now + DELIVERY_TTL), nonce, c.crypto.seal(raw, key, nonce)));
            && d == Delivery(id, t.id, t.user, Some(now + DELIVERY_TTL), nonce, c.crypto.seal(raw, key, nonce))
            && DeliverySound(c, key, s.history.(deliveryIds := s.history.deliveryIds + {d.id}), d.id, d)
  {
    hide Key;
    var key := Key(c, s.ephemeralKey);
    var d := Delivery(id, t.id, t.user, Some(now + DELIVERY_TTL), nonce, c.crypto.seal(raw, key, nonce));
    assert NormalizeToken(t) == t by {
      assert (raw, t).1 == t;
    }
    assert Trim(t.id) == t.id && Trim(t.user) == t.user;
    assert NormalizeDelivery(d) == d;
    var h := s.history.(deliveryIds := s.history.deliveryIds + {id});
    assert Sealed(c, key, h, d) by {
      var p := (raw, t);
      assert p in h.issued && d.tokenId == p.1.id && d.user == p.1.user;
    }
  }

  lemma InsertDelivery(c: Config, s: State, d: Delivery, ok: bool)
    requires Inv(c, s) && s.claim.Idle? && DeliverySound(c, Key(c, s.ephemeralKey), s.history, d.id, d)
    ensures Inv(c, SaveDeliveries(c, s.(deliveries := s.deliveries[d.id := d]), ok).0)
  {
    hide DeliverySound, IssuedSound, TokensSound, Key;
  }

  lemma ClaimBeginKeeps(c: Config, s: State, rawUser: string, rawId: string, purgeOk: bool, now: int)
    requires Inv(c, s) && s.claim.Idle?
    ensures Inv(c, ClaimBegin(c, s, rawUser, rawId, purgeOk, now).0)
  {
    hide IssuedSound, TokensSound, DeliveriesSound, Key, Purge, Trim;
    PurgeKeeps(c, s, now, purgeOk);
    var p := Purge(c, s, now, purgeOk);
    var id := Trim(rawId);
    if id in p.deliveries {
      KeyIsId(c, p, id);
    }
  }

  lemma KeyIsId(c: Config, s: State, id: string)
    requires Inv(c, s) && id in s.deliveries
    ensures s.deliveries[id].id == id && Trim(s.deliveries[id].tokenId) == s.deliveries[id].tokenId
  {
    assert NormalizeDelivery(s.deliveries[id]) == s.deliveries[id];
  }

  lemma ClaimCheckKeeps(c: Config, s: State, now: int)
    requires Inv(c, s) && s.claim.Found?
    ensures Inv(c, ClaimCheck(s, now))
  {
    hide IssuedSound, TokensSound, DeliveriesSound, Key, Trim;
    KeyIsId(c, s, s.claim.delivery.id);
  }

  lemma ClaimSaveKeeps(c: Config, s: State, ok: bool)
    requires c.crypto.Sound() && Inv(c, s) && (s.claim.Active? || s.claim.Inactive?)
    ensures Inv(c, ClaimSave(c, s, ok).0)
  {
    hide Inv, Crypto.Sound, Key;
    var d := s.claim.delivery;
    ClaimEnds(c, s);
    var idle := s.(claim := Idle);
    DeliveriesShrink(c, idle, s.deliveries - {d.id}, ok);
    if s.claim.Active? {
      var plain := c.crypto.open(d.ciphertext, Key(c, s.ephemeralKey), d.nonce);
      var (s', saved) := SaveDeliveries(c, idle.(deliveries := s.deliveries - {d.id}), ok);
      if plain.Some? && saved {
        var raw := plain.value;
        OpenedKey(c, s, d, raw);
        SavedClaim(c, s', d, raw);
      }
    }
  }

  lemma ClaimEnds(c: Config, s: State)
    requires Inv(c, s)
    ensures Inv(c, s.(claim := Idle))
  {
    hide IssuedSound, TokensSound, DeliveriesSound, Key;
  }

  /** Opening a claimed delivery yields the key issued for its token. */
  lemma OpenedKey(c: Config, s: State, d: Delivery, raw: string)
    requires c.crypto.Sound() && Inv(c, s) && s.claim == Active(d)
    requires c.crypto.open(d.ciphertext, Key(c, s.ephemeralKey), d.nonce) == Some(raw)
    ensures Opened(s.history, s.tokens, d, raw)
    ensures d.id in s.history.deliveryIds && d.id !in s.history.delivered
  {
    hide IssuedSound, TokensSound, NormalizeDelivery, Key;
    var key := Key(c, s.ephemeralKey);
    assert DeliverySound(c, key, s.history, d.id, s.deliveries[d.id]);
    var p :| p in s.history.issued && d.tokenId == p.1.id && d.user == p.1.user && d.ciphertext == c.crypto.seal(p.0, key, d.nonce);
    assert c.crypto.open(c.crypto.seal(p.0, key, d.nonce), key, d.nonce) == Some(p.0);
    assert (raw, p.1) in s.history.issued;
  }

  lemma SavedClaim(c: Config, s: State, d: Delivery, raw: string)
    requires Inv(c, s) && s.claim.Idle?
    requires d.id !in s.deliveries && (c.Persists() ==> d.id !in s.deliveriesFile)
    requires d.id in s.history.deliveryIds && d.id !in s.history.delivered && Opened(s.history, s.tokens, d, raw)
    ensures Inv(c, s.(claim := Saved(d, raw)))
  {
    hide IssuedSound, TokensSound, DeliveriesSound, Key, Opened;
  }

  lemma ClaimReturnKeeps(c: Config, s: State)
    requires Inv(c, s) && s.claim.Saved?
    ensures Inv(c, ClaimReturn(s).0)
  {
    hide IssuedSound, TokensSound, Key, Sealed, Trim, Trimmed, NormalizeDelivery;
    var h' := ClaimReturn(s).0.history;
    TokensStaySound(c, s.tokens, s.history, h');
    TokensStaySound(c, s.tokensFile, s.history, h');
    IssuedIgnoresDeliveries(c, s.history, h');
    DeliveriesStaySound(c, Key(c, s.ephemeralKey), s.deliveries, s.history, h');
    if c.Persists() {
      DeliveriesStaySound(c, Key(c, s.ephemeralKey), s.deliveriesFile, s.history, h');
    }
  }

  lemma RestartKeeps(c: Config, s: State, ephemeralKey: string, tokensRead: bool, deliveriesRead: bool, now: int)
    requires Inv(c, s)
    ensures Inv(c, Restart(c, s, ephemeralKey, tokensRead, deliveriesRead, now))
  {
    hide IssuedSound, TokensSound, LoadTokens, LoadDeliveries, DeliverySound;
    InvParts(c, s);
    LoadedTokens(c, s.tokensFile, s.history);
    if c.Persists() {
      LoadedDeliveries(c, s.deliveriesFile, s.history, Key(c, s.ephemeralKey), now);
    }
  }

  lemma LoadedTokens(c: Config, file: Tokens, h: History)
    requires TokensSound(c, file, h)
    ensures LoadTokens(file) == file && TokensSound(c, map[], h)
  {
    hide NormalizeToken, IssuedAs;
  }

  /** Loading is a left inverse of saving, except that expired records stay behind. */
  lemma LoadedDeliveries(c: Config, file: Deliveries, h: History, key: string, now: int)
    requires DeliveriesSound(c, key, file, h)
    ensures LoadDeliveries(file, now) == Unexpired(file, now)
    ensures DeliveriesSound(c, key, LoadDeliveries(file, now), h)
  {
    hide NormalizeDelivery, Sealed;
    forall id | id in file ensures NormalizeDelivery(file[id]) == file[id] && file[id].id == id && id != "" {
      assert DeliverySound(c, key, h, id, file[id]);
    }
  }

  lemma StepKeeps(c: Config, s: State, a: Action)
    requires c.crypto.Sound() && Inv(c, s) && Enabled(c, s, a)
    ensures Inv(c, Next(c, s, a).0)
  {
    hide Inv, Crypto.Sound, CreateToken, RevokeToken, ValidateToken, CreateDelivery, Purge, DeleteByToken, ClaimBegin, ClaimCheck, ClaimSave, ClaimReturn, Restart;
    match a
    case DoCreateToken(user, raw, id, expiresAt, saved) => CreateTokenKeeps(c, s, user, raw, id, expiresAt, saved);
    case DoRevokeToken(id, saved, now) => RevokeKeeps(c, s, id, saved, now);
    case DoDeleteByToken(id, saved) => DeleteByTokenKeeps(c, s, id, saved);
    case DoValidate(raw, pick, saved, now) => ValidateKeeps(c, s, raw, pick, saved, now);
    case DoCreateDelivery(raw, token, id, nonce, purged, saved, now) => CreateDeliveryKeeps(c, s, raw, token, id, nonce, purged, saved, now);
    case DoList(purged, now) => PurgeKeeps(c, s, now, purged);
    case DoClaimBegin(user, id, purged, now) => ClaimBeginKeeps(c, s, user, id, purged, now);
    case DoClaimCheck(now) => ClaimCheckKeeps(c, s, now);
    case DoClaimSave(saved) => ClaimSaveKeeps(c, s, saved);
    case DoClaimReturn => ClaimReturnKeeps(c, s);
    case DoRestart(key, tokensRead, deliveriesRead, now) => RestartKeeps(c, s, key, tokensRead, deliveriesRead, now);
  }

  lemma {:induction false} InvAt(r: Run, n: nat)
    requires Legal(r) && n <= |r.acts|
    ensures Inv(r.c, StateAt(r, n))
  {
    hide Inv, Enabled, Crypto.Sound, Next;
    if n == 0 {
      StartInv(r.c, r.ephemeralKey);
    } else {
      InvAt(r, n - 1);
      StepKeeps(r.c, StateAt(r, n - 1), r.acts[n - 1]);
    }
  }

  lemma StartInv(c: Config, ephemeralKey: string)
    ensures Inv(c, Start(ephemeralKey))
  {
  }
}
