/** What a key is worth, over every run: a validation told from the issued token, the
    revocations that took effect and the clock, and how late a key can be delivered. */
module TokenValidity {
  import opened Common
  import opened Text
  import opened TokenDelivery
  import opened TokenSafety

  // ---- revocations in effect ---------------------------------------------

  /** Step `j` wrote the token file. */
  ghost predicate Saves(r: Run, j: nat)
    requires j < |r.acts|
  {
    || (r.acts[j].DoCreateToken? && OutcomeAt(r, j).TokenCreated?)
    || (r.acts[j].DoRevokeToken? && OutcomeAt(r, j) == Silent)
    || (r.acts[j].DoValidate? && r.acts[j].saved && OutcomeAt(r, j).Valid?)
  }

  /** The token was revoked, and the file was written before any restart. */
  ghost predicate WrittenBy(r: Run, n: nat, id: string, i: nat, j: nat)
    requires n <= |r.acts|
  {
    i <= j < n && RevokesAt(r, i, id) && NoRestart(r, i, j) && Saves(r, j)
  }

  ghost predicate Written(r: Run, n: nat, id: string)
    requires n <= |r.acts|
  {
    exists i: nat, j: nat :: WrittenBy(r, n, id, i, j)
  }

  ghost predicate RevokedSince(r: Run, n: nat, id: string, i: nat)
    requires n <= |r.acts|
  {
    i < n && RevokesAt(r, i, id) && NoRestart(r, i, n)
  }

  /** A revocation is in effect until a restart, and for good once any save has written it. */
  ghost predicate InEffect(r: Run, n: nat, id: string)
    requires n <= |r.acts|
  {
    Written(r, n, id) || exists i: nat :: RevokedSince(r, n, id, i)
  }

  /** What a save leaves in the file. */
  lemma SaveWrites(r: Run, j: nat, n: nat)
    requires n == j + 1 <= |r.acts| && Saves(r, j)
    ensures StateAt(r, n).tokensFile == StateAt(r, n).tokens && !r.acts[j].DoRestart?
  {
    hide Trim, NewToken, Matches, Usable;
  }

  lemma {:induction false} FileKeepsRevocation(r: Run, m: nat, n: nat, id: string)
    requires Legal(r) && m <= n <= |r.acts| && id in StateAt(r, m).history.tokenIds
    requires Revoked(StateAt(r, m).tokens, id) && Revoked(StateAt(r, m).tokensFile, id)
    ensures Revoked(StateAt(r, n).tokens, id)
    ensures Revoked(StateAt(r, n).tokensFile, id) && id in StateAt(r, n).history.tokenIds
    decreases n
  {
    hide Next, Inv, Crypto.Sound, Enabled, Revoked;
    if m < n {
      FileKeepsRevocation(r, m, n - 1, id);
      InvAt(r, n - 1);
      RevokedStep(r.c, StateAt(r, n - 1), r.acts[n - 1], id);
    }
  }

  lemma InEffectIsRevoked(r: Run, n: nat, id: string)
    requires Legal(r) && n <= |r.acts| && InEffect(r, n, id)
    ensures Revoked(StateAt(r, n).tokens, id)
  {
    hide StateAt, Inv, Crypto.Sound, RevokesAt, NoRestart, Saves, Revoked, Enabled;
    if i: nat :| RevokedSince(r, n, id, i) {
      RevokedUntilRestart(r, i, n, id);
    } else {
      var i: nat, j: nat :| WrittenBy(r, n, id, i, j);
      SaveWrites(r, j, j + 1);
      StillNoRestart(r, i, j);
      RevokedUntilRestart(r, i, j + 1, id);
      FileKeepsRevocation(r, j + 1, n, id);
    }
  }

  lemma StillNoRestart(r: Run, i: nat, j: nat)
    requires j < |r.acts| && NoRestart(r, i, j) && !r.acts[j].DoRestart?
    ensures NoRestart(r, i, j + 1)
  {
  }

  // ---- and no others -----------------------------------------------------

  /** How a step can leave a token revoked, in memory and in the file. */
  lemma RevocationComes(c: Config, s: State, a: Action, id: string)
    requires Inv(c, s)
    ensures var s' := Next(c, s, a).0;
            id in s'.tokens && s'.tokens[id].revokedAt.Some? ==>
              || (!a.DoRestart? && id in s.tokens && s.tokens[id].revokedAt.Some?)
              || (a.DoRevokeToken? && Trim(a.id) == id && id in s.tokens)
              || (a.DoRestart? && id in s.tokensFile && s.tokensFile[id].revokedAt.Some?)
    ensures var s' := Next(c, s, a).0;
            s'.tokensFile == s.tokensFile || s'.tokensFile == s'.tokens
  {
    hide Inv, Next, Trim, TokensSound, IssuedSound, DeliveriesSound, ClaimSound, Key;
    if !TouchesTokens(a) {
      TokensUntouched(c, s, a);
    } else if a.DoRestart? {
      RestartTokens(c, s, a);
    } else {
      RevocationComesFromTokens(c, s, a, id);
    }
  }

  lemma RevocationComesFromTokens(c: Config, s: State, a: Action, id: string)
    requires a.DoCreateToken? || a.DoRevokeToken? || a.DoValidate?
    ensures var s' := Next(c, s, a).0;
            && (s'.tokensFile == s.tokensFile || s'.tokensFile == s'.tokens)
            && (id in s'.tokens && s'.tokens[id].revokedAt.Some? ==>
                  || (id in s.tokens && s.tokens[id].revokedAt.Some?)
                  || (a.DoRevokeToken? && Trim(a.id) == id && id in s.tokens))
  {
    hide Trim, Matches, Usable;
  }

  /** A step that changes the file is a save. */
  lemma ChangedFileIsSaved(r: Run, j: nat)
    requires j < |r.acts| && StateAt(r, j + 1).tokensFile != StateAt(r, j).tokensFile
    ensures Saves(r, j)
  {
    hide StateAt, Next;
    var s, a := StateAt(r, j), r.acts[j];
    NextState(r, j);
    ChangedFile(r.c, s, a);
  }

  lemma NextState(r: Run, j: nat)
    requires j < |r.acts|
    ensures StateAt(r, j + 1) == Next(r.c, StateAt(r, j), r.acts[j]).0
  {
  }

  lemma ChangedFile(c: Config, s: State, a: Action)
    requires Next(c, s, a).0.tokensFile != s.tokensFile
    ensures var o := Next(c, s, a).1;
            || (a.DoCreateToken? && o.TokenCreated?) || (a.DoRevokeToken? && o == Silent)
            || (a.DoValidate? && a.saved && o.Valid?)
  {
    hide Next;
    if TouchesTokens(a) {
      ChangedByTokens(c, s, a);
    } else {
      TokensUntouched(c, s, a);
    }
  }

  lemma ChangedByTokens(c: Config, s: State, a: Action)
    requires TouchesTokens(a) && Next(c, s, a).0.tokensFile != s.tokensFile
    ensures var o := Next(c, s, a).1;
            || (a.DoCreateToken? && o.TokenCreated?) || (a.DoRevokeToken? && o == Silent)
            || (a.DoValidate? && a.saved && o.Valid?)
  {
    hide Trim, Matches, Usable, LoadTokens, LoadDeliveries;
  }

  predicate MarkedIn(ts: Tokens, id: string) {
    id in ts && ts[id].revokedAt.Some?
  }

  lemma {:induction false} MarkedIsInEffect(r: Run, n: nat, id: string)
    requires Legal(r) && n <= |r.acts|
    ensures MarkedIn(StateAt(r, n).tokens, id) ==> InEffect(r, n, id)
    ensures MarkedIn(StateAt(r, n).tokensFile, id) ==> Written(r, n, id)
    decreases n
  {
    hide StateAt, Inv, Crypto.Sound, Enabled, RevokesAt, InEffect, Written, Next, Saves;
    if n == 0 {
      NothingMarked(r, id);
    } else {
      var m := n - 1;
      MarkedIsInEffect(r, m, id);
      InvAt(r, m);
      NextState(r, m);
      RevocationComes(r.c, StateAt(r, m), r.acts[m], id);
      if MarkedIn(StateAt(r, n).tokens, id) {
        MarkedNow(r, m, id);
      }
      if MarkedIn(StateAt(r, n).tokensFile, id) {
        if StateAt(r, n).tokensFile == StateAt(r, m).tokensFile {
          WrittenStays(r, m, id);
        } else {
          ChangedFileIsSaved(r, m);
          WrittenNow(r, m, n, id);
        }
      }
    }
  }

  lemma NothingMarked(r: Run, id: string)
    ensures !MarkedIn(StateAt(r, 0).tokens, id) && !MarkedIn(StateAt(r, 0).tokensFile, id)
  {
  }

  lemma WrittenStays(r: Run, m: nat, id: string)
    requires m < |r.acts| && Written(r, m, id)
    ensures Written(r, m + 1, id)
  {
    hide RevokesAt, Saves, NoRestart;
    var i: nat, j: nat :| WrittenBy(r, m, id, i, j);
    assert WrittenBy(r, m + 1, id, i, j);
  }

  /** A mark in memory after step `m` was there before, or is made now, or was in the file. */
  lemma MarkedNow(r: Run, m: nat, id: string)
    requires Legal(r) && m < |r.acts|
    requires MarkedIn(StateAt(r, m).tokens, id) ==> InEffect(r, m, id)
    requires MarkedIn(StateAt(r, m).tokensFile, id) ==> Written(r, m, id)
    requires var s, a := StateAt(r, m), r.acts[m];
             || (!a.DoRestart? && MarkedIn(s.tokens, id)) || (a.DoRevokeToken? && Trim(a.id) == id && id in s.tokens)
             || (a.DoRestart? && MarkedIn(s.tokensFile, id))
    ensures InEffect(r, m + 1, id)
  {
    hide StateAt, Trim, Saves, MarkedIn, Written, Crypto.Sound, Enabled;
    var s, a := StateAt(r, m), r.acts[m];
    if a.DoRevokeToken? && Trim(a.id) == id && id in s.tokens {
      assert RevokedSince(r, m + 1, id, m);
    } else if a.DoRestart? || Written(r, m, id) {
      WrittenStays(r, m, id);
    } else {
      var i: nat :| RevokedSince(r, m, id, i);
      assert RevokedSince(r, m + 1, id, i);
    }
  }

  /** A save writes down every revocation that is in effect. */
  lemma WrittenNow(r: Run, m: nat, n: nat, id: string)
    requires n == m + 1 <= |r.acts| && Saves(r, m) && InEffect(r, n, id)
    ensures Written(r, n, id)
  {
    hide StateAt, Saves, RevokesAt;
    SaveWrites(r, m, n);
    if i: nat :| RevokedSince(r, n, id, i) {
      assert WrittenBy(r, n, id, i, m);
    }
  }

  // ---- validation --------------------------------------------------------

  predicate InTime(t: Token, now: int) {
    t.expiresAt.None? || now <= t.expiresAt.value
  }

  /** The stored record of an issued token is that token, but for the mark of a revocation. */
  lemma StoredAsIssued(c: Config, s: State, key: string, t: Token)
    requires Inv(c, s) && (key, t) in s.history.issued && t.id in s.tokens
    ensures s.tokens[t.id].(revokedAt := None) == t
  {
    hide DeliveriesSound, ClaimSound, NormalizeToken, Key;
    assert IssuedAs(s.history, s.tokens[t.id].(revokedAt := None));
    var raw :| (raw, s.tokens[t.id].(revokedAt := None)) in s.history.issued;
    assert (raw, s.tokens[t.id].(revokedAt := None)).1.id == (key, t).1.id;
  }

  /** Only the issued token's own record has its hash. */
  lemma HashIsOwn(c: Config, s: State, key: string, t: Token, id: string)
    requires Inv(c, s) && (key, t) in s.history.issued && id in s.tokens && s.tokens[id].hash == t.hash
    ensures id == t.id
  {
    hide DeliveriesSound, ClaimSound, NormalizeToken, Key;
    assert IssuedAs(s.history, s.tokens[id].(revokedAt := None));
    var raw :| (raw, s.tokens[id].(revokedAt := None)) in s.history.issued;
    assert (raw, s.tokens[id].(revokedAt := None)).1.hash == (key, t).1.hash;
  }

  lemma IssuedHash(c: Config, s: State, key: string, t: Token)
    requires Inv(c, s) && (key, t) in s.history.issued
    ensures t.hash == c.crypto.hash(key)
  {
    hide DeliveriesSound, ClaimSound, NormalizeToken, TokensSound, Key;
    assert (key, t).1.hash == c.crypto.hash((key, t).0);
  }

  lemma ValidateAnswers(c: Config, s: State, a: Action, key: string, t: Token)
    requires Inv(c, s) && Enabled(c, s, a) && a.DoValidate? && (key, t) in s.history.issued && Trim(a.raw) == key
    ensures Next(c, s, a).1 == if t.id in s.tokens && s.tokens[t.id].revokedAt.None? && InTime(t, a.now) then Valid(t) else Invalid
  {
    hide Inv, Trim;
    IssuedHash(c, s, key, t);
    if t.id in s.tokens {
      StoredAsIssued(c, s, key, t);
      assert Matches(c, s, a.raw, t.id);
    }
    if Matches(c, s, a.raw, a.pick) {
      HashIsOwn(c, s, key, t, a.pick);
    }
  }

  /** WHEN A KEY IS VALID. In every run, validating the key of an issued token answers with
      that token if and only if the token is in the store, no revocation of it is in effect
      and it has not expired. */
  lemma ValidExactlyWhen(r: Run, n: nat, key: string, t: Token)
    requires Legal(r) && n < |r.acts| && r.acts[n].DoValidate?
    requires (key, t) in StateAt(r, n).history.issued && Trim(r.acts[n].raw) == key
    ensures OutcomeAt(r, n)
         == if t.id in StateAt(r, n).tokens && !InEffect(r, n, t.id) && (t.expiresAt.None? || r.acts[n].now <= t.expiresAt.value)
            then Valid(t) else Invalid
  {
    hide StateAt, Inv, Enabled, Next, Crypto.Sound, InEffect, Trim;
    InvAt(r, n);
    ValidateAnswers(r.c, StateAt(r, n), r.acts[n], key, t);
    MarkedIsInEffect(r, n, t.id);
    if InEffect(r, n, t.id) {
      InEffectIsRevoked(r, n, t.id);
    }
  }

  /** A key with the hash of no issued token is refused. */
  lemma UnissuedIsInvalid(r: Run, n: nat)
    requires Legal(r) && n < |r.acts| && r.acts[n].DoValidate?
    requires forall p :: p in StateAt(r, n).history.issued ==> p.1.hash != r.c.crypto.hash(Trim(r.acts[n].raw))
    ensures OutcomeAt(r, n) == Invalid
  {
    hide StateAt, Inv, Enabled, Crypto.Sound, Trim;
    InvAt(r, n);
    var s := StateAt(r, n);
    InvParts(r.c, s);
    if r.acts[n].pick in s.tokens {
      assert IssuedAs(s.history, s.tokens[r.acts[n].pick].(revokedAt := None));
    }
  }

  // ---- delivery ----------------------------------------------------------

  lemma {:induction false} IssuedStays(r: Run, i: nat, n: nat)
    requires i <= n <= |r.acts|
    ensures StateAt(r, i).history.issued <= StateAt(r, n).history.issued
    decreases n
  {
    hide Next;
    if i < n {
      IssuedStays(r, i, n - 1);
      IssuedGrows(r.c, StateAt(r, n - 1), r.acts[n - 1]);
    }
  }

  lemma IssuedGrows(c: Config, s: State, a: Action)
    ensures s.history.issued <= Next(c, s, a).0.history.issued
    ensures !a.DoCreateToken? ==> Next(c, s, a).0.history.issued == s.history.issued
  {
    hide Purge, CreateDelivery, ClaimBegin, ClaimSave, DeleteByToken, NewToken, RevokeToken, ValidateToken, Restart, Trim;
    match a
    case DoCreateDelivery(raw, t, id, nonce, purged, saved, now) => CreateDeliveryIssuesNone(c, s, raw, t, id, nonce, purged, saved, now);
    case DoList(purged, now) => PurgeFrame(c, s, now, purged);
    case DoClaimBegin(user, id, purged, now) => ClaimBeginFrame(c, s, user, id, purged, now);
    case DoDeleteByToken(rawId, saved) => DeleteByTokenFrame(c, s, rawId, saved);
    case DoClaimSave(saved) =>
      if s.claim.Active? || s.claim.Inactive? {
        ClaimSaveFrame(c, s, saved);
      }
    case DoRevokeToken(id, saved, now) => RevokeFrame(s, id, saved, now);
    case DoValidate(raw, pick, saved, now) => ValidateFrame(c, s, raw, pick, saved, now);
    case DoRestart(key, tokensRead, deliveriesRead, now) => RestartFrame(c, s, key, tokensRead, deliveriesRead, now);
    case _ =>
  }

  lemma CreateDeliveryIssuesNone(c: Config, s: State, raw: string, t: Token, id: string, nonce: string, purged: bool, saved: bool, now: int)
    ensures CreateDelivery(c, s, raw, t, id, nonce, purged, saved, now).0.history.issued == s.history.issued
  {
    hide Purge, NormalizeDelivery, Key;
    var d := NormalizeDelivery(Delivery(id, t.id, t.user, Some(now + DELIVERY_TTL), nonce,
                                        c.crypto.seal(raw, Key(c, s.ephemeralKey), nonce)));
    PurgeFrame(c, s.(history := s.history.(deliveryIds := s.history.deliveryIds + {d.id})), now, purged);
  }

  /** WHEN A KEY IS DELIVERED. A delivered key is the key of an issued token of that user,
      and at the check the token had not expired and no revocation of it was in effect. */
  lemma DeliveredInTime(r: Run, n: nat) returns (j: nat, t: Token)
    requires Legal(r) && n < |r.acts| && OutcomeAt(r, n).Delivered?
    ensures (OutcomeAt(r, n).raw, t) in StateAt(r, n).history.issued && t.user == OutcomeAt(r, n).user
    ensures j < n && r.acts[j].DoClaimCheck? && NoRestart(r, j, n)
    ensures t.id in StateAt(r, j).tokens && !InEffect(r, j, t.id) && (t.expiresAt.None? || r.acts[j].now <= t.expiresAt.value)
  {
    hide StateAt, Inv, Enabled, Next, Crypto.Sound, InEffect;
    DeliveredIsClaimed(r, n);
    j := ClaimWasChecked(r, n);
    InvAt(r, n);
    t := ClaimedToken(r.c, StateAt(r, n));
    InvAt(r, j);
    IssuedStays(r, j, n);
    CheckedAsIssued(r, n, j, t);
    if InEffect(r, j, t.id) {
      InEffectIsRevoked(r, j, t.id);
    }
  }

  lemma DeliveredIsClaimed(r: Run, n: nat)
    requires n < |r.acts| && OutcomeAt(r, n).Delivered?
    ensures StateAt(r, n).claim.Saved? && OutcomeAt(r, n).raw == StateAt(r, n).claim.raw
    ensures OutcomeAt(r, n).user == StateAt(r, n).claim.delivery.user && OutcomeAt(r, n).id == StateAt(r, n).claim.delivery.id
  {
    hide StateAt, Next;
    DeliveredGrows(r.c, StateAt(r, n), r.acts[n]);
  }

  lemma ClaimedToken(c: Config, s: State) returns (t: Token)
    requires Inv(c, s) && s.claim.Saved?
    ensures (s.claim.raw, t) in s.history.issued && t.id == s.claim.delivery.tokenId && t.user == s.claim.delivery.user
  {
    hide DeliveriesSound, TokensSound, IssuedSound, Key;
    t :| (s.claim.raw, t) in s.history.issued && s.claim.delivery.tokenId == t.id && s.claim.delivery.user == t.user;
  }

  lemma CheckedAsIssued(r: Run, n: nat, j: nat, t: Token)
    requires n < |r.acts| && StateAt(r, n).claim.Saved? && CheckedAt(r, n, StateAt(r, n).claim.delivery, j)
    requires Inv(r.c, StateAt(r, j)) && Inv(r.c, StateAt(r, n))
    requires StateAt(r, j).history.issued <= StateAt(r, n).history.issued
    requires (StateAt(r, n).claim.raw, t) in StateAt(r, n).history.issued && t.id == StateAt(r, n).claim.delivery.tokenId
    ensures t.id in StateAt(r, j).tokens && StateAt(r, j).tokens[t.id].revokedAt.None?
    ensures t.expiresAt.None? || r.acts[j].now <= t.expiresAt.value
  {
    hide StateAt, DeliveriesSound, ClaimSound, NormalizeToken, Key;
    var stored := StateAt(r, j).tokens[t.id].(revokedAt := None);
    assert IssuedAs(StateAt(r, j).history, stored);
    var raw :| (raw, stored) in StateAt(r, j).history.issued;
    assert (raw, stored) in StateAt(r, n).history.issued && (raw, stored).1.id == (StateAt(r, n).claim.raw, t).1.id;
  }

  // ---- the age of a delivery ---------------------------------------------

  /** Step `i` made this delivery, to last for a day. */
  ghost predicate MadeAt(r: Run, n: nat, d: Delivery, i: nat)
    requires n <= |r.acts|
  {
    i < n && r.acts[i].DoCreateDelivery? && r.acts[i].id == d.id && d.expiresAt == Some(r.acts[i].now + 24 * 60 * MINUTE)
  }

  ghost predicate Made(r: Run, n: nat, d: Delivery)
    requires n <= |r.acts|
  {
    exists i: nat :: MadeAt(r, n, d, i)
  }

  predicate Makes(a: Action, d: Delivery) {
    a.DoCreateDelivery? && a.id == d.id && d.expiresAt == Some(a.now + 24 * 60 * MINUTE)
  }

  /** The deliveries in memory and in the file. */
  predicate Holds(s: State, d: Delivery) {
    (d.id in s.deliveries && s.deliveries[d.id] == d) || (d.id in s.deliveriesFile && s.deliveriesFile[d.id] == d)
  }

  lemma SaveHolds(c: Config, s: State, ok: bool, d: Delivery)
    ensures Holds(SaveDeliveries(c, s, ok).0, d) ==> Holds(s, d)
  {
  }

  lemma PurgeHolds(c: Config, s: State, now: int, ok: bool, d: Delivery)
    ensures Holds(Purge(c, s, now, ok), d) ==> Holds(s, d)
  {
    hide Expired;
  }

  lemma DeleteHolds(c: Config, s: State, rawId: string, ok: bool, d: Delivery)
    ensures Holds(DeleteByToken(c, s, rawId, ok), d) ==> Holds(s, d)
  {
    hide Trim;
  }

  lemma ClaimSaveHolds(c: Config, s: State, ok: bool, d: Delivery)
    requires s.claim.Active? || s.claim.Inactive?
    ensures Holds(ClaimSave(c, s, ok).0, d) ==> Holds(s, d)
  {
    hide Key, SaveDeliveries;
    SaveHolds(c, s.(deliveries := s.deliveries - {s.claim.delivery.id}, claim := Idle), ok, d);
  }

  lemma CreateHolds(c: Config, s: State, a: Action, d: Delivery)
    requires a.DoCreateDelivery? && Trim(a.id) == a.id && Holds(Next(c, s, a).0, d)
    ensures Holds(s, d) || Makes(a, d)
  {
    hide Trim, Key, Purge, SaveDeliveries;
    var made := NormalizeDelivery(Delivery(a.id, a.token.id, a.token.user, Some(a.now + DELIVERY_TTL), a.nonce,
                                           c.crypto.seal(a.raw, Key(c, s.ephemeralKey), a.nonce)));
    var s1 := s.(history := s.history.(deliveryIds := s.history.deliveryIds + {made.id}));
    var purged := Purge(c, s1, a.now, a.purged);
    PurgeHolds(c, s1, a.now, a.purged, d);
    InsertHolds(c, purged, made, a.saved, d);
  }

  lemma InsertHolds(c: Config, s: State, made: Delivery, ok: bool, d: Delivery)
    ensures var (s', saved) := SaveDeliveries(c, s.(deliveries := s.deliveries[made.id := made]), ok);
            && (saved && Holds(s', d) ==> d == made || Holds(s, d))
            && (!saved && Holds(s.(deliveries := s'.deliveries - {made.id}), d) ==> Holds(s, d))
  {
  }

  lemma RestartHolds(c: Config, s: State, a: Action, d: Delivery)
    requires Inv(c, s) && a.DoRestart? && Holds(Next(c, s, a).0, d)
    ensures Holds(s, d)
  {
    hide Inv, LoadTokens, LoadDeliveries, DeliveriesSound, TokensSound, IssuedSound, ClaimSound, Key;
    InvParts(c, s);
    if c.Persists() {
      LoadedDeliveries(c, s.deliveriesFile, s.history, Key(c, s.ephemeralKey), a.now);
    }
  }

  lemma StepHolds(c: Config, s: State, a: Action, d: Delivery)
    requires Inv(c, s) && Enabled(c, s, a) && Holds(Next(c, s, a).0, d)
    ensures Holds(s, d) || Makes(a, d)
  {
    hide Inv, Holds, Makes, CreateDelivery, ClaimBegin, ClaimSave, DeleteByToken, CreateToken, RevokeToken, ValidateToken, Restart, Purge, Trim, Trimmed;
    match a
    case DoCreateDelivery(_, _, id, _, _, _, _) =>
      TrimTrimmed(id);
      CreateHolds(c, s, a, d);
    case DoRestart(_, _, _, _) => RestartHolds(c, s, a, d);
    case DoList(purged, now) => PurgeHolds(c, s, now, purged, d);
    case DoDeleteByToken(rawId, saved) => DeleteHolds(c, s, rawId, saved, d);
    case DoClaimBegin(user, id, purged, now) => BeginHolds(c, s, user, id, purged, now, d);
    case DoClaimSave(saved) => ClaimSaveHolds(c, s, saved, d);
    case _ => SameDeliveries(c, s, a, d);
  }

  lemma BeginHolds(c: Config, s: State, user: string, id: string, purged: bool, now: int, d: Delivery)
    ensures Holds(ClaimBegin(c, s, user, id, purged, now).0, d) ==> Holds(s, d)
  {
    hide Purge, Trim;
    PurgeHolds(c, s, now, purged, d);
  }

  lemma SameDeliveries(c: Config, s: State, a: Action, d: Delivery)
    requires a.DoCreateToken? || a.DoRevokeToken? || a.DoValidate? || a.DoClaimCheck? || a.DoClaimReturn?
    ensures Holds(Next(c, s, a).0, d) ==> Holds(s, d)
  {
    hide Trim, NewToken, Matches, Usable;
  }

  lemma MadeLater(r: Run, n: nat, d: Delivery)
    requires n < |r.acts| && Made(r, n, d)
    ensures Made(r, n + 1, d)
  {
    var i :| MadeAt(r, n, d, i);
    assert MadeAt(r, n + 1, d, i);
  }

  lemma {:induction false} HeldWasMade(r: Run, n: nat, d: Delivery)
    requires Legal(r) && n <= |r.acts| && Holds(StateAt(r, n), d)
    ensures Made(r, n, d)
    decreases n
  {
    hide StateAt, Inv, Enabled, Next, Crypto.Sound, Holds, Made;
    NothingHeld(r, d);
    var m := n - 1;
    InvAt(r, m);
    NextState(r, m);
    StepHolds(r.c, StateAt(r, m), r.acts[m], d);
    if Holds(StateAt(r, m), d) {
      HeldWasMade(r, m, d);
      MadeLater(r, m, d);
    } else {
      JustMade(r, m, d);
    }
  }

  lemma NothingHeld(r: Run, d: Delivery)
    ensures !Holds(StateAt(r, 0), d)
  {
  }

  lemma JustMade(r: Run, m: nat, d: Delivery)
    requires m < |r.acts| && Makes(r.acts[m], d)
    ensures Made(r, m + 1, d)
  {
    assert MadeAt(r, m + 1, d, m);
  }

  /** Step `b` looked this delivery up, and it had not expired. */
  ghost predicate BegunAt(r: Run, n: nat, d: Delivery, b: nat)
    requires n <= |r.acts|
  {
    && b < n && r.acts[b].DoClaimBegin? && Holds(StateAt(r, b), d)
    && d.expiresAt.Some? && r.acts[b].now <= d.expiresAt.value
  }

  predicate Claims(s: State, d: Delivery) {
    !s.claim.Idle? && s.claim.delivery == d
  }

  lemma ClaimComes(c: Config, s: State, a: Action, d: Delivery)
    requires Inv(c, s) && Enabled(c, s, a) && Claims(Next(c, s, a).0, d)
    ensures Claims(s, d) || (a.DoClaimBegin? && Holds(s, d) && d.expiresAt.Some? && a.now <= d.expiresAt.value)
  {
    hide Inv, CreateDelivery, ClaimBegin, ClaimSave, DeleteByToken, CreateToken, RevokeToken, ValidateToken, Purge, LoadTokens, LoadDeliveries,
         Trim, Holds, Trimmed, Matches;
    if !TouchesClaim(a) {
      ClaimUntouched(c, s, a);
    } else if a.DoClaimBegin? {
      BeginFinds(c, s, a, d);
    } else if a.DoClaimSave? {
      ClaimSaveFrame(c, s, a.saved);
    }
  }

  lemma BeginFinds(c: Config, s: State, a: Action, d: Delivery)
    requires Inv(c, s) && a.DoClaimBegin? && s.claim.Idle? && Claims(Next(c, s, a).0, d)
    ensures Holds(s, d) && d.expiresAt.Some? && a.now <= d.expiresAt.value
  {
    hide Inv, Purge, Trim, Unexpired;
    PurgeKeeps(c, s, a.now, a.purged);
    var p := Purge(c, s, a.now, a.purged);
    KeyIsId(c, p, Trim(a.id));
    UnexpiredHolds(s, a.now, Trim(a.id));
  }

  lemma UnexpiredHolds(s: State, now: int, id: string)
    ensures id in Unexpired(s.deliveries, now) ==>
              id in s.deliveries && Unexpired(s.deliveries, now)[id] == s.deliveries[id]
              && s.deliveries[id].expiresAt.Some? && now <= s.deliveries[id].expiresAt.value
  {
  }

  lemma {:induction false} ClaimWasBegun(r: Run, n: nat, d: Delivery) returns (b: nat)
    requires Legal(r) && n <= |r.acts| && Claims(StateAt(r, n), d)
    ensures BegunAt(r, n, d, b)
    decreases n
  {
    hide StateAt, Inv, Enabled, Next, Crypto.Sound, Holds, Claims;
    NothingClaimed(r, d);
    var m := n - 1;
    InvAt(r, m);
    NextState(r, m);
    ClaimComes(r.c, StateAt(r, m), r.acts[m], d);
    if Claims(StateAt(r, m), d) {
      b := ClaimWasBegun(r, m, d);
    } else {
      b := m;
    }
  }

  lemma NothingClaimed(r: Run, d: Delivery)
    ensures !Claims(StateAt(r, 0), d)
  {
  }

  /** A DAY AT MOST. A delivered key was looked up at most twenty-four hours after its
      delivery was made, whatever crashed and whatever was read back in between. */
  lemma DeliveredWithinADay(r: Run, n: nat) returns (i: nat, b: nat)
    requires Legal(r) && n < |r.acts| && OutcomeAt(r, n).Delivered?
    ensures i < b < n && r.acts[i].DoCreateDelivery? && r.acts[i].id == OutcomeAt(r, n).id
    ensures r.acts[b].DoClaimBegin? && r.acts[b].now <= r.acts[i].now + 24 * 60 * MINUTE
  {
    hide StateAt, Inv, Enabled, Next, Crypto.Sound, Holds;
    DeliveredIsClaimed(r, n);
    var d := StateAt(r, n).claim.delivery;
    b := ClaimWasBegun(r, n, d);
    HeldWasMade(r, b, d);
    i :| MadeAt(r, b, d, i);
  }
}
