/** Safety of API tokens and key delivery over every run: one delivery hands out
    its key at most once, a revocation is final, and a claimed key belongs to
    the user who claims it. */
module TokenSafety {
  import opened Common
  import opened Text
  import opened TokenDelivery

  // ---- at most once ------------------------------------------------------

  /** Steps of the delivery store leave the token store, and what was delivered, alone. */
  lemma CreateDeliveryFrame(c: Config, s: State, raw: string, t: Token, id: string, nonce: string, purged: bool, saved: bool, now: int)
    ensures var (s', o) := CreateDelivery(c, s, raw, t, id, nonce, purged, saved, now);
            && s'.tokens == s.tokens && s'.tokensFile == s.tokensFile && s'.claim == s.claim
            && s'.history.delivered == s.history.delivered && s'.history.tokenIds == s.history.tokenIds
            && !o.Delivered?
  {
    hide Purge, NormalizeDelivery, Key;
    var d := NormalizeDelivery(Delivery(id, t.id, t.user, Some(now + DELIVERY_TTL), nonce,
                                        c.crypto.seal(raw, Key(c, s.ephemeralKey), nonce)));
    PurgeFrame(c, s.(history := s.history.(deliveryIds := s.history.deliveryIds + {d.id})), now, purged);
  }

  lemma ClaimBeginFrame(c: Config, s: State, user: string, id: string, purged: bool, now: int)
    ensures var (s', o) := ClaimBegin(c, s, user, id, purged, now);
            && s'.tokens == s.tokens && s'.tokensFile == s.tokensFile && s'.history == s.history
            && (s'.claim == s.claim || s'.claim.Found?) && !o.Delivered?
  {
    hide Purge, Trim;
    PurgeFrame(c, s, now, purged);
  }

  lemma DeleteByTokenFrame(c: Config, s: State, rawId: string, ok: bool)
    ensures var s' := DeleteByToken(c, s, rawId, ok);
            s'.tokens == s.tokens && s'.tokensFile == s.tokensFile && s'.history == s.history && s'.claim == s.claim
  {
    hide WithoutToken, Trim;
  }

  lemma SaveFrame(c: Config, s: State, ok: bool)
    ensures var s' := SaveDeliveries(c, s, ok).0;
            s'.tokens == s.tokens && s'.tokensFile == s.tokensFile && s'.history == s.history && s'.claim == s.claim
  {
  }

  lemma ClaimSaveFrame(c: Config, s: State, ok: bool)
    requires s.claim.Active? || s.claim.Inactive?
    ensures !ClaimSave(c, s, ok).1.Delivered?
    ensures var s' := ClaimSave(c, s, ok).0;
            s'.tokens == s.tokens && s'.tokensFile == s.tokensFile && s'.history == s.history
            && (s'.claim.Idle? || (s'.claim.Saved? && s.claim == Active(s'.claim.delivery)))
  {
    hide Key, SaveDeliveries;
    SaveFrame(c, s.(deliveries := s.deliveries - {s.claim.delivery.id}, claim := Idle), ok);
  }

  lemma DeliveredGrows(c: Config, s: State, a: Action)
    ensures s.history.delivered <= Next(c, s, a).0.history.delivered
    ensures var (s', o) := Next(c, s, a);
            o.Delivered? ==>
              && s.claim.Saved? && o == Delivered(s.claim.delivery.id, s.claim.raw, s.claim.delivery.user)
              && o.id in s'.history.delivered
  {
    hide Purge, CreateDelivery, ClaimBegin, ClaimSave, DeleteByToken, NewToken, RevokeToken, ValidateToken, Restart;
    match a
    case DoCreateDelivery(raw, t, id, nonce, purged, saved, now) => CreateDeliveryFrame(c, s, raw, t, id, nonce, purged, saved, now);
    case DoList(purged, now) => PurgeFrame(c, s, now, purged);
    case DoClaimBegin(user, id, purged, now) => ClaimBeginFrame(c, s, user, id, purged, now);
    case DoDeleteByToken(rawId, saved) => DeleteByTokenFrame(c, s, rawId, saved);
    case DoClaimSave(saved) =>
      if s.claim.Active? || s.claim.Inactive? {
        ClaimSaveFrame(c, s, saved);
      }
    case DoRevokeToken(id, saved, now) => RevokeFrame(s, id, saved, now);
    case DoValidate(raw, pick, saved, now) => ValidateFrame(c, s, raw, pick, saved, now);
    case DoRestart(key, tokensRead, deliveriesRead, now) => RestartFrame(c, s, key, tokensRead, deliveriesRead, now);
    case _ =>
  }

  lemma RevokeFrame(s: State, rawId: string, saved: bool, now: int)
    ensures var (s', o) := RevokeToken(s, rawId, saved, now);
            s'.history == s.history && s'.claim == s.claim && !o.Delivered?
  {
    hide Trim;
  }

  lemma ValidateFrame(c: Config, s: State, raw: string, pick: string, saved: bool, now: int)
    ensures var (s', o) := ValidateToken(c, s, raw, pick, saved, now);
            s'.history == s.history && s'.claim == s.claim && !o.Delivered?
  {
    hide Matches, Usable;
  }

  lemma RestartFrame(c: Config, s: State, key: string, tokensRead: bool, deliveriesRead: bool, now: int)
    ensures Restart(c, s, key, tokensRead, deliveriesRead, now).history == s.history
  {
    hide LoadTokens, LoadDeliveries;
  }

  lemma {:induction false} DeliveredStays(r: Run, i: nat, j: nat)
    requires i <= j <= |r.acts|
    ensures StateAt(r, i).history.delivered <= StateAt(r, j).history.delivered
    decreases j
  {
    hide Next;
    if i < j {
      DeliveredStays(r, i, j - 1);
      DeliveredGrows(r.c, StateAt(r, j - 1), r.acts[j - 1]);
    }
  }

  /** AT MOST ONCE. In any run, with crashes anywhere and writes that may fail,
      no delivery returns its key twice. */
  lemma AtMostOnce(r: Run, i: nat, j: nat)
    requires Legal(r) && i < j < |r.acts|
    requires OutcomeAt(r, i).Delivered? && OutcomeAt(r, j).Delivered?
    ensures OutcomeAt(r, i).id != OutcomeAt(r, j).id
  {
    hide Next, Crypto.Sound, Inv, Enabled;
    DeliveredGrows(r.c, StateAt(r, i), r.acts[i]);
    DeliveredStays(r, i + 1, j);
    DeliveredGrows(r.c, StateAt(r, j), r.acts[j]);
    InvAt(r, j);
    SavedIsUndelivered(r.c, StateAt(r, j));
  }

  lemma SavedIsUndelivered(c: Config, s: State)
    requires Inv(c, s) && s.claim.Saved?
    ensures s.claim.delivery.id !in s.history.delivered
  {
    hide IssuedSound, TokensSound, DeliveriesSound, Key, Opened;
  }

  // ---- revocation --------------------------------------------------------

  ghost predicate Revoked(ts: Tokens, id: string) {
    id in ts ==> ts[id].revokedAt.Some?
  }

  predicate TouchesTokens(a: Action) {
    a.DoCreateToken? || a.DoRevokeToken? || a.DoValidate? || a.DoRestart?
  }

  lemma TokensUntouched(c: Config, s: State, a: Action)
    requires !TouchesTokens(a)
    ensures var s' := Next(c, s, a).0;
            s'.tokens == s.tokens && s'.tokensFile == s.tokensFile && s'.history.tokenIds == s.history.tokenIds
  {
    hide Purge, CreateDelivery, ClaimBegin, ClaimSave, DeleteByToken, Restart, CreateToken, RevokeToken, ValidateToken;
    match a
    case DoDeleteByToken(rawId, saved) => DeleteByTokenFrame(c, s, rawId, saved);
    case DoCreateDelivery(raw, t, newId, nonce, purged, saved, now) => CreateDeliveryFrame(c, s, raw, t, newId, nonce, purged, saved, now);
    case DoList(purged, now) => PurgeFrame(c, s, now, purged);
    case DoClaimBegin(user, newId, purged, now) => ClaimBeginFrame(c, s, user, newId, purged, now);
    case DoClaimSave(saved) =>
      if s.claim.Active? || s.claim.Inactive? {
        ClaimSaveFrame(c, s, saved);
      }
    case _ =>
  }

  /** A revoked token stays revoked in memory until a restart, and for good once
      the file says so too. */
  lemma RevokedStep(c: Config, s: State, a: Action, id: string)
    requires Inv(c, s) && Enabled(c, s, a) && id in s.history.tokenIds && Revoked(s.tokens, id)
    requires c.crypto.Sound()
    ensures id in Next(c, s, a).0.history.tokenIds
    ensures !a.DoRestart? ==> Revoked(Next(c, s, a).0.tokens, id)
    ensures Revoked(s.tokensFile, id) ==> Revoked(Next(c, s, a).0.tokens, id) && Revoked(Next(c, s, a).0.tokensFile, id)
  {
    hide Inv, Enabled, Next, Revoked, Crypto.Sound;
    if !TouchesTokens(a) {
      TokensUntouched(c, s, a);
    } else if a.DoRestart? {
      RestartTokens(c, s, a);
      NoneIsRevoked(id);
    } else {
      RevokedTokenStep(c, s, a, id);
    }
  }

  lemma RestartTokens(c: Config, s: State, a: Action)
    requires Inv(c, s) && a.DoRestart?
    ensures var s' := Next(c, s, a).0;
            s'.tokensFile == s.tokensFile && s'.history == s.history && (s'.tokens == s.tokensFile || s'.tokens == map[])
  {
    hide Inv, LoadTokens, LoadDeliveries, TokensSound, IssuedSound, DeliveriesSound, ClaimSound, Key;
    InvParts(c, s);
    LoadedTokens(c, s.tokensFile, s.history);
  }

  lemma NoneIsRevoked(id: string)
    ensures Revoked(map[], id)
  {
  }

  /** The steps that change tokens. */
  lemma RevokedTokenStep(c: Config, s: State, a: Action, id: string)
    requires c.crypto.Sound() && (a.DoCreateToken? || a.DoRevokeToken? || a.DoValidate?)
    requires Enabled(c, s, a) && id in s.history.tokenIds && Revoked(s.tokens, id)
    ensures id in Next(c, s, a).0.history.tokenIds && Revoked(Next(c, s, a).0.tokens, id)
    ensures Revoked(s.tokensFile, id) ==> Revoked(Next(c, s, a).0.tokensFile, id)
  {
    hide Trim, NewToken, Crypto.Sound;
    if a.DoCreateToken? {
      NewTokenFacts(c, a.user, a.raw, a.id, a.expiresAt);
    }
  }

  /** Number `i` is the token half of revoking a token the store knows. */
  ghost predicate RevokesAt(r: Run, i: nat, id: string)
    requires i < |r.acts|
  {
    r.acts[i].DoRevokeToken? && Trim(r.acts[i].id) == id && id in StateAt(r, i).tokens
  }

  lemma RevokeTakesEffect(r: Run, i: nat, n: nat, id: string)
    requires Legal(r) && n == i + 1 <= |r.acts| && RevokesAt(r, i, id)
    ensures Revoked(StateAt(r, n).tokens, id) && id in StateAt(r, n).history.tokenIds
    ensures r.acts[i].saved ==> Revoked(StateAt(r, n).tokensFile, id)
  {
    hide Inv, Crypto.Sound, Trim;
    InvAt(r, i);
    InvParts(r.c, StateAt(r, i));
    assert StateAt(r, n) == RevokeToken(StateAt(r, i), r.acts[i].id, r.acts[i].saved, r.acts[i].now).0;
  }

  ghost predicate NoRestart(r: Run, i: nat, n: nat)
    requires n <= |r.acts|
  {
    forall k :: i <= k < n ==> !r.acts[k].DoRestart?
  }

  lemma {:induction false} RevokedUntilRestart(r: Run, i: nat, n: nat, id: string)
    requires Legal(r) && i < n <= |r.acts| && RevokesAt(r, i, id) && NoRestart(r, i, n)
    ensures Revoked(StateAt(r, n).tokens, id) && id in StateAt(r, n).history.tokenIds
    decreases n
  {
    hide Next, Inv, Crypto.Sound, Enabled, Trim;
    if n == i + 1 {
      RevokeTakesEffect(r, i, n, id);
    } else {
      RevokedUntilRestart(r, i, n - 1, id);
      InvAt(r, n - 1);
      RevokedStep(r.c, StateAt(r, n - 1), r.acts[n - 1], id);
    }
  }

  /** A revocation whose save succeeded survives restarts. */
  lemma {:induction false} SavedRevocationIsDurable(r: Run, i: nat, n: nat, id: string)
    requires Legal(r) && i < n <= |r.acts| && RevokesAt(r, i, id) && r.acts[i].saved
    ensures Revoked(StateAt(r, n).tokens, id) && Revoked(StateAt(r, n).tokensFile, id)
    ensures id in StateAt(r, n).history.tokenIds
    decreases n
  {
    hide Next, Inv, Crypto.Sound, Enabled, Trim;
    if n == i + 1 {
      RevokeTakesEffect(r, i, n, id);
    } else {
      SavedRevocationIsDurable(r, i, n - 1, id);
      InvAt(r, n - 1);
      RevokedStep(r.c, StateAt(r, n - 1), r.acts[n - 1], id);
    }
  }

  /** REVOCATION IS FINAL FOR AUTHENTICATION. Once the token half of a revocation
      has run, no later validation accepts the token, and its own key is refused;
      across restarts too if the revocation was saved. */
  lemma RevokedTokenNeverValidates(r: Run, i: nat, n: nat, id: string)
    requires Legal(r) && i < n < |r.acts| && RevokesAt(r, i, id) && (NoRestart(r, i, n) || r.acts[i].saved)
    requires r.acts[n].DoValidate?
    ensures OutcomeAt(r, n).Valid? ==> OutcomeAt(r, n).token.id != id
    ensures forall p ::
              p in StateAt(r, n).history.issued && p.1.id == id && r.c.crypto.hash(Trim(r.acts[n].raw)) == p.1.hash
              ==> OutcomeAt(r, n) == Invalid
  {
    hide Inv, Crypto.Sound, Trim, Enabled, Matches, Revoked, ValidateToken, RevokesAt;
    if NoRestart(r, i, n) {
      RevokedUntilRestart(r, i, n, id);
    } else {
      SavedRevocationIsDurable(r, i, n, id);
    }
    InvAt(r, n);
    RevokedIsRefused(r.c, StateAt(r, n), r.acts[n], id);
  }

  lemma RevokedIsRefused(c: Config, s: State, a: Action, id: string)
    requires Inv(c, s) && a.DoValidate? && Revoked(s.tokens, id)
    ensures var o := ValidateToken(c, s, a.raw, a.pick, a.saved, a.now).1;
            && (o.Valid? ==> o.token.id != id)
            && forall p :: p in s.history.issued && p.1.id == id && c.crypto.hash(Trim(a.raw)) == p.1.hash ==> o == Invalid
  {
    hide Inv, Trim, NormalizeToken;
    InvParts(c, s);
    if a.pick in s.tokens {
      assert IssuedAs(s.history, s.tokens[a.pick].(revokedAt := None));
    }
  }

  // ---- claims ------------------------------------------------------------

  /** Check number `j` found this delivery's token usable and the claim has held
      the delivery lock ever since. */
  ghost predicate CheckedAt(r: Run, n: nat, d: Delivery, j: nat)
    requires n <= |r.acts|
  {
    && j < n && r.acts[j].DoClaimCheck? && StateAt(r, j).claim == Found(d)
    && d.tokenId in StateAt(r, j).tokens && Usable(StateAt(r, j).tokens[d.tokenId], r.acts[j].now)
    && NoRestart(r, j, n)
  }

  predicate TouchesClaim(a: Action) {
    a.DoClaimBegin? || a.DoClaimCheck? || a.DoClaimSave? || a.DoClaimReturn? || a.DoRestart?
  }

  lemma ClaimUntouched(c: Config, s: State, a: Action)
    requires !TouchesClaim(a)
    ensures Next(c, s, a).0.claim == s.claim
  {
    hide Purge, CreateDelivery, ClaimBegin, ClaimSave, DeleteByToken, NewToken, Restart, Trim;
    match a
    case DoDeleteByToken(rawId, saved) => DeleteByTokenFrame(c, s, rawId, saved);
    case DoCreateDelivery(raw, t, id, nonce, purged, saved, now) => CreateDeliveryFrame(c, s, raw, t, id, nonce, purged, saved, now);
    case DoList(purged, now) => PurgeFrame(c, s, now, purged);
    case _ =>
  }

  /** How a step can bring a claim past its token check. */
  lemma ClaimStep(c: Config, s: State, a: Action)
    requires c.crypto.Sound() && Inv(c, s) && Enabled(c, s, a)
    ensures var after := Next(c, s, a).0.claim;
            && (after.Active? && s.claim != after ==>
                  && a.DoClaimCheck? && s.claim == Found(after.delivery)
                  && after.delivery.tokenId in s.tokens && Usable(s.tokens[after.delivery.tokenId], a.now))
            && (after.Saved? && s.claim != after ==> s.claim == Active(after.delivery))
            && (a.DoRestart? ==> after.Idle?)
  {
    hide Inv, Crypto.Sound, CreateToken, RevokeToken, ValidateToken, DeleteByToken, CreateDelivery, Purge, ClaimBegin, ClaimSave,
         LoadTokens, LoadDeliveries, Usable, Trim;
    match a
    case DoClaimBegin(user, id, purged, now) => ClaimBeginFrame(c, s, user, id, purged, now);
    case DoClaimCheck(now) => FoundKeyIsId(c, s);
    case DoClaimSave(saved) => ClaimSaveFrame(c, s, saved);
    case DoClaimReturn =>
    case DoRestart(_, _, _, _) =>
    case _ => ClaimUntouched(c, s, a);
  }

  lemma FoundKeyIsId(c: Config, s: State)
    requires Inv(c, s) && s.claim.Found?
    ensures Trim(s.claim.delivery.tokenId) == s.claim.delivery.tokenId
  {
    hide IssuedSound, TokensSound, DeliveriesSound, Key, Trim;
    KeyIsId(c, s, s.claim.delivery.id);
  }

  lemma {:induction false} ClaimWasChecked(r: Run, n: nat) returns (j: nat)
    requires Legal(r) && n <= |r.acts| && (StateAt(r, n).claim.Active? || StateAt(r, n).claim.Saved?)
    ensures CheckedAt(r, n, StateAt(r, n).claim.delivery, j)
    decreases n
  {
    hide Next, Inv, Crypto.Sound, Enabled, Usable;
    var m := n - 1;
    assert n > 0;
    InvAt(r, m);
    ClaimStep(r.c, StateAt(r, m), r.acts[m]);
    if StateAt(r, m).claim.Active? || StateAt(r, m).claim.Saved? {
      j := ClaimWasChecked(r, m);
    } else {
      j := m;
    }
  }

  /** A CLAIMED KEY. A key is returned only to the user of its token, its hash is
      the stored hash, and the token was usable at the check made while the claim
      held the delivery lock. */
  lemma ClaimedKeyIsTheUsers(r: Run, n: nat) returns (j: nat, token: Token)
    requires Legal(r) && n < |r.acts| && OutcomeAt(r, n).Delivered?
    ensures StateAt(r, n).claim.Saved? && CheckedAt(r, n, StateAt(r, n).claim.delivery, j)
    ensures token.id == StateAt(r, n).claim.delivery.tokenId && token.id in StateAt(r, n).tokens
    ensures token.user == OutcomeAt(r, n).user && StateAt(r, n).tokens[token.id].user == token.user
    ensures StateAt(r, n).tokens[token.id].hash == r.c.crypto.hash(OutcomeAt(r, n).raw)
  {
    hide Next, Inv, Crypto.Sound;
    var s := StateAt(r, n);
    DeliveredGrows(r.c, s, r.acts[n]);
    j := ClaimWasChecked(r, n);
    InvAt(r, n);
    token := OpenedToken(r.c, s);
  }

  lemma OpenedToken(c: Config, s: State) returns (t: Token)
    requires Inv(c, s) && s.claim.Saved?
    ensures t.id == s.claim.delivery.tokenId && t.user == s.claim.delivery.user && t.id in s.tokens
    ensures s.tokens[t.id].user == t.user && s.tokens[t.id].hash == c.crypto.hash(s.claim.raw)
  {
    hide DeliveriesSound, NormalizeToken, Key;
    var d := s.claim.delivery;
    t :| (s.claim.raw, t) in s.history.issued && d.tokenId == t.id && d.user == t.user && t.id in s.tokens;
    assert IssuedAs(s.history, s.tokens[t.id].(revokedAt := None));
    var raw :| (raw, s.tokens[t.id].(revokedAt := None)) in s.history.issued;
    assert (raw, s.tokens[t.id].(revokedAt := None)) == (s.claim.raw, t);
  }

  /** REVOCATION IS FINAL FOR DELIVERY. A key delivered after its token was revoked
      had its token check before the revocation; no later check lets one through. */
  lemma RevokedTokenIsNotDelivered(r: Run, i: nat, n: nat, id: string) returns (j: nat)
    requires Legal(r) && i < n < |r.acts| && RevokesAt(r, i, id) && (NoRestart(r, i, n) || r.acts[i].saved)
    requires OutcomeAt(r, n).Delivered? && StateAt(r, n).claim.Saved? && StateAt(r, n).claim.delivery.tokenId == id
    ensures j < i && CheckedAt(r, n, StateAt(r, n).claim.delivery, j)
  {
    hide Next, Inv, Crypto.Sound, Enabled, Trim;
    var token;
    j, token := ClaimedKeyIsTheUsers(r, n);
    if j > i {
      if NoRestart(r, i, n) {
        RevokedUntilRestart(r, i, j, id);
      } else {
        SavedRevocationIsDurable(r, i, j, id);
      }
    }
  }

  // ---- a delivery can be claimed -----------------------------------------

  /** ROUND TRIP. The key of a saved delivery, claimed by its user in time while its
      token is usable, comes back exactly as it was issued. */
  lemma ClaimReturnsTheKey(c: Config, s: State, raw: string, t: Token, id: string, nonce: string, purged: bool, at: int,
                           claimPurged: bool, now: int)
    requires c.crypto.Sound() && Inv(c, s)
    requires Enabled(c, s, DoCreateDelivery(raw, t, id, nonce, purged, true, at))
    requires t.id in s.tokens && s.tokens[t.id].revokedAt.None? && (t.expiresAt.None? || now <= t.expiresAt.value)
    requires now <= at + 24 * 60 * MINUTE && t.user != ""
    ensures var s1 := CreateDelivery(c, s, raw, t, id, nonce, purged, true, at).0;
            var s2 := ClaimBegin(c, s1, t.user, id, claimPurged, now).0;
            && s2.claim.Found?
            && var s3 := ClaimCheck(s2, now);
            && s3.claim.Active?
            && var s4 := ClaimSave(c, s3, true).0;
            && s4.claim.Saved?
            && ClaimReturn(s4).1 == Delivered(id, raw, t.user)
  {
    hide Inv, Key, Crypto.Sound, CreateDelivery, ClaimBegin, ClaimCheck, ClaimSave, ClaimReturn, Trim, Trimmed,
         NormalizeDelivery, DeliverySound, Usable;
    var key := Key(c, s.ephemeralKey);
    NewDeliverySound(c, s, raw, t, id, nonce, at);
    var d := Delivery(id, t.id, t.user, Some(at + DELIVERY_TTL), nonce, c.crypto.seal(raw, key, nonce));
    CreatedDelivery(c, s, raw, t, id, nonce, purged, at, d);
    IssuedIsTrimmed(c, s, raw, t);
    IssuedIsUsable(c, s, raw, t, now);
    OpenSealed(c, raw, key, nonce);
    ClaimGoesThrough(c, CreateDelivery(c, s, raw, t, id, nonce, purged, true, at).0, d, raw, claimPurged, now);
  }

  lemma ClaimGoesThrough(c: Config, s1: State, d: Delivery, raw: string, claimPurged: bool, now: int)
    requires d.id in s1.deliveries && s1.deliveries[d.id] == d && !Expired(d, now)
    requires Trim(d.id) == d.id && d.id != "" && Trim(d.user) == d.user && d.user != "" && Trim(d.tokenId) == d.tokenId
    requires d.tokenId in s1.tokens && Usable(s1.tokens[d.tokenId], now)
    requires c.crypto.open(d.ciphertext, Key(c, s1.ephemeralKey), d.nonce) == Some(raw)
    ensures var s2 := ClaimBegin(c, s1, d.user, d.id, claimPurged, now).0;
            && s2.claim.Found?
            && var s3 := ClaimCheck(s2, now);
            && s3.claim.Active?
            && var s4 := ClaimSave(c, s3, true).0;
            && s4.claim.Saved?
            && ClaimReturn(s4).1 == Delivered(d.id, raw, d.user)
  {
    hide Purge, Key, Trim, Usable;
    KeptByPurge(c, s1, now, claimPurged, d.id);
  }

  lemma OpenSealed(c: Config, raw: string, key: string, nonce: string)
    requires c.crypto.Sound()
    ensures c.crypto.open(c.crypto.seal(raw, key, nonce), key, nonce) == Some(raw)
  {
  }

  lemma IssuedIsUsable(c: Config, s: State, raw: string, t: Token, now: int)
    requires Inv(c, s) && (raw, t) in s.history.issued && t.id in s.tokens && s.tokens[t.id].revokedAt.None?
    requires t.expiresAt.None? || now <= t.expiresAt.value
    ensures Usable(s.tokens[t.id], now)
  {
    hide DeliveriesSound, ClaimSound, NormalizeToken, Key;
    assert IssuedAs(s.history, s.tokens[t.id].(revokedAt := None));
    var key :| (key, s.tokens[t.id].(revokedAt := None)) in s.history.issued;
    assert (key, s.tokens[t.id].(revokedAt := None)).1.id == (raw, t).1.id;
  }

  lemma IssuedIsTrimmed(c: Config, s: State, raw: string, t: Token)
    requires Inv(c, s) && (raw, t) in s.history.issued
    ensures Trim(t.id) == t.id && Trim(t.user) == t.user
  {
    hide Trim, TokensSound, DeliveriesSound, Key;
    assert NormalizeToken((raw, t).1) == t;
  }

  lemma CreatedDelivery(c: Config, s: State, raw: string, t: Token, id: string, nonce: string, purged: bool, at: int, d: Delivery)
    requires NormalizeDelivery(Delivery(id, t.id, t.user, Some(at + DELIVERY_TTL), nonce, c.crypto.seal(raw, Key(c, s.ephemeralKey), nonce))) == d
    ensures var s1 := CreateDelivery(c, s, raw, t, id, nonce, purged, true, at).0;
            && d.id in s1.deliveries && s1.deliveries[d.id] == d
            && s1.tokens == s.tokens && s1.ephemeralKey == s.ephemeralKey
  {
    hide NormalizeDelivery, Key, Purge;
    PurgeFrame(c, s.(history := s.history.(deliveryIds := s.history.deliveryIds + {d.id})), at, purged);
  }

  lemma KeptByPurge(c: Config, s: State, now: int, ok: bool, id: string)
    requires id in s.deliveries && !Expired(s.deliveries[id], now)
    ensures var p := Purge(c, s, now, ok);
            && id in p.deliveries && p.deliveries[id] == s.deliveries[id]
            && p.tokens == s.tokens && p.ephemeralKey == s.ephemeralKey
  {
    hide Expired;
    PurgeFrame(c, s, now, ok);
  }

  // ---- such runs exist ---------------------------------------------------

  /** The laws asked of the cryptography can be met together. */
  lemma SoundCryptoExists() returns (c: Crypto)
    ensures c.Sound()
  {
    c := Crypto(raw => Trim(raw), master => master, (raw, key, nonce) => "<" + raw + ">",
                (text, key, nonce) => if |text| < 2 then None else Some(text[1..|text| - 1]));
    forall raw: string ensures Trimmed("<" + raw + ">") && ("<" + raw + ">")[1..|raw| + 1] == raw { }
  }

  /** Issue a key for a user, deliver it, and let the user claim it. */
  function IssueAndClaim(c: Config, ephemeralKey: string, user: string, raw: string, id: string, delivery: string, nonce: string): Run {
    var t := NewToken(c, user, raw, id, None);
    Run(c, ephemeralKey, [DoCreateToken(user, raw, id, None, true), DoCreateDelivery(raw, t, delivery, nonce, true, true, 0),
                          DoClaimBegin(t.user, delivery, true, 0), DoClaimCheck(0), DoClaimSave(true), DoClaimReturn])
  }

  /** KEYS DO ARRIVE. That run is possible whatever the setup, and returns the key. */
  lemma KeyIsDelivered(c: Config, ephemeralKey: string, user: string, raw: string, id: string, delivery: string, nonce: string)
    requires c.crypto.Sound() && Trim(user) != "" && Trimmed(raw) && Trimmed(nonce)
    requires Trimmed(id) && id != "" && Trimmed(delivery) && delivery != ""
    ensures var r := IssueAndClaim(c, ephemeralKey, user, raw, id, delivery, nonce);
            Legal(r) && OutcomeAt(r, 5) == Delivered(delivery, raw, Trim(user))
  {
    hide Crypto.Sound, Trim, Trimmed, Inv, CreateDelivery, ClaimBegin, ClaimCheck, ClaimSave, ClaimReturn, Key;
    var r, t := IssueAndClaim(c, ephemeralKey, user, raw, id, delivery, nonce), NewToken(c, user, raw, id, None);
    NewTokenFacts(c, user, raw, id, None);
    var s0, s1 := Start(ephemeralKey), CreateToken(c, Start(ephemeralKey), user, raw, id, None, true).0;
    FirstToken(c, ephemeralKey, user, raw, id);
    StartInv(c, ephemeralKey);
    StepKeeps(c, s0, r.acts[0]);
    ClaimReturnsTheKey(c, s1, raw, t, delivery, nonce, true, 0, true, 0);
    StatesOf(r, c, s0, s1);
    CreatedClaimIdle(c, s1, raw, t, delivery, nonce);
  }

  lemma FirstToken(c: Config, ephemeralKey: string, user: string, raw: string, id: string)
    requires c.crypto.Sound() && Trim(user) != "" && Trimmed(id)
    ensures var (s, t) := (CreateToken(c, Start(ephemeralKey), user, raw, id, None, true).0, NewToken(c, user, raw, id, None));
            s.claim.Idle? && (raw, t) in s.history.issued && t.id in s.tokens && s.tokens[t.id] == t && s.history.deliveryIds == {}
  {
    hide Crypto.Sound, Trim, NewToken;
    NewTokenFacts(c, user, raw, id, None);
  }

  lemma CreatedClaimIdle(c: Config, s: State, raw: string, t: Token, id: string, nonce: string)
    requires s.claim.Idle?
    ensures CreateDelivery(c, s, raw, t, id, nonce, true, true, 0).0.claim.Idle?
  {
    CreateDeliveryFrame(c, s, raw, t, id, nonce, true, true, 0);
  }

  lemma StatesOf(r: Run, c: Config, s0: State, s1: State)
    requires |r.acts| == 6 && r.c == c && s0 == Start(r.ephemeralKey) && s1 == Next(c, s0, r.acts[0]).0
    ensures StateAt(r, 0) == s0 && StateAt(r, 1) == s1
    ensures StateAt(r, 2) == Next(c, s1, r.acts[1]).0
    ensures StateAt(r, 3) == Next(c, StateAt(r, 2), r.acts[2]).0
    ensures StateAt(r, 4) == Next(c, StateAt(r, 3), r.acts[3]).0
    ensures StateAt(r, 5) == Next(c, StateAt(r, 4), r.acts[4]).0
  {
    hide Next;
  }
}
