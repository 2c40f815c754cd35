/** How long a delivery can be claimed, over every run, and what its claim returns. */
module TokenPending {
  import opened Common
  import opened Text
  import opened TokenDelivery
  import opened TokenSafety
  import opened TokenValidity

  /** In memory, and in the file where deliveries are kept in one. */
  predicate Pending(c: Config, s: State, d: Delivery) {
    && d.id in s.deliveries && s.deliveries[d.id] == d
    && (c.Persists() ==> d.id in s.deliveriesFile && s.deliveriesFile[d.id] == d)
  }

  /** The step is not one that ends the delivery: clearing the deliveries of its token, a
      claim of it, a clock past its expiry, or a restart that cannot read it back. */
  predicate Spares(c: Config, s: State, a: Action, d: Delivery) {
    && (a.DoDeleteByToken? ==> Trim(a.id) != d.tokenId)
    && (a.DoClaimSave? && (s.claim.Active? || s.claim.Inactive?) ==> s.claim.delivery.id != d.id)
    && (a.DoCreateDelivery? || a.DoList? || a.DoClaimBegin? || a.DoRestart? ==>
          d.expiresAt.Some? && a.now <= d.expiresAt.value)
    && (a.DoRestart? ==> c.Persists() && a.deliveriesRead)
  }

  /** Leaving out other records, and then saving. */
  lemma FewerPends(c: Config, s: State, kept: Deliveries, ok: bool, d: Delivery)
    requires Pending(c, s, d) && d.id in kept && kept[d.id] == d
    ensures Pending(c, s.(deliveries := kept), d) && Pending(c, SaveDeliveries(c, s.(deliveries := kept), ok).0, d)
  {
  }

  lemma PurgePends(c: Config, s: State, now: int, ok: bool, d: Delivery)
    requires Pending(c, s, d) && d.expiresAt.Some? && now <= d.expiresAt.value
    ensures Pending(c, Purge(c, s, now, ok), d)
  {
    hide SaveDeliveries, Pending;
    PendingParts(c, s, d);
    FewerPends(c, s, Unexpired(s.deliveries, now), ok, d);
  }

  lemma PendingParts(c: Config, s: State, d: Delivery)
    ensures Pending(c, s, d) ==> d.id in s.deliveries && s.deliveries[d.id] == d
  {
  }

  lemma DeletePends(c: Config, s: State, rawId: string, ok: bool, d: Delivery)
    requires Pending(c, s, d) && Trim(rawId) != d.tokenId
    ensures Pending(c, DeleteByToken(c, s, rawId, ok), d)
  {
    hide Trim, SaveDeliveries, Pending;
    PendingParts(c, s, d);
    FewerPends(c, s, WithoutToken(s.deliveries, Trim(rawId)), ok, d);
  }

  lemma ClaimSavePends(c: Config, s: State, ok: bool, d: Delivery)
    requires (s.claim.Active? || s.claim.Inactive?) && s.claim.delivery.id != d.id && Pending(c, s, d)
    ensures Pending(c, ClaimSave(c, s, ok).0, d)
  {
    hide Key, SaveDeliveries;
    var kept := s.deliveries - {s.claim.delivery.id};
    FewerPends(c, s.(claim := Idle), kept, ok, d);
  }

  lemma CreatePends(c: Config, s: State, a: Action, d: Delivery)
    requires a.DoCreateDelivery? && Trim(a.id) == a.id != d.id && Pending(c, s, d)
    requires d.expiresAt.Some? && a.now <= d.expiresAt.value
    ensures Pending(c, Next(c, s, a).0, d)
  {
    hide Trim, Key, Purge, SaveDeliveries;
    var made := NormalizeDelivery(Delivery(a.id, a.token.id, a.token.user, Some(a.now + DELIVERY_TTL), a.nonce,
                                           c.crypto.seal(a.raw, Key(c, s.ephemeralKey), a.nonce)));
    var s1 := s.(history := s.history.(deliveryIds := s.history.deliveryIds + {made.id}));
    PurgePends(c, s1, a.now, a.purged, d);
    var purged := Purge(c, s1, a.now, a.purged);
    FewerPends(c, purged, purged.deliveries[made.id := made], a.saved, d);
    UndonePends(c, purged, made, a.saved, d);
  }

  /** An insertion that could not be saved is taken back. */
  lemma UndonePends(c: Config, s: State, made: Delivery, ok: bool, d: Delivery)
    requires Pending(c, s, d) && made.id != d.id
    ensures var s' := SaveDeliveries(c, s.(deliveries := s.deliveries[made.id := made]), ok).0;
            Pending(c, s.(deliveries := s'.deliveries - {made.id}), d)
  {
  }

  lemma RestartPends(c: Config, s: State, a: Action, d: Delivery)
    requires Inv(c, s) && a.DoRestart? && c.Persists() && a.deliveriesRead && Pending(c, s, d)
    requires d.expiresAt.Some? && a.now <= d.expiresAt.value
    ensures Pending(c, Next(c, s, a).0, d)
  {
    hide Inv, LoadTokens, LoadDeliveries, DeliveriesSound, TokensSound, IssuedSound, ClaimSound, Key;
    InvParts(c, s);
    LoadedDeliveries(c, s.deliveriesFile, s.history, Key(c, s.ephemeralKey), a.now);
  }

  lemma StepPends(c: Config, s: State, a: Action, d: Delivery)
    requires Inv(c, s) && Enabled(c, s, a) && Pending(c, s, d) && Spares(c, s, a, d) && d.id in s.history.deliveryIds
    ensures Pending(c, Next(c, s, a).0, d)
  {
    hide Inv, Pending, CreateDelivery, ClaimBegin, ClaimSave, DeleteByToken, CreateToken, RevokeToken, ValidateToken, Restart, Purge, Trim, Trimmed;
    match a
    case DoCreateDelivery(_, _, id, _, _, _, _) =>
      TrimTrimmed(id);
      CreatePends(c, s, a, d);
    case DoRestart(_, _, _, _) => RestartPends(c, s, a, d);
    case DoList(purged, now) => PurgePends(c, s, now, purged, d);
    case DoDeleteByToken(rawId, saved) => DeletePends(c, s, rawId, saved, d);
    case DoClaimBegin(user, id, purged, now) => BeginPends(c, s, user, id, purged, now, d);
    case DoClaimSave(saved) => ClaimSavePends(c, s, saved, d);
    case _ => OthersPend(c, s, a, d);
  }

  lemma BeginPends(c: Config, s: State, user: string, id: string, purged: bool, now: int, d: Delivery)
    requires Pending(c, s, d) && d.expiresAt.Some? && now <= d.expiresAt.value
    ensures Pending(c, ClaimBegin(c, s, user, id, purged, now).0, d)
  {
    hide Purge, Trim;
    PurgePends(c, s, now, purged, d);
  }

  lemma OthersPend(c: Config, s: State, a: Action, d: Delivery)
    requires a.DoCreateToken? || a.DoRevokeToken? || a.DoValidate? || a.DoClaimCheck? || a.DoClaimReturn?
    ensures Pending(c, s, d) ==> Pending(c, Next(c, s, a).0, d)
  {
    hide Trim, NewToken, Matches, Usable;
  }

  // ---- runs --------------------------------------------------------------

  /** The delivery that a request asks for, of a key just issued. */
  function AskedDelivery(c: Config, s: State, a: Action): Delivery
    requires a.DoCreateDelivery?
  {
    Delivery(a.id, a.token.id, a.token.user, Some(a.now + 24 * 60 * MINUTE), a.nonce,
             c.crypto.seal(a.raw, Key(c, s.ephemeralKey), a.nonce))
  }

  lemma CreatedPends(r: Run, i: nat)
    requires Legal(r) && i < |r.acts| && r.acts[i].DoCreateDelivery? && OutcomeAt(r, i).DeliveryCreated?
    ensures OutcomeAt(r, i) == DeliveryCreated(AskedDelivery(r.c, StateAt(r, i), r.acts[i]))
    ensures Pending(r.c, StateAt(r, i + 1), OutcomeAt(r, i).delivery)
  {
    hide StateAt, Inv, Purge, Trim, Trimmed, Key, IssuedAs;
    var a, s := r.acts[i], StateAt(r, i);
    assert Enabled(r.c, s, a);
    InvAt(r, i);
    NextState(r, i);
    IssuedIsTrimmed(r.c, s, a.raw, a.token);
    TrimTrimmed(a.id);
    TrimTrimmed(a.nonce);
    TrimTrimmed(r.c.crypto.seal(a.raw, Key(r.c, s.ephemeralKey), a.nonce));
  }

  lemma {:induction false} StaysPending(r: Run, i: nat, n: nat, d: Delivery)
    requires Legal(r) && i < n <= |r.acts| && r.acts[i].DoCreateDelivery? && OutcomeAt(r, i) == DeliveryCreated(d)
    requires forall k :: i < k < n ==> Spares(r.c, StateAt(r, k), r.acts[k], d)
    ensures Pending(r.c, StateAt(r, n), d)
    decreases n
  {
    hide StateAt, Inv, Next, Enabled, Crypto.Sound, Pending, Spares;
    if n == i + 1 {
      CreatedPends(r, i);
    } else {
      StaysPending(r, i, n - 1, d);
      InvAt(r, n - 1);
      NextState(r, n - 1);
      PendingIsKnown(r.c, StateAt(r, n - 1), d);
      StepPends(r.c, StateAt(r, n - 1), r.acts[n - 1], d);
    }
  }

  lemma PendingIsKnown(c: Config, s: State, d: Delivery)
    requires Inv(c, s) && Pending(c, s, d)
    ensures d.id in s.history.deliveryIds && DeliverySound(c, Key(c, s.ephemeralKey), s.history, d.id, d)
  {
    hide IssuedSound, TokensSound, ClaimSound, DeliverySound, Key;
    assert DeliverySound(c, Key(c, s.ephemeralKey), s.history, d.id, s.deliveries[d.id]);
    SoundIsKnown(c, Key(c, s.ephemeralKey), s.history, d);
  }

  lemma SoundIsKnown(c: Config, key: string, h: History, d: Delivery)
    requires DeliverySound(c, key, h, d.id, d)
    ensures d.id in h.deliveryIds
  {
  }

  // ---- a claim of a pending delivery -------------------------------------

  predicate OnTokens(a: Action) {
    a.DoCreateToken? || a.DoRevokeToken? || a.DoValidate?
  }

  /** While a claim holds the delivery lock, only the token store is at work between its steps. */
  ghost predicate OnlyTokens(r: Run, i: nat, n: nat)
    requires n <= |r.acts|
  {
    forall k :: i < k < n ==> OnTokens(r.acts[k])
  }

  lemma {:induction false} ClaimWaits(r: Run, i: nat, n: nat)
    requires i < n <= |r.acts| && OnlyTokens(r, i, n)
    ensures StateAt(r, n).claim == StateAt(r, i + 1).claim && StateAt(r, n).deliveries == StateAt(r, i + 1).deliveries
    ensures StateAt(r, n).ephemeralKey == StateAt(r, i + 1).ephemeralKey
    decreases n
  {
    hide Next;
    if n > i + 1 {
      ClaimWaits(r, i, n - 1);
      TokensKeepClaim(r.c, StateAt(r, n - 1), r.acts[n - 1]);
    }
  }

  lemma TokensKeepClaim(c: Config, s: State, a: Action)
    requires OnTokens(a)
    ensures var s' := Next(c, s, a).0;
            s'.claim == s.claim && s'.deliveries == s.deliveries && s'.ephemeralKey == s.ephemeralKey
  {
    hide Trim, NewToken, Matches, Usable;
  }

  lemma BeginFinds(c: Config, s: State, user: string, id: string, purged: bool, now: int, d: Delivery)
    requires Pending(c, s, d) && Trim(user) == d.user != "" && Trim(id) == d.id != ""
    requires d.expiresAt.Some? && now <= d.expiresAt.value
    ensures ClaimBegin(c, s, user, id, purged, now).0.claim == Found(d)
  {
    hide Trim, Pending, Purge;
    PurgePends(c, s, now, purged, d);
    PendingParts(c, Purge(c, s, now, purged), d);
  }

  lemma CheckPasses(r: Run, p: nat, d: Delivery, raw: string, t: Token)
    requires Legal(r) && p < |r.acts| && StateAt(r, p).claim == Found(d) && r.acts[p].DoClaimCheck?
    requires (raw, t) in StateAt(r, p).history.issued && d.tokenId == t.id && t.id in StateAt(r, p).tokens
    requires !InEffect(r, p, t.id) && (t.expiresAt.None? || r.acts[p].now <= t.expiresAt.value)
    ensures StateAt(r, p + 1).claim == Active(d)
  {
    hide StateAt, Inv, Crypto.Sound, Enabled, InEffect, Trim, Usable;
    var s := StateAt(r, p);
    InvAt(r, p);
    NextState(r, p);
    MarkedIsInEffect(r, p, t.id);
    IssuedIsUsable(r.c, s, raw, t, r.acts[p].now);
    IssuedIsTrimmed(r.c, s, raw, t);
  }

  /** What is found in a delivery is the key of its token. */
  lemma OpensToKey(c: Config, s: State, d: Delivery, raw: string, t: Token)
    requires c.crypto.Sound() && Inv(c, s) && (raw, t) in s.history.issued && d.tokenId == t.id
    requires d.id in s.deliveries && s.deliveries[d.id] == d
    ensures c.crypto.open(d.ciphertext, Key(c, s.ephemeralKey), d.nonce) == Some(raw)
  {
    hide TokensSound, ClaimSound, NormalizeDelivery, NormalizeToken, Key;
    assert DeliverySound(c, Key(c, s.ephemeralKey), s.history, d.id, d);
    var p :| p in s.history.issued && d.tokenId == p.1.id && d.user == p.1.user
             && d.ciphertext == c.crypto.seal(p.0, Key(c, s.ephemeralKey), d.nonce);
    assert p.1.id == (raw, t).1.id;
  }

  lemma SaveReturns(r: Run, q: nat, d: Delivery, raw: string, t: Token)
    requires Legal(r) && q < |r.acts| && StateAt(r, q).claim == Active(d) && r.acts[q] == DoClaimSave(true)
    requires (raw, t) in StateAt(r, q).history.issued && d.tokenId == t.id
    ensures StateAt(r, q + 1).claim == Saved(d, raw)
  {
    hide StateAt, Inv, Crypto.Sound, Enabled, Key;
    InvAt(r, q);
    NextState(r, q);
    ActiveIsStored(r.c, StateAt(r, q), d);
    OpensToKey(r.c, StateAt(r, q), d, raw, t);
  }

  lemma ActiveIsStored(c: Config, s: State, d: Delivery)
    requires Inv(c, s) && s.claim == Active(d)
    ensures d.id in s.deliveries && s.deliveries[d.id] == d
  {
    hide IssuedSound, TokensSound, DeliveriesSound, Key;
  }

  /** A PENDING DELIVERY IS CLAIMED. However long after its making, if nothing has ended it,
      a claim of it by its user returns the issued key, whatever the token store does in
      between, provided that at the check the token is stored, has not expired, and no
      revocation of it is in effect. */
  lemma PendingIsClaimed(r: Run, i: nat, n: nat, p: nat, q: nat, m: nat)
    requires Legal(r) && i < n < p < q < m < |r.acts|
    requires r.acts[i].DoCreateDelivery? && OutcomeAt(r, i).DeliveryCreated?
    requires forall k :: i < k < n ==> Spares(r.c, StateAt(r, k), r.acts[k], OutcomeAt(r, i).delivery)
    requires r.acts[n].DoClaimBegin? && r.acts[p].DoClaimCheck? && r.acts[q] == DoClaimSave(true) && r.acts[m].DoClaimReturn?
    requires OnlyTokens(r, n, p) && OnlyTokens(r, p, q) && OnlyTokens(r, q, m)
    requires Trim(r.acts[n].user) == r.acts[i].token.user != "" && Trim(r.acts[n].id) == r.acts[i].id
    requires r.acts[n].now <= r.acts[i].now + 24 * 60 * MINUTE
    requires var t := r.acts[i].token;
             t.id in StateAt(r, p).tokens && !InEffect(r, p, t.id) && (t.expiresAt.None? || r.acts[p].now <= t.expiresAt.value)
    ensures OutcomeAt(r, m) == Delivered(r.acts[i].id, r.acts[i].raw, r.acts[i].token.user)
  {
    hide StateAt, Inv, Next, Crypto.Sound, InEffect, Trim, Trimmed, Spares, Pending, OnlyTokens;
    var raw, t, d := r.acts[i].raw, r.acts[i].token, OutcomeAt(r, i).delivery;
    assert Enabled(r.c, StateAt(r, i), r.acts[i]);
    CreatedPends(r, i);
    StaysPending(r, i, n, d);
    ClaimBegins(r, n, d);
    IssuedStays(r, i, p);
    IssuedStays(r, p, q);
    ClaimWaits(r, n, p);
    CheckPasses(r, p, d, raw, t);
    ClaimWaits(r, p, q);
    SaveReturns(r, q, d, raw, t);
    ClaimWaits(r, q, m);
    Returns(r.c, StateAt(r, m), r.acts[m]);
  }

  lemma ClaimBegins(r: Run, n: nat, d: Delivery)
    requires n < |r.acts| && r.acts[n].DoClaimBegin? && Pending(r.c, StateAt(r, n), d)
    requires Trim(r.acts[n].user) == d.user != "" && Trim(r.acts[n].id) == d.id != ""
    requires d.expiresAt.Some? && r.acts[n].now <= d.expiresAt.value
    ensures StateAt(r, n + 1).claim == Found(d)
  {
    hide StateAt, Trim, Pending, ClaimBegin;
    NextState(r, n);
    BeginFinds(r.c, StateAt(r, n), r.acts[n].user, r.acts[n].id, r.acts[n].purged, r.acts[n].now, d);
  }

  lemma Returns(c: Config, s: State, a: Action)
    requires a.DoClaimReturn? && s.claim.Saved?
    ensures Next(c, s, a).1 == Delivered(s.claim.delivery.id, s.claim.raw, s.claim.delivery.user)
  {
  }

  // ---- clearing a token's deliveries -------------------------------------

  /** WHAT A REVOCATION CLEARS: every delivery of the token, and no other. */
  lemma ClearedDeliveries(c: Config, s: State, rawId: string, saved: bool, id: string)
    requires Trim(rawId) != ""
    ensures var after := DeleteByToken(c, s, rawId, saved).deliveries;
            && (id in after <==> id in s.deliveries && s.deliveries[id].tokenId != Trim(rawId))
            && (id in after ==> after[id] == s.deliveries[id])
  {
    hide Trim;
  }
}
