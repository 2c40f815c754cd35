/** The token store and the delivery store as the gateway keeps them: maps updated
    in place and written through to files. Every method is proved against the
    steps of TokenDelivery. A write's success is a parameter of the call. */
module TokenStores {
  import opened Common
  import opened Text
  import opened TokenDelivery
  import ServiceCatalog

  /** A key is an AI key or a standard one. */
  function NormalizeKeyType(raw: string): string {
    if NormalizeName(raw) == "ai" then "ai" else "standard"
  }

  /** An AI key needs an enabled gateway service that speaks the OpenAI protocol. */
  predicate KeyRefused(services: ServiceCatalog.Services, keyType: string, gateway: string) {
    NormalizeKeyType(keyType) == "ai"
    && !(ServiceCatalog.Known(services, NormalizeName(gateway)) && services[NormalizeName(gateway)].openAi && NormalizeName(gateway) != "")
  }

  class TokenStore {
    var tokens: Tokens
    var file: Tokens

    constructor ()
      ensures tokens == map[] && file == map[]
    {
      tokens, file := map[], map[];
    }

    /** Writing the file succeeds or fails as a whole. */
    method Save(ok: bool)
      modifies this`file
      ensures file == if ok then tokens else old(file)
    {
      if ok {
        file := tokens;
      }
    }

    /** Refuses before anything changes, or adds the record and saves it. */
    method CreateAPIToken(c: Config, ghost s: State, services: ServiceCatalog.Services, keyType: string, gateway: string,
                          user: string, raw: string, id: string, expiresAt: Option<int>, saved: bool) returns (o: Outcome)
      requires s.tokens == tokens && s.tokensFile == file
      modifies this
      ensures KeyRefused(services, keyType, gateway) ==> o == Failed && tokens == s.tokens && file == s.tokensFile
      ensures !KeyRefused(services, keyType, gateway) ==>
                var (s', o') := CreateToken(c, s, user, raw, id, expiresAt, saved);
                o == o' && tokens == s'.tokens && file == s'.tokensFile
    {
      hide NormalizeName, Trim, NewToken;
      var who := Trim(user);
      if who == "" {
        return Failed;
      }
      var service, kind := NormalizeName(gateway), NormalizeKeyType(keyType);
      if kind == "ai" && service == "" {
        return Failed;
      }
      if kind != "ai" {
        service := "";
      }
      if service != "" && !(ServiceCatalog.Known(services, service) && services[service].openAi) {
        return Failed;
      }
      var t := NewToken(c, user, raw, id, expiresAt);
      tokens := tokens[t.id := t];
      Save(saved);
      if !saved {
        tokens := tokens - {t.id};
        return Failed;
      }
      return TokenCreated(raw, t);
    }

    /** The half of a revocation under the token lock. */
    method RevokeRecord(ghost s: State, rawId: string, saved: bool, now: int) returns (o: Outcome)
      requires s.tokens == tokens && s.tokensFile == file
      modifies this
      ensures var (s', o') := RevokeToken(s, rawId, saved, now);
              o == o' && tokens == s'.tokens && file == s'.tokensFile
    {
      var id := Trim(rawId);
      if id !in tokens {
        return NotFound;
      }
      var record := tokens[id];
      if record.revokedAt.None? {
        record := record.(revokedAt := Some(now));
        tokens := tokens[id := record];
      }
      assert tokens == old(tokens)[id := record];
      Save(saved);
      return if saved then Silent else Failed;
    }

    /** Scans the records in any order for the hash of the key. */
    method ValidateAPIToken(c: Config, ghost s: State, raw: string, saved: bool, now: int) returns (o: Outcome, ghost pick: string)
      requires s.tokens == tokens && s.tokensFile == file
      modifies this`file
      ensures Matches(c, s, raw, pick) || forall id :: !Matches(c, s, raw, id)
      ensures var (s', o') := ValidateToken(c, s, raw, pick, saved, now);
              o == o' && tokens == s'.tokens && file == s'.tokensFile
    {
      var hash := c.crypto.hash(Trim(raw));
      var todo := tokens.Keys;
      while todo != {}
        invariant todo <= tokens.Keys && file == old(file)
        invariant forall id :: id in tokens && id !in todo ==> tokens[id].hash != hash
      {
        var id :| id in todo;
        var token := tokens[id];
        if token.hash == hash {
          pick := id;
          if token.revokedAt.Some? || (token.expiresAt.Some? && now > token.expiresAt.value) {
            return Invalid, pick;
          }
          Save(saved);
          return Valid(token), pick;
        }
        todo := todo - {id};
      }
      return Invalid, "";
    }

    method GetAPITokenByID(id: string) returns (token: Option<Token>)
      ensures token == if Trim(id) in tokens then Some(tokens[Trim(id)]) else None
    {
      if Trim(id) !in tokens {
        return None;
      }
      return Some(tokens[Trim(id)]);
    }

    /** Reads the file back, or starts empty when it cannot be read. */
    method LoadAPITokens(readable: bool)
      modifies this`tokens
      ensures tokens == if readable then LoadTokens(file) else map[]
    {
      hide NormalizeToken;
      tokens := map[];
      if !readable {
        return;
      }
      var todo := file.Keys;
      while todo != {}
        invariant todo <= file.Keys && tokens.Keys == file.Keys - todo
        invariant forall id :: id in tokens ==> tokens[id] == NormalizeToken(file[id])
      {
        var id :| id in todo;
        tokens := tokens[id := NormalizeToken(file[id])];
        todo := todo - {id};
      }
    }
  }

  class DeliveryStore {
    const tokens: TokenStore
    var deliveries: Deliveries
    var file: Deliveries
    var ephemeralKey: string

    constructor (tokens: TokenStore, ephemeralKey: string)
      ensures this.tokens == tokens && this.ephemeralKey == ephemeralKey && deliveries == map[] && file == map[]
    {
      this.tokens, this.ephemeralKey := tokens, ephemeralKey;
      deliveries, file := map[], map[];
    }

    /** Both stores as a state of the protocol. */
    ghost function View(claim: Claim, h: History): State
      reads this, tokens
    {
      State(tokens.tokens, tokens.file, deliveries, file, ephemeralKey, claim, h)
    }

    method Save(c: Config, ok: bool) returns (saved: bool)
      modifies this`file
      ensures forall claim, h :: (View(claim, h), saved) == SaveDeliveries(c, old(View(claim, h)), ok)
    {
      if !c.Persists() {
        return true;
      }
      if ok {
        file := deliveries;
      }
      return ok;
    }

    /** Drops expired records; writes the file only when something was dropped. */
    method PurgeExpired(c: Config, now: int, ok: bool)
      modifies this`deliveries, this`file
      ensures forall claim, h :: View(claim, h) == Purge(c, old(View(claim, h)), now, ok)
    {
      var changed := false;
      var todo := deliveries.Keys;
      while todo != {}
        invariant todo <= deliveries.Keys <= old(deliveries).Keys && file == old(file)
        invariant forall id :: id in deliveries ==> deliveries[id] == old(deliveries)[id]
        invariant forall id :: id in old(deliveries) && id !in todo ==>
                    (id in deliveries <==> !Expired(old(deliveries)[id], now))
        invariant changed <==> deliveries != old(deliveries)
      {
        var id :| id in todo;
        if deliveries[id].expiresAt.None? || now > deliveries[id].expiresAt.value {
          deliveries := deliveries - {id};
          changed := true;
        }
        todo := todo - {id};
      }
      assert deliveries == Unexpired(old(deliveries), now);
      if changed {
        var _ := Save(c, ok);
      }
    }

    method CreatePending(c: Config, raw: string, t: Token, id: string, nonce: string, purgeOk: bool, ok: bool, now: int,
                         ghost h: History) returns (o: Outcome)
      modifies this`deliveries, this`file
      ensures var (s', o') := CreateDelivery(c, old(View(Idle, h)), raw, t, id, nonce, purgeOk, ok, now);
              o == o' && View(Idle, s'.history) == s'
    {
      hide Purge, NormalizeDelivery, Key;
      var d := NormalizeDelivery(Delivery(id, t.id, t.user, Some(now + DELIVERY_TTL), nonce,
                                          c.crypto.seal(raw, Key(c, ephemeralKey), nonce)));
      ghost var h' := h.(deliveryIds := h.deliveryIds + {d.id});
      ghost var s := View(Idle, h).(history := h');
      PurgeExpired(c, now, purgeOk);
      assert View(Idle, h') == Purge(c, s, now, purgeOk);
      PurgeFrame(c, s, now, purgeOk);
      ghost var purged := View(Idle, h');
      deliveries := deliveries[d.id := d];
      ghost var inserted := purged.(deliveries := purged.deliveries[d.id := d]);
      assert View(Idle, h') == inserted;
      var saved := Save(c, ok);
      assert (View(Idle, h'), saved) == SaveDeliveries(c, inserted, ok);
      if !saved {
        deliveries := deliveries - {d.id};
        assert View(Idle, h') == purged.(deliveries := inserted.deliveries - {d.id});
        return Failed;
      }
      return DeliveryCreated(d);
    }

    method DeleteByTokenID(c: Config, rawId: string, ok: bool)
      modifies this`deliveries, this`file
      ensures forall claim, h :: View(claim, h) == DeleteByToken(c, old(View(claim, h)), rawId, ok)
    {
      hide Trim, Key;
      var tokenId := Trim(rawId);
      if tokenId == "" {
        return;
      }
      var changed := DropToken(tokenId);
      if !changed {
        return;
      }
      var _ := Save(c, ok);
    }

    /** Drops one token's deliveries from memory, one by one. */
    method DropToken(tokenId: string) returns (changed: bool)
      modifies this`deliveries
      ensures deliveries == WithoutToken(old(deliveries), tokenId)
      ensures changed <==> deliveries != old(deliveries)
    {
      changed := false;
      var todo := deliveries.Keys;
      while todo != {}
        invariant todo <= deliveries.Keys <= old(deliveries).Keys
        invariant forall id :: id in deliveries ==> deliveries[id] == old(deliveries)[id]
        invariant forall id :: id in old(deliveries) && id !in todo ==>
                    (id in deliveries <==> old(deliveries)[id].tokenId != tokenId)
        invariant changed <==> deliveries != old(deliveries)
      {
        var id :| id in todo;
        if deliveries[id].tokenId == tokenId {
          deliveries := deliveries - {id};
          changed := true;
        }
        todo := todo - {id};
      }
    }

    /** A whole claim, run without interruption. */
    method ClaimPending(c: Config, rawUser: string, rawId: string, purgeOk: bool, ok: bool, now: int, ghost h: History) returns (o: Outcome)
      modifies this`deliveries, this`file
      ensures var (s', o') := ClaimAlone(c, old(View(Idle, h)), rawUser, rawId, purgeOk, ok, now);
              o == o' && View(Idle, s'.history) == s'
    {
      hide Purge, Trim, FinishAlone;
      var user, id := Trim(rawUser), Trim(rawId);
      if user == "" || id == "" {
        return NotFound;
      }
      ghost var s := View(Idle, h);
      PurgeExpired(c, now, purgeOk);
      PurgeFrame(c, s, now, purgeOk);
      if id !in deliveries || deliveries[id].user != user {
        return NotFound;
      }
      o := FinishClaim(c, deliveries[id], ok, now, h);
    }

    /** The claim from the token check on. */
    method FinishClaim(c: Config, d: Delivery, ok: bool, now: int, ghost h: History) returns (o: Outcome)
      modifies this`deliveries, this`file
      ensures var (s', o') := FinishAlone(c, old(View(Found(d), h)), ok, now);
              o == o' && View(Idle, s'.history) == s'
    {
      hide Key, Trim, Usable;
      var token := tokens.GetAPITokenByID(d.tokenId);
      if token.None? || !Usable(token.value, now) {
        deliveries := deliveries - {d.id};
        var _ := Save(c, ok);
        return NoLongerActive;
      }
      var plain := c.crypto.open(d.ciphertext, Key(c, ephemeralKey), d.nonce);
      if plain.None? {
        return Failed;
      }
      deliveries := deliveries - {d.id};
      ghost var without := View(Idle, h);
      var saved := Save(c, ok);
      assert (View(Idle, h), saved) == SaveDeliveries(c, without, ok);
      if !saved {
        return Failed;
      }
      return Delivered(d.id, plain.value, d.user);
    }

    /** Reads the file back when deliveries are persisted at all. */
    method Load(c: Config, readable: bool, now: int)
      requires forall id :: id in file ==> NormalizeDelivery(file[id]).id == id
      modifies this`deliveries
      ensures deliveries == if c.Persists() && readable then LoadDeliveries(file, now) else map[]
    {
      hide Trim;
      deliveries := map[];
      if !c.Persists() || !readable {
        return;
      }
      var todo := file.Keys;
      while todo != {}
        invariant todo <= file.Keys && deliveries.Keys <= file.Keys - todo
        invariant forall id :: id in file && id !in todo ==>
                    (id in deliveries <==> id != "" && !Expired(file[id], now))
        invariant forall id :: id in deliveries ==> deliveries[id] == NormalizeDelivery(file[id])
      {
        var id :| id in todo;
        var d := NormalizeDelivery(file[id]);
        if d.id != "" && !Expired(d, now) {
          deliveries := deliveries[d.id := d];
        }
        todo := todo - {id};
      }
    }
  }

  /** The steps of a claim, one after the other. */
  function ClaimAlone(c: Config, s: State, rawUser: string, rawId: string, purgeOk: bool, ok: bool, now: int): (State, Outcome) {
    var (s1, o1) := ClaimBegin(c, s, rawUser, rawId, purgeOk, now);
    if !s1.claim.Found? then (s1, o1) else FinishAlone(c, s1, ok, now)
  }

  function FinishAlone(c: Config, s: State, ok: bool, now: int): (State, Outcome)
    requires s.claim.Found?
  {
    var (s', o) := ClaimSave(c, ClaimCheck(s, now), ok);
    if s'.claim.Saved? then ClaimReturn(s') else (s', o)
  }
}
