/** A key from the request that creates it to its validation, over every run. */
module TokenLifetime {
  import opened Common
  import opened Text
  import opened TokenDelivery
  import opened TokenSafety
  import opened TokenValidity

  /** The record that a creation asks for. */
  function AskedToken(c: Config, a: Action): Token
    requires a.DoCreateToken?
  {
    Token(a.id, Trim(a.user), c.crypto.hash(a.raw), a.expiresAt, None)
  }

  /** WHAT A CREATION GIVES. A token is created exactly when the request names a user and
      the file can be written; it is the one asked for. */
  lemma CreatedAsAsked(r: Run, i: nat)
    requires Legal(r) && i < |r.acts| && r.acts[i].DoCreateToken?
    ensures var a := r.acts[i];
            OutcomeAt(r, i) == if a.saved && Trim(a.user) != "" then TokenCreated(a.raw, AskedToken(r.c, a)) else Failed
    ensures OutcomeAt(r, i).TokenCreated? ==>
              var (s, t) := (StateAt(r, i + 1), AskedToken(r.c, r.acts[i]));
              && (r.acts[i].raw, t) in s.history.issued && t.id in s.history.tokenIds
              && t.id in s.tokens && t.id in s.tokensFile
  {
    hide StateAt, Trim;
    var a, s := r.acts[i], StateAt(r, i);
    assert Enabled(r.c, s, a);
    NextState(r, i);
    TrimmedStays(a.id);
    TrimmedStays(r.c.crypto.hash(a.raw));
    TrimmedStays(Trim(a.user));
  }

  lemma TrimmedStays(text: string)
    requires Trimmed(text)
    ensures Trim(text) == text
  {
  }

  // ---- how long it is stored ---------------------------------------------

  /** Every restart from step `i` to step `n` could read the token file. */
  ghost predicate AllRead(r: Run, i: nat, n: nat)
    requires n <= |r.acts|
  {
    forall k :: i <= k < n && r.acts[k].DoRestart? ==> r.acts[k].tokensRead
  }

  predicate Stored(s: State, id: string) {
    id in s.tokens && id in s.tokensFile && id in s.history.tokenIds
  }

  lemma StoredStep(c: Config, s: State, a: Action, id: string)
    requires Inv(c, s) && Enabled(c, s, a) && c.crypto.Sound() && Stored(s, id)
    requires a.DoRestart? ==> a.tokensRead
    ensures Stored(Next(c, s, a).0, id)
  {
    hide Inv, Next, Crypto.Sound, Enabled, Key;
    if !TouchesTokens(a) {
      TokensUntouched(c, s, a);
    } else if a.DoRestart? {
      RestartReads(c, s, a);
    } else {
      StoredByTokens(c, s, a, id);
    }
  }

  lemma RestartReads(c: Config, s: State, a: Action)
    requires a.DoRestart? && a.tokensRead
    ensures var s' := Next(c, s, a).0;
            s'.tokensFile == s.tokensFile && s'.tokens.Keys == s.tokensFile.Keys && s'.history == s.history
  {
    hide NormalizeToken, LoadDeliveries;
  }

  lemma StoredByTokens(c: Config, s: State, a: Action, id: string)
    requires a.DoCreateToken? || a.DoRevokeToken? || a.DoValidate?
    requires Enabled(c, s, a) && Stored(s, id)
    ensures Stored(Next(c, s, a).0, id)
  {
    hide Trim, Matches, Usable;
    if a.DoCreateToken? {
      TrimmedStays(a.id);
    }
  }

  /** A token stays stored as long as restarts can read the file, whatever else fails. */
  lemma {:induction false} StaysStored(r: Run, i: nat, n: nat)
    requires Legal(r) && i < n <= |r.acts| && AllRead(r, i, n)
    requires r.acts[i].DoCreateToken? && OutcomeAt(r, i).TokenCreated?
    ensures Stored(StateAt(r, n), r.acts[i].id)
    decreases n
  {
    hide StateAt, Next, Inv, Crypto.Sound, Enabled;
    if n == i + 1 {
      CreatedAsAsked(r, i);
    } else {
      StaysStored(r, i, n - 1);
      InvAt(r, n - 1);
      NextState(r, n - 1);
      StoredStep(r.c, StateAt(r, n - 1), r.acts[n - 1], r.acts[i].id);
    }
  }

  /** FROM CREATION TO VALIDATION. As long as restarts can read the file, a key that was
      handed out answers with the user and the expiry it was asked for, exactly until it
      expires or a revocation of it is in effect. */
  lemma CreatedKeyIsValidExactlyWhen(r: Run, i: nat, n: nat)
    requires Legal(r) && i < n < |r.acts| && AllRead(r, i, n)
    requires r.acts[i].DoCreateToken? && OutcomeAt(r, i).TokenCreated?
    requires r.acts[n].DoValidate? && Trim(r.acts[n].raw) == r.acts[i].raw
    ensures var (created, now) := (r.acts[i], r.acts[n].now);
            OutcomeAt(r, n) == (
              if !InEffect(r, n, created.id) && (created.expiresAt.None? || now <= created.expiresAt.value)
              then Valid(Token(created.id, Trim(created.user), r.c.crypto.hash(created.raw), created.expiresAt, None))
              else Invalid)
  {
    hide StateAt, Inv, Next, Enabled, Crypto.Sound, InEffect, Trim, AllRead;
    CreatedAsAsked(r, i);
    StaysStored(r, i, n);
    IssuedStays(r, i + 1, n);
    ValidExactlyWhen(r, n, r.acts[i].raw, AskedToken(r.c, r.acts[i]));
  }

  /** Every issued token goes back to the creation that asked for it. */
  lemma {:induction false} IssuedWasAsked(r: Run, n: nat, key: string, t: Token)
    requires Legal(r) && n <= |r.acts| && (key, t) in StateAt(r, n).history.issued
    ensures exists i :: 0 <= i < n && Asks(r, i, key, t)
    decreases n
  {
    hide StateAt, Next, Enabled, Crypto.Sound, Asks;
    if n == 0 {
      NothingIssued(r);
    } else {
      NextState(r, n - 1);
      if (key, t) in StateAt(r, n - 1).history.issued {
        IssuedWasAsked(r, n - 1, key, t);
      } else {
        IssuedNow(r, n - 1, key, t);
      }
    }
  }

  ghost predicate Asks(r: Run, i: nat, key: string, t: Token)
    requires i < |r.acts|
  {
    r.acts[i].DoCreateToken? && r.acts[i].saved && r.acts[i].raw == key && t == AskedToken(r.c, r.acts[i])
  }

  lemma NothingIssued(r: Run)
    ensures StateAt(r, 0).history.issued == {}
  {
  }

  lemma IssuedNow(r: Run, i: nat, key: string, t: Token)
    requires Legal(r) && i < |r.acts|
    requires (key, t) !in StateAt(r, i).history.issued && (key, t) in Next(r.c, StateAt(r, i), r.acts[i]).0.history.issued
    ensures Asks(r, i, key, t)
  {
    hide StateAt, Next, Crypto.Sound, Enabled;
    IssuedGrows(r.c, StateAt(r, i), r.acts[i]);
    IssuedIsNew(r, i);
  }

  lemma IssuedIsNew(r: Run, i: nat)
    requires Legal(r) && i < |r.acts| && r.acts[i].DoCreateToken?
    ensures var a, s := r.acts[i], StateAt(r, i);
            forall p :: p in Next(r.c, s, a).0.history.issued && p !in s.history.issued ==>
              a.saved && p == (a.raw, AskedToken(r.c, a))
  {
    hide StateAt;
    CreatedAsAsked(r, i);
  }
}
