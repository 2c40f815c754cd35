/** The login tables as the gateway stores them, updated in place, and the three
    handlers over them. Every method is proved against Lockout, ReplayCache,
    Sessions and Login. */
module LoginStore {
  import opened Common
  import Lockout
  import ReplayCache
  import Sessions
  import Login

  class LockoutEntry {
    var failures: nat
    var lockedAt: Option<int>

    constructor ()
      ensures failures == 0 && lockedAt == None
    {
      failures, lockedAt := 0, None;
    }

    ghost function Value(): Lockout.Entry
      reads this
    {
      Lockout.Entry(failures, lockedAt)
    }
  }

  class LockoutStore {
    var lockouts: map<string, LockoutEntry>

    /** No two users share an entry. */
    ghost predicate Valid()
      reads this
    {
      forall u, v :: u in lockouts && v in lockouts && u != v ==> lockouts[u] != lockouts[v]
    }

    ghost function View(): Lockout.Table
      reads this, lockouts.Values
    {
      map user | user in lockouts :: lockouts[user].Value()
    }

    constructor ()
      ensures Valid() && View() == map[] && lockouts == map[]
    {
      lockouts := map[];
    }

    method IsLockedOut(user: string, now: int) returns (locked: bool)
      requires Valid()
      modifies this
      ensures Valid() && lockouts.Values <= old(lockouts.Values)
      ensures (View(), locked) == Lockout.IsLockedOut(old(View()), user, now)
    {
      if user !in lockouts {
        return false;
      }
      var e := lockouts[user];
      if e.lockedAt.Some? && now - e.lockedAt.value < Lockout.LOCKOUT_DURATION {
        return true;
      }
      if e.lockedAt.Some? {
        ghost var before := View();
        lockouts := lockouts - {user};
        assert View() == before - {user};
      }
      return false;
    }

    method RecordFailure(user: string, now: int)
      requires Valid()
      modifies this, lockouts.Values
      ensures Valid() && fresh(lockouts.Values - old(lockouts.Values))
      ensures View() == Lockout.RecordFailure(old(View()), user, now)
    {
      ghost var before := View();
      var e: LockoutEntry;
      if user in lockouts {
        e := lockouts[user];
      } else {
        e := new LockoutEntry();
        lockouts := lockouts[user := e];
      }
      e.failures := e.failures + 1;
      if e.failures >= Lockout.MAX_FAILED_ATTEMPTS {
        e.lockedAt := Some(now);
      }
      assert View() == before[user := e.Value()];
    }

    method ClearFailures(user: string)
      requires Valid()
      modifies this
      ensures Valid() && lockouts.Values <= old(lockouts.Values)
      ensures View() == Lockout.ClearFailures(old(View()), user)
    {
      lockouts := lockouts - {user};
    }

    method Sweep(now: int)
      requires Valid()
      modifies this
      ensures Valid() && lockouts.Values <= old(lockouts.Values)
      ensures View() == Lockout.Swept(old(View()), now)
    {
      var todo := lockouts.Keys;
      while todo != {}
        invariant todo <= lockouts.Keys <= old(lockouts).Keys
        invariant forall user :: user in lockouts ==> lockouts[user] == old(lockouts)[user]
        invariant forall user :: user in old(lockouts) && user !in todo
                    ==> (user in lockouts <==> !Lockout.Expired(old(View())[user], now))
      {
        var user :| user in todo;
        var e := lockouts[user];
        if e.lockedAt.Some? && now - e.lockedAt.value >= Lockout.LOCKOUT_DURATION {
          lockouts := lockouts - {user};
        }
        todo := todo - {user};
      }
    }
  }

  class ReplayStore {
    var usedCodes: map<string, map<string, int>>

    constructor ()
      ensures usedCodes == map[]
    {
      usedCodes := map[];
    }

    /** Drops the codes whose expiry has passed. */
    static method Purge(codes: map<string, int>, now: int) returns (kept: map<string, int>)
      ensures kept == ReplayCache.Purged(codes, now)
    {
      kept := codes;
      var todo := codes.Keys;
      while todo != {}
        invariant todo <= kept.Keys <= codes.Keys
        invariant forall code :: code in kept ==> kept[code] == codes[code]
        invariant forall code :: code in codes && code !in todo ==> (code in kept <==> !(now > codes[code]))
      {
        var code :| code in todo;
        if now > codes[code] {
          kept := kept - {code};
        }
        todo := todo - {code};
      }
    }

    method ValidateTOTP(user: string, code: string, valid: bool, now: int) returns (accepted: bool)
      modifies this
      ensures (usedCodes, accepted) == ReplayCache.ValidateTOTP(old(usedCodes), user, code, valid, now)
    {
      if !valid {
        return false;
      }
      var codes := if user in usedCodes then usedCodes[user] else map[];
      codes := Purge(codes, now);
      usedCodes := usedCodes[user := codes];
      if code in codes {
        return false;
      }
      codes := codes[code := now + ReplayCache.CODE_LIFETIME];
      usedCodes := usedCodes[user := codes];
      assert usedCodes == old(usedCodes)[user := codes];
      return true;
    }

    method Sweep(now: int)
      modifies this
      ensures usedCodes == ReplayCache.Swept(old(usedCodes), now)
    {
      var todo := usedCodes.Keys;
      while todo != {}
        invariant todo <= usedCodes.Keys <= old(usedCodes).Keys
        invariant forall user :: user in todo ==> usedCodes[user] == old(usedCodes)[user]
        invariant forall user :: user in old(usedCodes) && user !in todo ==>
                    var kept := ReplayCache.Purged(old(usedCodes)[user], now);
                    if kept == map[] then user !in usedCodes else user in usedCodes && usedCodes[user] == kept
      {
        var user :| user in todo;
        var codes := Purge(usedCodes[user], now);
        if |codes| == 0 {
          assert codes == map[];
          usedCodes := usedCodes - {user};
        } else {
          usedCodes := usedCodes[user := codes];
        }
        todo := todo - {user};
      }
    }
  }

  class SessionStore {
    var challenges: Sessions.Table
    var sessions: Sessions.Table

    constructor ()
      ensures challenges == map[] && sessions == map[]
    {
      challenges, sessions := map[], map[];
    }

    method NewChallenge(user: string, token: string, now: int)
      modifies this`challenges
      ensures challenges == Sessions.Insert(old(challenges), token, user, now + Sessions.CHALLENGE_TTL)
    {
      challenges := challenges[token := Sessions.Entry(user, now + 5 * MINUTE)];
    }

    method PeekChallenge(id: string, now: int) returns (user: Option<string>)
      modifies this`challenges
      ensures (challenges, user) == Sessions.Lookup(old(challenges), id, now)
    {
      if id !in challenges || now > challenges[id].expires {
        challenges := challenges - {id};
        return None;
      }
      return Some(challenges[id].user);
    }

    method ConsumeChallenge(id: string)
      modifies this`challenges
      ensures challenges == Sessions.Remove(old(challenges), id)
    {
      challenges := challenges - {id};
    }

    method NewSession(user: string, token: string, now: int, ttl: int)
      modifies this`sessions
      ensures sessions == Sessions.Insert(old(sessions), token, user, now + ttl)
    {
      sessions := sessions[token := Sessions.Entry(user, now + ttl)];
    }

    method ValidateSession(token: string, now: int) returns (user: Option<string>)
      modifies this`sessions
      ensures (sessions, user) == Sessions.Lookup(old(sessions), token, now)
    {
      if token !in sessions || now > sessions[token].expires {
        sessions := sessions - {token};
        return None;
      }
      return Some(sessions[token].user);
    }

    method DeleteSession(token: string)
      modifies this`sessions
      ensures sessions == Sessions.Remove(old(sessions), token)
    {
      sessions := sessions - {token};
    }

    static method DropExpired(t: Sessions.Table, now: int) returns (kept: Sessions.Table)
      ensures kept == Sessions.Swept(t, now)
    {
      kept := t;
      var todo := t.Keys;
      while todo != {}
        invariant todo <= kept.Keys <= t.Keys
        invariant forall id :: id in kept ==> kept[id] == t[id]
        invariant forall id :: id in t && id !in todo ==> (id in kept <==> !(now > t[id].expires))
      {
        var id :| id in todo;
        if now > t[id].expires {
          kept := kept - {id};
        }
        todo := todo - {id};
      }
    }

    method SweepExpired(now: int)
      modifies this
      ensures challenges == Sessions.Swept(old(challenges), now)
      ensures sessions == Sessions.Swept(old(sessions), now)
    {
      challenges := DropExpired(challenges, now);
      sessions := DropExpired(sessions, now);
    }
  }

  /** The handlers of auth/handlers.go. */
  class AuthHandlers {
    const lockouts: LockoutStore
    const replay: ReplayStore
    const store: SessionStore

    constructor ()
      ensures lockouts.Valid() && View() == Login.EMPTY
      ensures fresh(lockouts) && fresh(replay) && fresh(store)
    {
      lockouts := new LockoutStore();
      replay := new ReplayStore();
      store := new SessionStore();
    }

    ghost function View(): Login.State
      reads lockouts, lockouts.lockouts.Values, replay, store
    {
      Login.State(store.challenges, store.sessions, lockouts.View(), replay.usedCodes)
    }

    method LoginHandler(user: string, passwordOk: bool, token: string, now: int) returns (reply: Login.Reply)
      requires lockouts.Valid()
      modifies lockouts, lockouts.lockouts.Values, store
      ensures lockouts.Valid()
      ensures (View(), reply) == Login.LoginStep(old(View()), user, passwordOk, token, now)
    {
      var locked := lockouts.IsLockedOut(user, now);
      if locked {
        return Login.Locked;
      }
      if !passwordOk {
        lockouts.RecordFailure(user, now);
        return Login.BadCredentials(user);
      }
      store.NewChallenge(user, token, now);
      return Login.Challenge(user, token);
    }

    method VerifyHandler(challenge: string, code: string, hasSecret: bool, valid: bool, token: string, now: int, ttl: int)
      returns (reply: Login.Reply)
      requires lockouts.Valid()
      modifies lockouts, lockouts.lockouts.Values, replay, store
      ensures lockouts.Valid()
      ensures (View(), reply) == Login.VerifyStep(old(View()), challenge, code, hasSecret, valid, token, now, ttl)
    {
      hide Lockout.IsLockedOut, Lockout.RecordFailure, Lockout.ClearFailures, Sessions.Lookup, Sessions.Insert,
           Sessions.Remove, ReplayCache.ValidateTOTP, LockoutStore.Valid, LockoutStore.View;
      var peeked := store.PeekChallenge(challenge, now);
      if peeked.None? {
        return Login.NoChallenge;
      }
      var user := peeked.value;
      var locked := lockouts.IsLockedOut(user, now);
      if locked {
        return Login.Locked;
      }
      if !hasSecret {
        return Login.NoSecret;
      }
      var accepted := replay.ValidateTOTP(user, code, valid, now);
      if !accepted {
        lockouts.RecordFailure(user, now);
        return Login.BadCode(user);
      }
      store.ConsumeChallenge(challenge);
      lockouts.ClearFailures(user);
      store.NewSession(user, token, now, ttl);
      return Login.LoggedIn(user, token);
    }

    method LogoutHandler(session: string, now: int, ttl: int) returns (reply: Login.Reply)
      requires lockouts.Valid()
      modifies store
      ensures lockouts.Valid()
      ensures (View(), reply) == Login.Step(old(View()), Login.Logout(session, now), ttl)
    {
      store.DeleteSession(session);
      return Login.LoggedOut;
    }
  }
}
