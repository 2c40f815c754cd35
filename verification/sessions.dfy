/** Challenges and sessions of auth/session.go: two tables of expiring entries. */
module Sessions {
  import opened Common

  datatype Entry = Entry(user: string, expires: int)

  type Table = map<string, Entry>

  const CHALLENGE_TTL := 5 * MINUTE

  predicate Live(t: Table, id: string, now: int) {
    id in t && !(now > t[id].expires)
  }

  function Insert(t: Table, id: string, user: string, expires: int): Table {
    t[id := Entry(user, expires)]
  }

  /** PeekChallenge and ValidateSession: the user of a live entry; a dead one is dropped. */
  function Lookup(t: Table, id: string, now: int): (Table, Option<string>) {
    if Live(t, id, now) then (t, Some(t[id].user)) else (t - {id}, None)
  }

  function Remove(t: Table, id: string): Table {
    t - {id}
  }

  function Swept(t: Table, now: int): Table {
    map id | id in t && !(now > t[id].expires) :: t[id]
  }

  // ---- what a sweep can change -------------------------------------------

  ghost function Current(t: Table, now: int): Table {
    Swept(t, now)
  }

  lemma SweepInvisible(t: Table, sweepAt: int, now: int)
    requires sweepAt <= now
    ensures Current(Swept(t, sweepAt), now) == Current(t, now)
  {
  }

  lemma CurrentLater(t: Table, u: Table, now: int, later: int)
    requires Current(t, now) == Current(u, now) && now <= later
    ensures Current(t, later) == Current(u, later)
  {
    assert Current(Current(t, now), later) == Current(t, later);
    assert Current(Current(u, now), later) == Current(u, later);
  }

  lemma LookupSeesCurrent(t: Table, id: string, now: int)
    ensures Lookup(t, id, now).1 == (if id in Current(t, now) then Some(Current(t, now)[id].user) else None)
    ensures Current(Lookup(t, id, now).0, now) == Current(t, now)
  {
  }

  lemma ChangesSeeCurrent(t: Table, id: string, user: string, expires: int, now: int)
    ensures Current(Remove(t, id), now) == Remove(Current(t, now), id)
    ensures now <= expires ==> Current(Insert(t, id, user, expires), now) == Insert(Current(t, now), id, user, expires)
  {
  }
}
