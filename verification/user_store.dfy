/** The user store and the admin handlers as they run: user records shared by reference
    and updated in place, maps reassigned, effects in the order the code has them. Every
    method is proved against the steps of UserRegistry. */
module UserStores {
  import opened Common
  import opened Text
  import opened ServiceCatalog
  import opened UserRegistry

  class Record {
    const name: string
    const role: string
    const createdAt: int
    var configured: bool
    var allowed: seq<string>

    constructor (u: User)
      ensures Value() == u && name == u.name && role == u.role && createdAt == u.createdAt
    {
      name, role, createdAt := u.name, u.role, u.createdAt;
      configured, allowed := u.configured, u.allowed;
    }

    function Value(): User
      reads this
    {
      User(name, role, configured, allowed, createdAt)
    }

    /** Rebuilds the list without one service, in place. */
    method Drop(service: string) returns (changed: bool)
      modifies this`allowed
      ensures Value() == old(Value()).(allowed := DropName(old(allowed), service))
      ensures changed <==> allowed != old(allowed)
    {
      hide NormalizeName;
      var next := [];
      changed := false;
      for i := 0 to |allowed|
        invariant allowed == old(allowed) && next == DropName(allowed[..i], service)
        invariant |next| <= i && (changed <==> |next| < i) && (!changed ==> next == allowed[..i])
      {
        assert allowed[..i + 1][..i] == allowed[..i];
        if NormalizeName(allowed[i]) == service {
          changed := true;
          continue;
        }
        next := next + [allowed[i]];
      }
      assert allowed[..|allowed|] == allowed;
      if !changed {
        return;
      }
      allowed := next;
    }

    /** One user's turn when a service is dropped everywhere. */
    method DropIfRestricted(service: string) returns (changed: bool)
      modifies this`allowed
      ensures Value() == DropFrom(old(Value()), service) && (changed <==> Value() != old(Value()))
    {
      hide DropName;
      changed := false;
      if role != "admin" && configured {
        changed := Drop(service);
      }
    }
  }

  class UserStore {
    const vault: bool
    var cache: map<string, Record>

    ghost predicate Valid()
      reads this
    {
      && (forall name :: name in cache ==> cache[name].name == name)
    }

    ghost function View(): (users: Users)
      reads this, cache.Values
      ensures users.Keys == cache.Keys
    {
      map name | name in cache :: cache[name].Value()
    }

    constructor (vault: bool)
      ensures Valid() && View() == map[] && this.vault == vault && cache == map[]
    {
      this.vault, cache := vault, map[];
    }

    method Create(u: User, hashed: bool, written: bool) returns (ok: bool)
      requires Valid()
      modifies this
      ensures Valid()
      ensures forall name :: name in cache ==> if name in old(cache) then cache[name] == old(cache)[name] else fresh(cache[name])
      ensures ok == (u.name !in old(cache) && hashed && written)
      ensures View() == if u.name !in old(cache) && hashed && (written || !vault) then old(View())[u.name := u] else old(View())
    {
      hide View;
      if u.name in cache {
        return false;
      }
      if !hashed {
        return false;
      }
      var r := new Record(u);
      ok := Persist(r, written);
      if !ok {
        return;
      }
      File(r);
      PutTwice(old(View()), u);
    }

    /** The cache holds the record under its name. */
    method File(r: Record)
      requires Valid()
      modifies this`cache
      ensures Valid() && cache == old(cache)[r.name := r]
      ensures View() == old(View())[r.name := r.Value()]
    {
      cache := cache[r.name := r];
    }

    lemma PutTwice(users: Users, u: User)
      ensures users[u.name := u][u.name := u] == users[u.name := u]
    {
    }

    /** In file mode the cache is updated before the file is written. */
    method Persist(r: Record, written: bool) returns (ok: bool)
      requires Valid()
      modifies this`cache
      ensures Valid() && ok == written
      ensures cache == if vault then old(cache) else old(cache)[r.name := r]
      ensures View() == if vault then old(View()) else old(View())[r.name := r.Value()]
    {
      hide View;
      if !vault {
        File(r);
      }
      return written;
    }

    /** The cache changes only if the write succeeds, in either mode. */
    method Delete(username: string, written: bool) returns (ok: bool)
      requires Valid()
      modifies this`cache
      ensures Valid() && ok == (username in old(cache) && written)
      ensures cache == if ok then old(cache) - {username} else old(cache)
      ensures View() == if ok then old(View()) - {username} else old(View())
    {
      if username !in cache {
        return false;
      }
      var u := cache[username];
      if vault {
        if !written {
          return false;
        }
        cache := cache - {username};
        return true;
      }
      cache := cache - {username};
      if !written {
        cache := cache[username := u];
        return false;
      }
      return true;
    }

    method SetAllowedServices(services: Services, username: string, names: seq<string>, written: bool) returns (ok: bool)
      requires Valid()
      modifies this`cache, cache.Values
      ensures Valid() && cache == old(cache) && ok == (username in cache && written)
      ensures View() == if username !in old(cache) then old(View())
                        else old(View())[username := old(View())[username].(configured := true, allowed := NormalizeAllowed(services, names))]
    {
      hide NormalizeAllowed;
      if username !in cache {
        return false;
      }
      var u := cache[username];
      u.configured := true;
      u.allowed := NormalizeAllowedServices(services, names);
      ghost var before := cache;
      ok := Persist(u, written);
      assert cache == before;
    }

    method GetRole(username: string) returns (role: string)
      requires Valid()
      ensures role == if username in cache then View()[username].role else ""
    {
      return if username in cache then cache[username].role else "";
    }

    method CanAccessService(username: string, service: string) returns (may: bool)
      requires Valid()
      ensures may == CanAccess(View(), username, service)
    {
      if username !in cache {
        return false;
      }
      var u := cache[username];
      if u.role == "admin" {
        return true;
      }
      if !u.configured {
        return true;
      }
      for i := 0 to |u.allowed|
        invariant forall j :: 0 <= j < i ==> u.allowed[j] != service
      {
        if u.allowed[i] == service {
          return true;
        }
      }
      return false;
    }

    /** Drops the service from each restricted user, in whatever order the map gives
        them; memory changes before anything is written. */
    method RemoveAllowedServiceEverywhere(rawService: string, written: bool) returns (ok: bool)
      requires Valid()
      modifies cache.Values
      ensures NormalizeName(rawService) == "" ==> ok && View() == old(View())
      ensures NormalizeName(rawService) != "" ==> View() == DropEverywhere(old(View()), NormalizeName(rawService))
      ensures ok == (written || View() == old(View()))
    {
      hide NormalizeName, DropFrom;
      var service := NormalizeName(rawService);
      if service == "" {
        return true;
      }
      ghost var before := View();
      var changed := false;
      var todo := cache.Keys;
      while todo != {}
        invariant todo <= cache.Keys
        invariant forall name :: name in cache ==>
                    cache[name].Value() == if name in todo then before[name] else DropFrom(before[name], service)
        invariant changed <==> exists name :: name in cache && name !in todo && DropFrom(before[name], service) != before[name]
      {
        var name :| name in todo;
        var u := cache[name];
        todo := todo - {name};
        OnlyOwnRecord(name);
        var dropped := u.DropIfRestricted(service);
        changed := changed || dropped;
      }
      DropChanges(before, service);
      assert View() == DropEverywhere(before, service);
      if !changed {
        return true;
      }
      return written;
    }

    lemma DropChanges(users: Users, service: string)
      ensures DropEverywhere(users, service) != users <==> exists name :: name in users && DropFrom(users[name], service) != users[name]
    {
      hide DropFrom;
      if name :| name in users && DropFrom(users[name], service) != users[name] {
        assert DropEverywhere(users, service)[name] != users[name];
      }
    }

    lemma OnlyOwnRecord(name: string)
      requires Valid() && name in cache
      ensures forall other :: other in cache && other != name ==> cache[other] != cache[name]
    {
    }

    /** Scans the admins in whatever order the map gives them. */
    method IsProtectedAdmin(rawName: string) returns (protected: bool)
      requires Valid()
      ensures protected == Protected(View(), rawName)
    {
      hide Trim, Less;
      var username := Trim(rawName);
      if username == "" {
        return false;
      }
      var first: Option<Record> := None;
      var todo := cache.Keys;
      while todo != {}
        invariant todo <= cache.Keys
        invariant first.None? ==> forall name :: name in cache && name !in todo ==> cache[name].role != "admin"
        invariant first.Some? ==> FirstAmong(View(), cache.Keys - todo, first.value.name) && cache[first.value.name] == first.value
      {
        var name :| name in todo;
        var user := cache[name];
        todo := todo - {name};
        if user.role != "admin" {
          continue;
        }
        if first.Some? {
          FirstOfTwo(View(), cache.Keys - todo - {name}, first.value.name, name);
        }
        if first.None? || user.createdAt < first.value.createdAt
           || (user.createdAt == first.value.createdAt && Less(user.name, first.value.name)) {
          first := Some(user);
        }
      }
      assert cache.Keys - {} == cache.Keys == View().Keys;
      FirstDecides(View(), first.Some?, if first.Some? then first.value.name else "", username);
      return first.Some? && first.value.name == username;
    }
  }

  /** One more admin in the scan: the earlier of it and the first so far is first. */
  lemma FirstOfTwo(users: Users, seen: set<string>, p: string, q: string)
    requires Named(users) && FirstAmong(users, seen, p) && q in users && users[q].role == "admin" && q !in seen
    ensures FirstAmong(users, seen + {q}, if Earlier(users[q], users[p]) then q else p)
  {
    hide Earlier;
    EarlierOrder(users[q], users[p], users[q]);
    forall r | r in seen && r in users && r != p && users[r].role == "admin"
      ensures Earlier(users[q], users[p]) ==> Earlier(users[q], users[r])
    {
      EarlierOrder(users[q], users[p], users[r]);
    }
  }

  /** The scan's answer does not depend on its order. */
  lemma FirstDecides(users: Users, found: bool, p: string, username: string)
    requires Named(users)
    requires !found ==> forall name :: name in users ==> users[name].role != "admin"
    requires found ==> FirstAmong(users, users.Keys, p)
    ensures FirstAdmin(users, username) <==> found && p == username
  {
    hide Earlier;
    if found {
      assert FirstAdmin(users, p);
      if FirstAdmin(users, username) {
        FirstAdminUnique(users, p, username);
      }
    }
  }
}
