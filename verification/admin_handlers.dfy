/** The admin handlers as sequences of effects on the two stores (auth/admin.go,
    auth/services_admin.go), each proved to be one step of UserRegistry. */
module AdminHandlers {
  import opened Common
  import opened Text
  import opened ServiceCatalog
  import opened UserRegistry
  import opened UserStores

  datatype Provisioning = Provisioned | AlreadyExists | NotProvisioned

  class Admin {
    const users: UserStore
    const catalog: ServiceStore

    constructor (users: UserStore, catalog: ServiceStore)
      ensures this.users == users && this.catalog == catalog
    {
      this.users, this.catalog := users, catalog;
    }

    ghost predicate Ready()
      reads users, catalog
    {
      users.Valid() && Valid(catalog.urlOk, catalog.services)
    }

    ghost function View(): State
      reads users, users.cache.Values, catalog
    {
      State(catalog.services, users.View())
    }

    ghost function Settings(): Config {
      Config(catalog.urlOk, users.vault)
    }

    lemma CreatedAndDeleted(users: Users, u: User)
      ensures u.name !in users ==> users[u.name := u] - {u.name} == users
    {
    }

    /** Creates the user, then stores the TOTP secret; a failure there deletes the user. */
    method ProvisionUser(u: User, hashed: bool, written: bool, secretStored: bool, undone: bool) returns (r: Provisioning)
      requires users.Valid()
      modifies users
      ensures users.Valid()
      ensures r == (if u.name in old(users.cache) then AlreadyExists
                    else if hashed && written && secretStored then Provisioned else NotProvisioned)
      ensures users.View() == if u.name in old(users.cache) || !hashed || (!written && users.vault) then old(users.View())
                              else if !written || secretStored || !undone then old(users.View())[u.name := u]
                              else old(users.View())
    {
      hide UserStore.View;
      if u.name in users.cache {
        return AlreadyExists;
      }
      CreatedAndDeleted(users.View(), u);
      var created := users.Create(u, hashed, written);
      if !created {
        return NotProvisioned;
      }
      if !secretStored {
        var gone := users.Delete(u.name, undone);
        return NotProvisioned;
      }
      return Provisioned;
    }

    method CreateUserHandler(username: string, rawRole: string, rawNames: seq<string>, now: int, hashed: bool,
                             written: bool, secretStored: bool, undone: bool) returns (reply: Reply)
      requires Ready()
      modifies users
      ensures Ready()
      ensures (View(), reply) == Step(Settings(), old(View()), CreateUser(username, rawRole, rawNames, now, hashed, written, secretStored, undone))
    {
      hide NormalizeAllowed, Clean, UserStore.View;
      if username == "" {
        return BadRequest;
      }
      var role := rawRole;
      if role == "" {
        role := "user";
      }
      var allowed := NormalizeAllowedServices(catalog.services, rawNames);
      var restrict := role != "admin";
      allowed := NormalizeAllowedServices(catalog.services, allowed);
      var u := User(username, role, restrict, allowed, now);
      assert u == NewUser(View(), CreateUser(username, rawRole, rawNames, now, hashed, written, secretStored, undone));
      CreatedAndDeleted(users.View(), u);
      var r := ProvisionUser(u, hashed, written, secretStored, undone);
      return match r case AlreadyExists => Conflict case NotProvisioned => ServerError case Provisioned => Ok;
    }

    method UpdateUserAccessHandler(username: string, names: seq<string>, written: bool) returns (reply: Reply)
      requires Ready()
      modifies users`cache, users.cache.Values
      ensures Ready()
      ensures (View(), reply) == Step(Settings(), old(View()), UpdateAccess(username, names, written))
    {
      hide NormalizeAllowed, Clean;
      if username !in users.cache {
        return NotFound;
      }
      var role := users.GetRole(username);
      if role == "admin" {
        return BadRequest;
      }
      var allowed := NormalizeAllowedServices(catalog.services, names);
      var ok := users.SetAllowedServices(catalog.services, username, allowed, written);
      return if ok then Ok else ServerError;
    }

    method DeleteUserHandler(username: string, written: bool) returns (reply: Reply)
      requires Ready()
      modifies users`cache
      ensures Ready()
      ensures (View(), reply) == Step(Settings(), old(View()), DeleteUser(username, written))
    {
      hide Clean, Protected, UserStore.View;
      var protected := users.IsProtectedAdmin(username);
      if protected {
        return Forbidden;
      }
      var ok := users.Delete(username, written);
      return if ok then Ok else NotFound;
    }

    /** Fills the entry field by field: request over existing over default. */
    method BuildServiceConfig(req: ServiceRequest, existing: Option<Service>) returns (cfg: Option<Service>)
      ensures cfg == Built(catalog.urlOk, req, existing)
    {
      hide NormalizeName, Trim;
      var name := NormalizeName(req.name);
      if existing.Some? && name == "" {
        name := existing.value.name;
      }
      if name == "" {
        return None;
      }
      var baseUrl := Trim(req.baseUrl);
      if baseUrl == "" || !catalog.urlOk(baseUrl) {
        return None;
      }
      var enabled := true;
      if existing.Some? {
        enabled := existing.value.enabled;
      }
      if req.enabled.Some? {
        enabled := req.enabled.value;
      }
      var hasSecret := SecretAfter(req, existing);
      var skipTls, timeoutMs, retryCount := LimitsAfter(req, existing);
      return Some(Service(name, baseUrl, Trim(req.auth), Trim(req.header), Trim(req.basicUser), skipTls,
                          NormalizeName(req.provider), req.openAi, timeoutMs, retryCount, enabled, hasSecret));
    }

    method SecretAfter(req: ServiceRequest, existing: Option<Service>) returns (hasSecret: bool)
      ensures hasSecret == (!req.clearSecret && (Trim(req.secret) != "" || (existing.Some? && existing.value.hasSecret)))
    {
      hasSecret := false;
      if existing.Some? {
        hasSecret := existing.value.hasSecret;
      }
      if Trim(req.secret) != "" {
        hasSecret := true;
      }
      if req.clearSecret {
        hasSecret := false;
      }
    }

    method LimitsAfter(req: ServiceRequest, existing: Option<Service>) returns (skipTls: bool, timeoutMs: int, retryCount: int)
      ensures skipTls == Or(req.skipTls, existing.Some? && existing.value.skipTls)
      ensures timeoutMs == Or(req.timeoutMs, if existing.Some? then existing.value.timeoutMs else 0)
      ensures retryCount == Or(req.retryCount, if existing.Some? then existing.value.retryCount else 0)
    {
      skipTls, timeoutMs, retryCount := false, 0, 0;
      if existing.Some? {
        skipTls, timeoutMs, retryCount := existing.value.skipTls, existing.value.timeoutMs, existing.value.retryCount;
      }
      if req.skipTls.Some? {
        skipTls := req.skipTls.value;
      }
      if req.timeoutMs.Some? {
        timeoutMs := req.timeoutMs.value;
      }
      if req.retryCount.Some? {
        retryCount := req.retryCount.value;
      }
    }

    method CreateServiceHandler(req: ServiceRequest, locked: bool, written: bool, secretStored: bool, undone: bool) returns (reply: Reply)
      requires Ready()
      modifies catalog
      ensures Ready()
      ensures (View(), reply) == Step(Settings(), old(View()), CreateService(req, locked, written, secretStored))
    {
      hide Built, Clean, Valid, NormalizeName, NeedsSecrets, Normalized, Upserted, Lists, UserStore.View;
      var cfg := BuildServiceConfig(req, None);
      if cfg.None? {
        return BadRequest;
      }
      var svc := cfg.value;
      BuiltHasName(catalog.urlOk, req);
      BuiltIsAccepted(catalog.urlOk, req, None);
      NameStable(req.name);
      if svc.name in catalog.services {
        return Conflict;
      }
      if NeedsSecrets(req) && locked {
        return BadRequest;
      }
      var saved := catalog.UpsertService(svc, written);
      if saved != Saved {
        return ServerError;
      }
      if req.secret != "" && !secretStored {
        var deleted := catalog.DeleteService(svc.name, undone);
        return BadRequest;
      }
      return Ok;
    }

    method UpdateServiceHandler(rawName: string, req: ServiceRequest, locked: bool, written: bool, secretStored: bool) returns (reply: Reply)
      requires Ready()
      modifies catalog
      ensures Ready()
      ensures (View(), reply) == Step(Settings(), old(View()), UpdateService(rawName, req, locked, written, secretStored))
    {
      hide Built, Clean, Valid, NormalizeName, NeedsSecrets, Normalized;
      var name := NormalizeName(rawName);
      if name !in catalog.services {
        return NotFound;
      }
      var existing := catalog.services[name];
      var asked := NormalizeName(req.name);
      if asked != "" && asked != name {
        return BadRequest;
      }
      if NeedsSecrets(req) && locked {
        return BadRequest;
      }
      var cfg := BuildServiceConfig(req.(name := name), Some(existing));
      if cfg.None? {
        return BadRequest;
      }
      StoredNameIsUsable(name);
      NameStable(rawName);
      BuiltIsAccepted(catalog.urlOk, req.(name := name), Some(existing));
      var saved := catalog.UpsertService(cfg.value, written);
      if saved != Saved {
        return ServerError;
      }
      if req.clearSecret && !secretStored {
        return BadRequest;
      }
      if req.secret != "" && !secretStored {
        return BadRequest;
      }
      return Ok;
    }

    lemma StoredNameIsUsable(name: string)
      requires Valid(catalog.urlOk, catalog.services) && name in catalog.services
      ensures NormalizeName(name) == name != ""
    {
      hide Clean, NormalizeName;
      CleanNamed(catalog.urlOk, catalog.services[name]);
    }

    method DeleteServiceHandler(rawName: string, locked: bool, secretDeleted: bool, written: bool, usersWritten: bool) returns (reply: Reply)
      requires Ready()
      modifies catalog, users.cache.Values
      ensures Ready()
      ensures (View(), reply) == Step(Settings(), old(View()), DeleteService(rawName, locked, secretDeleted, written, usersWritten))
    {
      hide Clean, Valid, NormalizeName, DropEverywhere;
      var name := NormalizeName(rawName);
      if name !in catalog.services {
        return NotFound;
      }
      var existing := catalog.services[name];
      if existing.hasSecret && locked {
        return BadRequest;
      }
      if existing.hasSecret {
        if !secretDeleted {
          return BadRequest;
        }
      }
      StoredNameIsUsable(name);
      var deleted := catalog.DeleteService(name, written);
      if deleted != Saved {
        return ServerError;
      }
      var ok := users.RemoveAllowedServiceEverywhere(name, usersWritten);
      return if ok then Ok else ServerError;
    }
  }
}
