/** What an admin gets: after each kind of request, the catalogue and the users hold what
    the request asked for, told from the request and not from how it is cleaned. */
module AdminOutcomes {
  import opened Common
  import opened Text
  import opened ServiceCatalog
  import opened UserRegistry

  // ---- services ----------------------------------------------------------

  /** The service a request is about. */
  function Subject(a: Action): string
    requires a.CreateService? || a.UpdateService? || a.DeleteService?
  {
    NormalizeName(if a.CreateService? then a.req.name else a.rawName)
  }

  /** The entry that an update starts from. */
  function Existing(s: State, a: Action): Option<Service>
    requires a.CreateService? || a.UpdateService?
  {
    if a.UpdateService? && Subject(a) in s.services then Some(s.services[Subject(a)]) else None
  }

  predicate Keeps(services: Services, after: Services, name: string) {
    && after.Keys == services.Keys + {name}
    && forall other :: other in services && other != name ==> after[other] == services[other]
  }

  const AUTH_TYPES := ["none", "bearer", "x-api-key", "custom-header", "basic"]

  /** The number itself if it is in range, and the nearest bound or the default if not. */
  predicate InRange(stored: int, asked: int, low: int, high: int, tooLow: int) {
    stored == if asked < low then tooLow else if asked > high then high else asked
  }

  predicate AuthAsAsked(svc: Service, req: ServiceRequest) {
    && (Trim(req.auth) in AUTH_TYPES ==> svc.auth == Trim(req.auth)) && (Trim(req.auth) !in AUTH_TYPES ==> svc.auth == "none")
    && (Trim(req.header) != "" ==> svc.header == Trim(req.header))
    && (Trim(req.header) == "" && svc.auth == "x-api-key" ==> svc.header == "X-API-Key")
    && (Trim(req.header) == "" && svc.auth == "custom-header" ==> svc.header == "Authorization")
    && svc.basicUser == Trim(req.basicUser)
  }

  predicate BoundsAsAsked(svc: Service, req: ServiceRequest, existing: Option<Service>) {
    && (req.timeoutMs.Some? ==> InRange(svc.timeoutMs, req.timeoutMs.value, 1, 120000, 10000))
    && (req.timeoutMs.None? ==> svc.timeoutMs == if existing.Some? then existing.value.timeoutMs else 10000)
    && (req.retryCount.Some? ==> InRange(svc.retryCount, req.retryCount.value, 0, 3, 0))
    && (req.retryCount.None? ==> svc.retryCount == if existing.Some? then existing.value.retryCount else 0)
  }

  /** What is stored is what was asked for, field by field; what the request leaves out is
      as it was, or a default. */
  predicate AsAsked(svc: Service, name: string, req: ServiceRequest, existing: Option<Service>) {
    && svc.name == name && svc.baseUrl == Trim(req.baseUrl) && svc.provider == NormalizeName(req.provider) && svc.openAi == req.openAi
    && (req.enabled.Some? ==> svc.enabled == req.enabled.value)
    && (req.enabled.None? ==> svc.enabled == (existing.None? || existing.value.enabled))
    && (req.skipTls.Some? ==> svc.skipTls == req.skipTls.value)
    && (req.skipTls.None? ==> svc.skipTls == (existing.Some? && existing.value.skipTls))
    && (svc.hasSecret <==> !req.clearSecret && (Trim(req.secret) != "" || (existing.Some? && existing.value.hasSecret)))
    && AuthAsAsked(svc, req) && BoundsAsAsked(svc, req, existing)
  }

  lemma CleanBounds(urlOk: UrlCheck, svc: Service)
    requires Clean(urlOk, svc)
    ensures CleanTimeout(svc.timeoutMs) == svc.timeoutMs && CleanRetries(svc.retryCount) == svc.retryCount
  {
    hide NormalizeName, Trim, CleanAuth, CleanHeader;
  }

  lemma CleanedAuth(auth: string, header: string)
    ensures auth in AUTH_TYPES ==> CleanAuth(auth) == auth
    ensures auth !in AUTH_TYPES ==> CleanAuth(auth) == "none"
    ensures header != "" ==> CleanHeader(CleanAuth(auth), header) == header
    ensures header == "" && CleanAuth(auth) == "x-api-key" ==> CleanHeader(CleanAuth(auth), header) == "X-API-Key"
    ensures header == "" && CleanAuth(auth) == "custom-header" ==> CleanHeader(CleanAuth(auth), header) == "Authorization"
  {
  }

  lemma CleanedBounds(stored: Service, asked: Service, req: ServiceRequest, existing: Option<Service>)
    requires stored.timeoutMs == CleanTimeout(asked.timeoutMs) && stored.retryCount == CleanRetries(asked.retryCount)
    requires asked.timeoutMs == Or(req.timeoutMs, if existing.Some? then existing.value.timeoutMs else 0)
    requires asked.retryCount == Or(req.retryCount, if existing.Some? then existing.value.retryCount else 0)
    requires existing.Some? ==> CleanTimeout(existing.value.timeoutMs) == existing.value.timeoutMs
    requires existing.Some? ==> CleanRetries(existing.value.retryCount) == existing.value.retryCount
    ensures BoundsAsAsked(stored, req, existing)
  {
  }

  /** Cleaning an entry that was built from a request. */
  lemma BuiltAsAsked(urlOk: UrlCheck, name: string, req: ServiceRequest, existing: Option<Service>)
    requires name == NormalizeName(req.name) != "" && Built(urlOk, req, existing).Some?
    requires existing.Some? ==> Clean(urlOk, existing.value)
    ensures var built := Normalized(urlOk, Built(urlOk, req, existing).value);
            built.Some? && AsAsked(built.value, name, req, existing)
  {
    hide NormalizeName, Trim, Clean, CleanAuth, CleanHeader, CleanTimeout, CleanRetries, BoundsAsAsked;
    if existing.Some? {
      CleanBounds(urlOk, existing.value);
    }
    NameStable(req.name);
    NameStable(req.provider);
    TrimStable(req.baseUrl);
    TrimStable(req.header);
    TrimStable(req.basicUser);
    CleanedAuth(Trim(req.auth), Trim(req.header));
    var asked := Built(urlOk, req, existing).value;
    CleanedBounds(Normalized(urlOk, asked).value, asked, req, existing);
  }

  lemma RenamedAsAsked(svc: Service, name: string, req: ServiceRequest, existing: Option<Service>)
    requires AsAsked(svc, name, req.(name := name), existing)
    ensures AsAsked(svc, name, req, existing)
  {
    hide Trim, NormalizeName, InRange;
  }

  /** A SERVICE AS ASKED. When a creation or an update is answered Ok, or only the write
      failed, the catalogue holds the service as the request has it; every other service,
      and every user, is as before. */
  lemma ServiceAsAsked(c: Config, s: State, a: Action)
    requires WellFormed(c, s) && (a.CreateService? || a.UpdateService?)
    requires Step(c, s, a).1 == Ok || Step(c, s, a).1 == ServerError
    ensures var after := Step(c, s, a).0;
            && after.users == s.users && Keeps(s.services, after.services, Subject(a))
            && (a.CreateService? ==> Subject(a) !in s.services) && (a.UpdateService? ==> Subject(a) in s.services)
            && AsAsked(after.services[Subject(a)], Subject(a), a.req, Existing(s, a))
  {
    hide NormalizeName, Built, Normalized, Clean, NeedsSecrets, AsAsked, Named;
    var name := Subject(a);
    if a.CreateService? {
      BuiltHasName(c.urlOk, a.req);
      BuiltAsAsked(c.urlOk, name, a.req, None);
      BuiltIsAccepted(c.urlOk, a.req, None);
    } else {
      NameStable(a.rawName);
      var req := a.req.(name := name);
      KnownIsNamed(c, s, name);
      BuiltAsAsked(c.urlOk, name, req, Some(s.services[name]));
      BuiltIsAccepted(c.urlOk, req, Some(s.services[name]));
      RenamedAsAsked(Step(c, s, a).0.services[name], name, a.req, Some(s.services[name]));
    }
  }

  lemma KnownIsNamed(c: Config, s: State, name: string)
    requires WellFormed(c, s) && name in s.services
    ensures NormalizeName(name) == name != "" && Clean(c.urlOk, s.services[name])
  {
    hide NormalizeName, Trim, CleanAuth, CleanHeader, CleanTimeout, CleanRetries, Named;
  }

  /** When a creation or an update is answered Ok. */
  lemma ServiceOkExactlyWhen(c: Config, s: State, a: Action)
    requires WellFormed(c, s) && (a.CreateService? || a.UpdateService?)
    ensures Step(c, s, a).1 == Ok <==>
              && Trim(a.req.baseUrl) != "" && c.urlOk(Trim(a.req.baseUrl)) && Subject(a) != ""
              && (if a.CreateService? then Subject(a) !in s.services
                  else Subject(a) in s.services && NormalizeName(a.req.name) in ["", Subject(a)])
              && (Trim(a.req.secret) != "" || a.req.clearSecret ==> !a.locked)
              && a.written && (a.req.secret != "" || (a.UpdateService? && a.req.clearSecret) ==> a.secretStored)
  {
    hide NormalizeName, Trim, Normalized, Clean, Named;
    if a.UpdateService? && Subject(a) in s.services {
      KnownIsNamed(c, s, Subject(a));
      NameStable(a.rawName);
    }
  }

  /** A SERVICE DELETED. A deletion that is answered Ok, or in which only a write failed,
      removes the service from memory, leaves every other as it was, and takes no one's
      access to any other service. */
  lemma ServiceGone(c: Config, s: State, a: Action)
    requires WellFormed(c, s) && a.DeleteService? && (Step(c, s, a).1 == Ok || Step(c, s, a).1 == ServerError)
    ensures var after := Step(c, s, a).0;
            && Subject(a) in s.services && after.services == s.services - {Subject(a)} && after.users.Keys == s.users.Keys
            && forall user, x :: NormalizeName(x) == x && x != Subject(a) ==> (CanAccess(after.users, user, x) <==> CanAccess(s.users, user, x))
  {
    hide NormalizeName, Clean, DropName;
    var after, name := Step(c, s, a).0, Subject(a);
    forall user, x | NormalizeName(x) == x && x != name
      ensures CanAccess(after.users, user, x) <==> CanAccess(s.users, user, x)
    {
      if user in s.users {
        DropNameMembers(s.users[user].allowed, name);
      }
    }
  }

  /** Some user lists the service. */
  ghost predicate ListedBySome(users: Users, name: string) {
    exists user :: user in users && Lists(users[user], name)
  }

  /** The user is restricted and has an entry for the service. */
  ghost predicate Lists(u: User, name: string) {
    u.role != "admin" && u.configured && exists x :: x in u.allowed && NormalizeName(x) == name
  }

  lemma DropsListers(users: Users, name: string)
    ensures DropEverywhere(users, name) != users <==> ListedBySome(users, name)
  {
    hide DropFrom, Lists;
    forall user | user in users ensures DropFrom(users[user], name) != users[user] <==> Lists(users[user], name) {
      DropsLister(users[user], name);
    }
    if !ListedBySome(users, name) {
      assert DropEverywhere(users, name) == users;
    }
    if user :| user in users && Lists(users[user], name) {
      assert DropEverywhere(users, name)[user] == DropFrom(users[user], name);
    }
  }

  lemma DropsLister(u: User, name: string)
    ensures DropFrom(u, name) != u <==> Lists(u, name)
  {
    hide NormalizeName, DropName;
    DropNameMembers(u.allowed, name);
    if forall x :: x in u.allowed ==> NormalizeName(x) != name {
      DropsNone(u.allowed, name);
    }
  }

  lemma {:induction false} DropsNone(allowed: seq<string>, name: string)
    requires forall x :: x in allowed ==> NormalizeName(x) != name
    ensures DropName(allowed, name) == allowed
  {
    hide NormalizeName;
    if allowed != [] {
      var n := |allowed| - 1;
      assert allowed == allowed[..n] + [allowed[n]];
      DropsNone(allowed[..n], name);
    }
  }

  /** When a deletion is answered Ok: the service is there, its secret could be deleted, and
      so could the catalogue be written, and the users where one of them listed it. */
  lemma DeletionOkExactlyWhen(c: Config, s: State, a: Action)
    requires a.DeleteService?
    ensures Step(c, s, a).1 == Ok <==>
              && Subject(a) in s.services && (s.services[Subject(a)].hasSecret ==> !a.locked && a.secretDeleted)
              && a.written && (ListedBySome(s.users, Subject(a)) ==> a.usersWritten)
  {
    hide NormalizeName, DropEverywhere, ListedBySome;
    DropsListers(s.users, Subject(a));
  }

  // ---- users -------------------------------------------------------------

  /** The service is known and enabled now, and the request names it. */
  predicate Grantable(s: State, names: seq<string>, x: string) {
    x in s.services && s.services[x].enabled && exists i :: 0 <= i < |names| && Trim(names[i]) == x
  }

  lemma AllowedTwice(s: State, names: seq<string>, x: string)
    ensures x in NormalizeAllowed(s.services, NormalizeAllowed(s.services, names)) <==> Grantable(s, names, x)
  {
    hide NormalizeAllowed, Trim;
    var once := NormalizeAllowed(s.services, names);
    NormalizeAllowedMembers(s.services, names);
    NormalizeAllowedMembers(s.services, once);
    if Grantable(s, names, x) {
      var i :| 0 <= i < |names| && Trim(names[i]) == x;
      TrimStable(names[i]);
      assert x in once;
      var j :| 0 <= j < |once| && once[j] == x;
    }
    if j :| 0 <= j < |once| && Trim(once[j]) == x {
      assert once[j] in once;
      var i :| 0 <= i < |names| && Trim(names[i]) == once[j];
      TrimStable(names[i]);
    }
  }

  predicate KeepsUsers(users: Users, after: Users, name: string) {
    && after.Keys == users.Keys + {name}
    && forall other :: other in users && other != name ==> after[other] == users[other]
  }

  /** A USER AS ASKED. After an Ok creation the user has the role asked for, and reaches
      every service as an admin, or exactly those named in the request that are known and
      enabled; every other user, and the catalogue, is as before. */
  lemma UserAsAsked(c: Config, s: State, a: Action, x: string)
    requires a.CreateUser? && Step(c, s, a).1 == Ok
    ensures var after, role := Step(c, s, a).0, if a.role == "" then "user" else a.role;
            && a.username !in s.users && after.services == s.services && KeepsUsers(s.users, after.users, a.username)
            && after.users[a.username].role == role && after.users[a.username].createdAt == a.now
            && (after.users[a.username].configured <==> role != "admin")
            && (CanAccess(after.users, a.username, x) <==> role == "admin" || Grantable(s, a.names, x))
  {
    hide NormalizeAllowed, Grantable;
    AllowedTwice(s, a.names, x);
  }

  lemma UserOkExactlyWhen(c: Config, s: State, a: Action)
    requires a.CreateUser?
    ensures Step(c, s, a).1 == Ok <==> a.username != "" && a.username !in s.users && a.hashed && a.written && a.secretStored
  {
    hide NormalizeAllowed;
  }

  /** ACCESS AS ASKED. After a change of access that is answered Ok, or of which only the
      write failed, the user reaches exactly the services named in the request that are
      known and enabled; no one else's access changes. */
  lemma AccessAsAsked(c: Config, s: State, a: Action, x: string)
    requires a.UpdateAccess? && (Step(c, s, a).1 == Ok || Step(c, s, a).1 == ServerError)
    ensures var after := Step(c, s, a).0;
            && after.services == s.services && KeepsUsers(s.users, after.users, a.username)
            && after.users[a.username].role == s.users[a.username].role
            && after.users[a.username].createdAt == s.users[a.username].createdAt
            && (CanAccess(after.users, a.username, x) <==> Grantable(s, a.names, x))
  {
    hide NormalizeAllowed, Grantable;
    AllowedTwice(s, a.names, x);
  }

  lemma AccessOkExactlyWhen(c: Config, s: State, a: Action)
    requires a.UpdateAccess?
    ensures Step(c, s, a).1 == Ok <==> a.username in s.users && s.users[a.username].role != "admin" && a.written
  {
    hide NormalizeAllowed;
  }

  /** No admin was created before this one, nor at the same time with a smaller name. */
  ghost predicate Oldest(users: Users, name: string) {
    && name in users && users[name].role == "admin"
    && forall other :: other in users && other != name && users[other].role == "admin" ==>
         users[name].createdAt <= users[other].createdAt
         && (users[name].createdAt == users[other].createdAt ==> exists k: nat :: SmallerAt(name, other, k))
  }

  lemma FirstIsOldest(users: Users, name: string)
    requires Named(users)
    ensures FirstAdmin(users, name) <==> Oldest(users, name)
  {
    hide Less, SmallerAt;
    forall other ensures Less(name, other) <==> exists k: nat :: SmallerAt(name, other, k) {
      LessIsByteOrder(name, other);
    }
  }

  /** A USER DELETED: an Ok deletion removes the user and changes nothing else; it is
      answered Ok exactly for a user who is there and whose trimmed name, if it is not
      empty, is not that of the oldest admin. That one is forbidden to delete. */
  lemma UserGone(c: Config, s: State, a: Action)
    requires WellFormed(c, s) && a.DeleteUser?
    ensures Step(c, s, a).1 == Ok ==> Step(c, s, a).0 == s.(users := s.users - {a.username})
    ensures Step(c, s, a).1 == Ok <==>
              a.username in s.users && a.written && !(Trim(a.username) != "" && Oldest(s.users, Trim(a.username)))
    ensures Step(c, s, a).1 == Forbidden <==> Trim(a.username) != "" && Oldest(s.users, Trim(a.username))
    ensures Step(c, s, a).1 != Ok ==> Step(c, s, a).0 == s
  {
    hide FirstAdmin, Oldest, Trim, Valid;
    FirstIsOldest(s.users, Trim(a.username));
  }

  // ---- a disabled service stays disabled ---------------------------------

  /** The request asks for the service to be enabled, or creates it without saying. */
  predicate Enables(a: Action, name: string) {
    || (a.UpdateService? && Subject(a) == name && a.req.enabled == Some(true))
    || (a.CreateService? && Subject(a) == name && a.req.enabled != Some(false))
  }

  lemma StepKeepsDisabled(c: Config, s: State, a: Action, name: string)
    requires WellFormed(c, s) && !Known(s.services, name) && !Enables(a, name)
    ensures !Known(Step(c, s, a).0.services, name)
  {
    hide NormalizeName, NeedsSecrets, NormalizeAllowed, Protected, DropFrom, Clean, Normalized, Built, Named;
    if a.CreateService? && Built(c.urlOk, a.req, None).Some? {
      CreateKeepsDisabled(c, s, a, name);
    } else if a.UpdateService? && Subject(a) in s.services {
      UpdateKeepsDisabled(c, s, a, name);
    }
  }

  lemma CreateKeepsDisabled(c: Config, s: State, a: Action, name: string)
    requires WellFormed(c, s) && !Known(s.services, name) && !Enables(a, name)
    requires a.CreateService? && Built(c.urlOk, a.req, None).Some?
    ensures !Known(Upserted(c.urlOk, s.services, Built(c.urlOk, a.req, None).value), name)
  {
    hide NormalizeName, Clean, Normalized, Built, Named;
    BuiltHasName(c.urlOk, a.req);
    BuiltAsAsked(c.urlOk, Subject(a), a.req, None);
  }

  lemma UpdateKeepsDisabled(c: Config, s: State, a: Action, name: string)
    requires WellFormed(c, s) && !Known(s.services, name) && !Enables(a, name)
    requires a.UpdateService? && Subject(a) in s.services
    ensures var built := Built(c.urlOk, a.req.(name := Subject(a)), Some(s.services[Subject(a)]));
            built.Some? ==> !Known(Upserted(c.urlOk, s.services, built.value), name)
  {
    hide NormalizeName, Clean, Normalized, Built, Named;
    var req := a.req.(name := Subject(a));
    NameStable(a.rawName);
    KnownIsNamed(c, s, Subject(a));
    if Built(c.urlOk, req, Some(s.services[Subject(a)])).Some? {
      BuiltAsAsked(c.urlOk, Subject(a), req, Some(s.services[Subject(a)]));
    }
  }

  /** DISABLED STAYS DISABLED. A service that an update has disabled is not known again,
      over any run, until a request enables it or creates it anew. */
  lemma {:induction false} DisabledStaysDisabled(c: Config, s: State, run: seq<Action>, i: nat, j: nat, name: string)
    requires i <= j <= |run| && WellFormed(c, s) && !Known(StateAt(c, s, run, i).services, name)
    requires forall k :: i <= k < j ==> !Enables(run[k], name)
    ensures !Known(StateAt(c, s, run, j).services, name)
    decreases j
  {
    hide WellFormed, Step, Known, Enables;
    if i < j {
      DisabledStaysDisabled(c, s, run, i, j - 1, name);
      AlwaysWellFormed(c, s, run, j - 1);
      StepKeepsDisabled(c, StateAt(c, s, run, j - 1), run[j - 1], name);
    }
  }

  lemma {:induction false} AlwaysWellFormed(c: Config, s: State, run: seq<Action>, i: nat)
    requires i <= |run| && WellFormed(c, s)
    ensures WellFormed(c, StateAt(c, s, run, i))
  {
    hide WellFormed, Step;
    if i > 0 {
      AlwaysWellFormed(c, s, run, i - 1);
      StepWellFormed(c, StateAt(c, s, run, i - 1), run[i - 1]);
    }
  }

  lemma UpdateDisables(c: Config, s: State, a: Action)
    requires WellFormed(c, s) && a.UpdateService? && a.req.enabled == Some(false)
    requires Step(c, s, a).1 == Ok || Step(c, s, a).1 == ServerError
    ensures !Known(Step(c, s, a).0.services, Subject(a))
  {
    hide WellFormed, Step, NormalizeName, Trim, InRange;
    ServiceAsAsked(c, s, a);
  }
}
