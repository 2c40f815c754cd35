/** Users, their allow lists and the admin handlers (config/userstore.go, auth/admin.go,
    auth/services_admin.go) as atomic steps on what is in memory. A write's success,
    the clock and the state of secret storage are parameters of the step. */
module UserRegistry {
  import opened Common
  import opened Text
  import opened ServiceCatalog

  datatype User = User(name: string, role: string, configured: bool, allowed: seq<string>, createdAt: int)

  type Users = map<string, User>

  /** `vault` tells whether users live in a vault or in a file. */
  datatype Config = Config(urlOk: UrlCheck, vault: bool)

  datatype State = State(services: Services, users: Users)

  datatype Reply = Ok | BadRequest | NotFound | Forbidden | Conflict | ServerError

  predicate Restricted(u: User) {
    u.role != "admin" && u.configured
  }

  predicate CanAccess(users: Users, username: string, service: string) {
    && username in users
    && (users[username].role == "admin" || !users[username].configured || service in users[username].allowed)
  }

  // ---- the protected admin -----------------------------------------------

  predicate Earlier(a: User, b: User) {
    a.createdAt < b.createdAt || (a.createdAt == b.createdAt && Less(a.name, b.name))
  }

  /** The admin created first, ties going to the smaller name. */
  predicate FirstAdmin(users: Users, name: string) {
    && name in users && users[name].role == "admin"
    && forall other :: other in users && other != name && users[other].role == "admin" ==> Earlier(users[name], users[other])
  }

  /** Names are trimmed for this question, though not for deletion. */
  predicate Protected(users: Users, username: string) {
    Trim(username) != "" && FirstAdmin(users, Trim(username))
  }

  predicate Named(users: Users) {
    forall name :: name in users ==> users[name].name == name
  }

  lemma EarlierOrder(a: User, b: User, c: User)
    ensures !(Earlier(a, b) && Earlier(b, a))
    ensures Earlier(a, b) && Earlier(b, c) ==> Earlier(a, c)
    ensures a.name != b.name ==> Earlier(a, b) || Earlier(b, a)
  {
    hide Less;
    LessTotal(a.name, b.name);
    LessIrreflexive(a.name);
    if Less(a.name, b.name) && Less(b.name, a.name) { LessTransitive(a.name, b.name, a.name); }
    if Less(a.name, b.name) && Less(b.name, c.name) { LessTransitive(a.name, b.name, c.name); }
  }

  lemma FirstAdminUnique(users: Users, p: string, q: string)
    requires Named(users) && FirstAdmin(users, p) && FirstAdmin(users, q)
    ensures p == q
  {
    hide Earlier;
    EarlierOrder(users[p], users[q], users[p]);
  }

  ghost predicate FirstAmong(users: Users, names: set<string>, p: string) {
    && p in names && p in users && users[p].role == "admin"
    && forall other :: other in names && other in users && other != p && users[other].role == "admin"
         ==> Earlier(users[p], users[other])
  }

  /** Where there is an admin there is a first one. */
  lemma {:induction false} SomeFirstAmong(users: Users, names: set<string>) returns (p: string)
    requires Named(users)
    requires exists q :: q in names && q in users && users[q].role == "admin"
    ensures FirstAmong(users, names, p)
    decreases |names|
  {
    hide Earlier;
    var q :| q in names && q in users && users[q].role == "admin";
    var rest := names - {q};
    if exists r :: r in rest && r in users && users[r].role == "admin" {
      var r := SomeFirstAmong(users, rest);
      EarlierOrder(users[q], users[r], users[q]);
      if Earlier(users[q], users[r]) {
        p := q;
        forall other | other in rest && other in users && other != r && users[other].role == "admin"
          ensures Earlier(users[q], users[other])
        {
          EarlierOrder(users[q], users[r], users[other]);
        }
      } else {
        p := r;
      }
    } else {
      p := q;
    }
  }

  lemma SomeFirstAdmin(users: Users) returns (p: string)
    requires Named(users) && exists q :: q in users && users[q].role == "admin"
    ensures FirstAdmin(users, p)
  {
    hide Earlier;
    p := SomeFirstAmong(users, users.Keys);
  }

  // ---- the user store ----------------------------------------------------

  /** A new user in memory. In file mode the user is there even when the write fails. */
  function WithUser(c: Config, users: Users, u: User, written: bool): Users {
    if written || !c.vault then users[u.name := u] else users
  }

  function WithoutUser(users: Users, name: string, written: bool): Users {
    if written then users - {name} else users
  }

  function DropName(allowed: seq<string>, service: string): seq<string> {
    if allowed == [] then []
    else
      var n := |allowed| - 1;
      DropName(allowed[..n], service) + if NormalizeName(allowed[n]) == service then [] else [allowed[n]]
  }

  function DropFrom(u: User, service: string): User {
    if Restricted(u) then u.(allowed := DropName(u.allowed, service)) else u
  }

  /** A service name removed from every restricted user's list. */
  function DropEverywhere(users: Users, service: string): Users {
    map name | name in users :: DropFrom(users[name], service)
  }

  lemma {:induction false} DropNameMembers(allowed: seq<string>, service: string)
    ensures forall x :: x in DropName(allowed, service) <==> x in allowed && NormalizeName(x) != service
  {
    hide NormalizeName;
    if allowed != [] {
      var n := |allowed| - 1;
      DropNameMembers(allowed[..n], service);
      assert allowed == allowed[..n] + [allowed[n]];
    }
  }

  // ---- the service request -----------------------------------------------

  datatype ServiceRequest = ServiceRequest(name: string, baseUrl: string, auth: string, header: string, basicUser: string,
                                           skipTls: Option<bool>, provider: string, openAi: bool,
                                           timeoutMs: Option<int>, retryCount: Option<int>,
                                           secret: string, clearSecret: bool, enabled: Option<bool>)

  function Or<T>(o: Option<T>, fallback: T): T {
    match o case None => fallback case Some(v) => v
  }

  /** The entry a request asks for; what it leaves out comes from the existing entry. */
  function Built(urlOk: UrlCheck, req: ServiceRequest, existing: Option<Service>): Option<Service> {
    var asked := NormalizeName(req.name);
    var name := if existing.Some? && asked == "" then existing.value.name else asked;
    if name == "" || Trim(req.baseUrl) == "" || !urlOk(Trim(req.baseUrl)) then None
    else
      Some(Service(
        name, Trim(req.baseUrl), Trim(req.auth), Trim(req.header), Trim(req.basicUser),
        Or(req.skipTls, existing.Some? && existing.value.skipTls),
        NormalizeName(req.provider), req.openAi,
        Or(req.timeoutMs, if existing.Some? then existing.value.timeoutMs else 0),
        Or(req.retryCount, if existing.Some? then existing.value.retryCount else 0),
        Or(req.enabled, existing.None? || existing.value.enabled),
        !req.clearSecret && (Trim(req.secret) != "" || (existing.Some? && existing.value.hasSecret))))
  }

  predicate NeedsSecrets(req: ServiceRequest) {
    Trim(req.secret) != "" || req.clearSecret
  }

  // ---- the handlers ------------------------------------------------------

  datatype Action =
    | CreateUser(username: string, role: string, names: seq<string>, now: int, hashed: bool,
                 written: bool, secretStored: bool, undone: bool)
    | UpdateAccess(username: string, names: seq<string>, written: bool)
    | DeleteUser(username: string, written: bool)
    | CreateService(req: ServiceRequest, locked: bool, written: bool, secretStored: bool)
    | UpdateService(rawName: string, req: ServiceRequest, locked: bool, written: bool, secretStored: bool)
    | DeleteService(rawName: string, locked: bool, secretDeleted: bool, written: bool, usersWritten: bool)

  function RoleOf(a: Action): string
    requires a.CreateUser?
  {
    if a.role == "" then "user" else a.role
  }

  function NewUser(s: State, a: Action): User
    requires a.CreateUser?
  {
    User(a.username, RoleOf(a), RoleOf(a) != "admin",
         NormalizeAllowed(s.services, NormalizeAllowed(s.services, a.names)), a.now)
  }

  /** A failed TOTP secret deletes the user again, if that write succeeds. */
  function CreateUserStep(c: Config, s: State, a: Action): (State, Reply)
    requires a.CreateUser?
  {
    if a.username == "" then (s, BadRequest)
    else if a.username in s.users then (s, Conflict)
    else if !a.hashed then (s, ServerError)
    else
      var users := WithUser(c, s.users, NewUser(s, a), a.written);
      if !a.written then (s.(users := users), ServerError)
      else if !a.secretStored then (s.(users := WithoutUser(users, a.username, a.undone)), ServerError)
      else (s.(users := users), Ok)
  }

  function UpdateAccessStep(s: State, a: Action): (State, Reply)
    requires a.UpdateAccess?
  {
    if a.username !in s.users then (s, NotFound)
    else if s.users[a.username].role == "admin" then (s, BadRequest)
    else
      var allowed := NormalizeAllowed(s.services, NormalizeAllowed(s.services, a.names));
      (s.(users := s.users[a.username := s.users[a.username].(configured := true, allowed := allowed)]),
       if a.written then Ok else ServerError)
  }

  function DeleteUserStep(s: State, a: Action): (State, Reply)
    requires a.DeleteUser?
  {
    if Protected(s.users, a.username) then (s, Forbidden)
    else if a.username !in s.users || !a.written then (s, NotFound)
    else (s.(users := s.users - {a.username}), Ok)
  }

  /** A failed write still leaves the entry in memory; a failed secret removes it. */
  function CreateServiceStep(c: Config, s: State, a: Action): (State, Reply)
    requires a.CreateService?
  {
    match Built(c.urlOk, a.req, None)
    case None => (s, BadRequest)
    case Some(svc) =>
      if svc.name in s.services then (s, Conflict)
      else if NeedsSecrets(a.req) && a.locked then (s, BadRequest)
      else
        var services := Upserted(c.urlOk, s.services, svc);
        if !a.written then (s.(services := services), ServerError)
        else if a.req.secret != "" && !a.secretStored then (s.(services := services - {svc.name}), BadRequest)
        else (s.(services := services), Ok)
  }

  function UpdateServiceStep(c: Config, s: State, a: Action): (State, Reply)
    requires a.UpdateService?
  {
    var name, asked := NormalizeName(a.rawName), NormalizeName(a.req.name);
    if name !in s.services then (s, NotFound)
    else if asked != "" && asked != name then (s, BadRequest)
    else if NeedsSecrets(a.req) && a.locked then (s, BadRequest)
    else
      match Built(c.urlOk, a.req.(name := name), Some(s.services[name]))
      case None => (s, BadRequest)
      case Some(svc) =>
        (s.(services := Upserted(c.urlOk, s.services, svc)),
         if !a.written then ServerError
         else if (a.req.clearSecret || a.req.secret != "") && !a.secretStored then BadRequest
         else Ok)
  }

  /** The request gets as far as rewriting the catalogue. */
  predicate Deletes(s: State, a: Action) {
    && a.DeleteService? && NormalizeName(a.rawName) in s.services
    && !(s.services[NormalizeName(a.rawName)].hasSecret && (a.locked || !a.secretDeleted))
  }

  function DeleteServiceStep(s: State, a: Action): (State, Reply)
    requires a.DeleteService?
  {
    var name := NormalizeName(a.rawName);
    if name !in s.services then (s, NotFound)
    else if !Deletes(s, a) then (s, BadRequest)
    else if !a.written then (s.(services := s.services - {name}), ServerError)
    else
      var users := DropEverywhere(s.users, name);
      (State(s.services - {name}, users), if a.usersWritten || users == s.users then Ok else ServerError)
  }

  function Step(c: Config, s: State, a: Action): (State, Reply) {
    match a
    case CreateUser(_, _, _, _, _, _, _, _) => CreateUserStep(c, s, a)
    case UpdateAccess(_, _, _) => UpdateAccessStep(s, a)
    case DeleteUser(_, _) => DeleteUserStep(s, a)
    case CreateService(_, _, _, _) => CreateServiceStep(c, s, a)
    case UpdateService(_, _, _, _, _) => UpdateServiceStep(c, s, a)
    case DeleteService(_, _, _, _, _) => DeleteServiceStep(s, a)
  }

  function StateAt(c: Config, s: State, run: seq<Action>, i: nat): State
    requires i <= |run|
  {
    if i == 0 then s else Step(c, StateAt(c, s, run, i - 1), run[i - 1]).0
  }

  // ---- referential integrity ---------------------------------------------

  predicate ListsKnown(services: Services, u: User) {
    forall x :: x in u.allowed ==> x in services
  }

  /** Every service a restricted user is allowed is in the catalogue. */
  ghost predicate Integrity(s: State) {
    forall name :: name in s.users && Restricted(s.users[name]) ==> ListsKnown(s.services, s.users[name])
  }

  ghost predicate WellFormed(c: Config, s: State) {
    Valid(c.urlOk, s.services) && Named(s.users)
  }

  lemma StepKeepsNames(c: Config, s: State, a: Action)
    requires Named(s.users)
    ensures Named(Step(c, s, a).0.users)
  {
    hide NormalizeAllowed, Built, Upserted, NeedsSecrets, NormalizeName, Protected, Deletes, Restricted, DropName;
  }

  lemma StepKeepsCatalogue(c: Config, s: State, a: Action)
    requires Valid(c.urlOk, s.services)
    ensures Valid(c.urlOk, Step(c, s, a).0.services)
  {
    hide NormalizeAllowed, Built, Upserted, NeedsSecrets, NormalizeName, Protected, Deletes, Valid;
    match a
    case CreateUser(_, _, _, _, _, _, _, _) =>
    case UpdateAccess(_, _, _) =>
    case DeleteUser(_, _) =>
    case CreateService(_, _, _, _) =>
      var built := Built(c.urlOk, a.req, None);
      if built.Some? {
        UpsertKeepsOthers(c.urlOk, s.services, built.value, "");
        ValidWithout(c.urlOk, Upserted(c.urlOk, s.services, built.value), built.value.name);
      }
    case UpdateService(_, _, _, _, _) =>
      var name := NormalizeName(a.rawName);
      if name in s.services && Built(c.urlOk, a.req.(name := name), Some(s.services[name])).Some? {
        UpsertKeepsOthers(c.urlOk, s.services, Built(c.urlOk, a.req.(name := name), Some(s.services[name])).value, "");
      }
    case DeleteService(_, _, _, _, _) =>
      ValidWithout(c.urlOk, s.services, NormalizeName(a.rawName));
  }

  lemma StepWellFormed(c: Config, s: State, a: Action)
    requires WellFormed(c, s)
    ensures WellFormed(c, Step(c, s, a).0)
  {
    hide Valid, Named, Step;
    StepKeepsNames(c, s, a);
    StepKeepsCatalogue(c, s, a);
  }

  /** The one way to break integrity: the catalogue's write fails while a restricted
      user lists the service. */
  ghost predicate Dangling(s: State, a: Action) {
    && Deletes(s, a) && !a.written
    && exists name :: name in s.users && Restricted(s.users[name]) && NormalizeName(a.rawName) in s.users[name].allowed
  }

  lemma AllowedAreKnown(services: Services, names: seq<string>, u: User)
    requires u.allowed == NormalizeAllowed(services, names)
    ensures ListsKnown(services, u)
  {
    hide NormalizeAllowed;
    NormalizeAllowedMembers(services, names);
  }

  lemma SetUserKeepsIntegrity(s: State, name: string, u: User)
    requires Integrity(s) && ListsKnown(s.services, u)
    ensures Integrity(s.(users := s.users[name := u]))
  {
    hide ListsKnown, Restricted;
  }

  lemma DropUserKeepsIntegrity(s: State, name: string)
    requires Integrity(s)
    ensures Integrity(s.(users := s.users - {name}))
  {
    hide ListsKnown, Restricted;
  }

  lemma CreateUserIntegrity(c: Config, s: State, a: Action)
    requires a.CreateUser? && Integrity(s)
    ensures Integrity(Step(c, s, a).0)
  {
    hide Integrity, NormalizeAllowed, ListsKnown;
    var u := NewUser(s, a);
    AllowedAreKnown(s.services, NormalizeAllowed(s.services, a.names), u);
    SetUserKeepsIntegrity(s, a.username, u);
    DropUserKeepsIntegrity(s.(users := s.users[a.username := u]), a.username);
    DropUserKeepsIntegrity(s, a.username);
  }

  lemma UpdateAccessIntegrity(c: Config, s: State, a: Action)
    requires a.UpdateAccess? && Integrity(s)
    ensures Integrity(Step(c, s, a).0)
  {
    hide Integrity, NormalizeAllowed, ListsKnown;
    if a.username in s.users {
      var allowed := NormalizeAllowed(s.services, NormalizeAllowed(s.services, a.names));
      var u := s.users[a.username].(configured := true, allowed := allowed);
      AllowedAreKnown(s.services, NormalizeAllowed(s.services, a.names), u);
      SetUserKeepsIntegrity(s, a.username, u);
    }
  }

  lemma MoreServicesKeepIntegrity(s: State, services: Services)
    requires Integrity(s) && s.services.Keys <= services.Keys
    ensures Integrity(s.(services := services))
  {
    hide Restricted;
  }

  /** What creating a service leaves of the catalogue: at least all of it. */
  lemma CreateServiceGrows(c: Config, s: State, a: Action)
    requires a.CreateService? && Valid(c.urlOk, s.services)
    ensures var s' := Step(c, s, a).0;
            s'.users == s.users && s.services.Keys <= s'.services.Keys
  {
    hide Built, NeedsSecrets, Valid, Upserted;
    var built := Built(c.urlOk, a.req, None);
    if built.Some? {
      UpsertKeepsOthers(c.urlOk, s.services, built.value, "");
    }
  }

  lemma CreateServiceIntegrity(c: Config, s: State, a: Action)
    requires a.CreateService? && Integrity(s) && Valid(c.urlOk, s.services)
    ensures Integrity(Step(c, s, a).0)
  {
    hide Step, Valid, Integrity;
    CreateServiceGrows(c, s, a);
    MoreServicesKeepIntegrity(s, Step(c, s, a).0.services);
  }

  lemma UpdateServiceIntegrity(c: Config, s: State, a: Action)
    requires a.UpdateService? && Integrity(s) && Valid(c.urlOk, s.services)
    ensures Integrity(Step(c, s, a).0)
  {
    hide Built, NeedsSecrets, Valid, Integrity, NormalizeName, Upserted;
    var name := NormalizeName(a.rawName);
    if name in s.services && Built(c.urlOk, a.req.(name := name), Some(s.services[name])).Some? {
      var svc := Built(c.urlOk, a.req.(name := name), Some(s.services[name])).value;
      UpsertKeepsOthers(c.urlOk, s.services, svc, "");
      MoreServicesKeepIntegrity(s, Upserted(c.urlOk, s.services, svc));
    }
  }

  lemma ListedNamesAreNormal(c: Config, s: State, name: string)
    requires WellFormed(c, s) && Integrity(s) && name in s.users && Restricted(s.users[name])
    ensures forall x :: x in s.users[name].allowed ==> NormalizeName(x) == x
  {
    hide Clean, NormalizeName;
    forall x | x in s.users[name].allowed ensures NormalizeName(x) == x {
      CleanNamed(c.urlOk, s.services[x]);
    }
  }

  /** A deletion that is written takes the service out of every restricted user's list
      and nothing else. */
  lemma DropRemovesOne(c: Config, s: State, service: string, name: string)
    requires WellFormed(c, s) && Integrity(s) && name in s.users && Restricted(s.users[name])
    ensures forall x :: x in DropFrom(s.users[name], service).allowed <==> x in s.users[name].allowed && x != service
  {
    hide NormalizeName, WellFormed, Integrity;
    ListedNamesAreNormal(c, s, name);
    DropNameMembers(s.users[name].allowed, service);
  }

  lemma DeleteServiceIntegrity(c: Config, s: State, a: Action)
    requires a.DeleteService? && WellFormed(c, s) && Integrity(s)
    ensures Integrity(Step(c, s, a).0) <==> !Dangling(s, a)
  {
    hide NormalizeName, Named, Valid;
    var s' := Step(c, s, a).0;
    var service := NormalizeName(a.rawName);
    if Deletes(s, a) && a.written {
      forall name | name in s'.users && Restricted(s'.users[name]) ensures ListsKnown(s'.services, s'.users[name]) {
        DropRemovesOne(c, s, service, name);
      }
    }
  }

  /** EXACTLY WHEN integrity is kept by one request, whatever other writes fail. */
  lemma StepIntegrity(c: Config, s: State, a: Action)
    requires WellFormed(c, s) && Integrity(s)
    ensures Integrity(Step(c, s, a).0) <==> !Dangling(s, a)
  {
    hide Integrity, Restricted;
    match a
    case CreateUser(_, _, _, _, _, _, _, _) => CreateUserIntegrity(c, s, a);
    case UpdateAccess(_, _, _) => UpdateAccessIntegrity(c, s, a);
    case DeleteUser(_, _) => DeleteUserIntegrity(c, s, a);
    case CreateService(_, _, _, _) => CreateServiceIntegrity(c, s, a);
    case UpdateService(_, _, _, _, _) => UpdateServiceIntegrity(c, s, a);
    case DeleteService(_, _, _, _, _) => DeleteServiceIntegrity(c, s, a);
  }

  lemma DeleteUserIntegrity(c: Config, s: State, a: Action)
    requires a.DeleteUser? && Integrity(s)
    ensures Integrity(Step(c, s, a).0)
  {
    hide Protected, Restricted;
  }

  /** INTEGRITY over every run in which the catalogue's deletions are written; every
      other write may fail. */
  lemma {:induction false} IntegrityAlways(c: Config, s: State, run: seq<Action>, i: nat)
    requires i <= |run| && WellFormed(c, s) && Integrity(s)
    requires forall k :: 0 <= k < |run| && run[k].DeleteService? ==> run[k].written
    ensures WellFormed(c, StateAt(c, s, run, i)) && Integrity(StateAt(c, s, run, i))
  {
    hide WellFormed, Integrity, Step;
    if i > 0 {
      var before := StateAt(c, s, run, i - 1);
      IntegrityAlways(c, s, run, i - 1);
      StepWellFormed(c, before, run[i - 1]);
      StepIntegrity(c, before, run[i - 1]);
    }
  }

  // ---- where access comes from -------------------------------------------

  ghost predicate Listed(s: State, user: string, service: string) {
    user in s.users && Restricted(s.users[user]) && service in s.users[user].allowed
  }

  /** The request asks for this service for this user while it is known and enabled. */
  predicate Grants(s: State, a: Action, user: string, service: string) {
    && (a.CreateUser? || a.UpdateAccess?) && a.username == user && Known(s.services, service)
    && exists i :: 0 <= i < |a.names| && Trim(a.names[i]) == service
  }

  lemma GrantedNames(s: State, names: seq<string>, x: string)
    requires x in NormalizeAllowed(s.services, NormalizeAllowed(s.services, names))
    ensures Known(s.services, x) && exists i :: 0 <= i < |names| && Trim(names[i]) == x
  {
    hide NormalizeAllowed, Known, Trim;
    NormalizeAllowedMembers(s.services, NormalizeAllowed(s.services, names));
    NormalizeAllowedMembers(s.services, names);
    var once := NormalizeAllowed(s.services, names);
    var i :| 0 <= i < |once| && Trim(once[i]) == x;
    assert once[i] in once;
    var j :| 0 <= j < |names| && Trim(names[j]) == once[i];
    TrimStable(names[j]);
  }

  /** One request lists a service for a user only if it was listed before or is granted
      now. */
  lemma ListedByGrant(c: Config, s: State, a: Action, user: string, service: string)
    requires Listed(Step(c, s, a).0, user, service)
    ensures Listed(s, user, service) || Grants(s, a, user, service)
  {
    hide NormalizeAllowed, Known, Trim, Built, Upserted, Protected, NormalizeName, NeedsSecrets;
    match a
    case CreateUser(_, _, _, _, _, _, _, _) =>
      if !Listed(s, user, service) { GrantedNames(s, a.names, service); }
    case UpdateAccess(_, _, _) =>
      if !Listed(s, user, service) { GrantedNames(s, a.names, service); }
    case DeleteUser(_, _) =>
    case CreateService(_, _, _, _) =>
    case UpdateService(_, _, _, _, _) =>
    case DeleteService(_, _, _, _, _) =>
      if user in s.users { DropNameMembers(s.users[user].allowed, NormalizeName(a.rawName)); }
  }

  lemma DeletionUnlists(c: Config, s: State, a: Action, user: string)
    requires WellFormed(c, s) && Integrity(s) && Deletes(s, a) && a.written
    ensures !Listed(Step(c, s, a).0, user, NormalizeName(a.rawName))
  {
    hide WellFormed, Integrity, NormalizeName;
    if user in s.users && Restricted(s.users[user]) {
      DropRemovesOne(c, s, NormalizeName(a.rawName), user);
    }
  }

  lemma {:induction false} UnlistedUntilGranted(c: Config, s: State, run: seq<Action>, i: nat, j: nat, user: string, service: string)
    requires i <= j <= |run| && !Listed(StateAt(c, s, run, i), user, service)
    requires forall k :: i <= k < j ==> !Grants(StateAt(c, s, run, k), run[k], user, service)
    ensures !Listed(StateAt(c, s, run, j), user, service)
  {
    hide Listed, Grants, Step;
    if j > i {
      var before := StateAt(c, s, run, j - 1);
      UnlistedUntilGranted(c, s, run, i, j - 1, user, service);
      if Listed(Step(c, before, run[j - 1]).0, user, service) {
        ListedByGrant(c, before, run[j - 1], user, service);
      }
    }
  }

  /** A DELETED SERVICE STAYS CLOSED. After a service is deleted, however often it is
      created again, no restricted user reaches it until an admin grants it anew. */
  lemma DeletedServiceStaysClosed(c: Config, s: State, run: seq<Action>, i: nat, j: nat, user: string)
    requires i < j <= |run| && WellFormed(c, s) && Integrity(s)
    requires forall k :: 0 <= k < |run| && run[k].DeleteService? ==> run[k].written
    requires Deletes(StateAt(c, s, run, i), run[i])
    requires forall k :: i < k < j ==> !Grants(StateAt(c, s, run, k), run[k], user, NormalizeName(run[i].rawName))
    ensures var after := StateAt(c, s, run, j);
            user in after.users && Restricted(after.users[user]) ==>
              !CanAccess(after.users, user, NormalizeName(run[i].rawName))
  {
    hide WellFormed, Integrity, Step, Grants, NormalizeName;
    IntegrityAlways(c, s, run, i);
    DeletionUnlists(c, StateAt(c, s, run, i), run[i], user);
    UnlistedUntilGranted(c, s, run, i + 1, j, user, NormalizeName(run[i].rawName));
  }

  // ---- an admin remains --------------------------------------------------

  /** Whether this request takes the protected admin out of the store. */
  predicate RemovesFirst(a: Action, p: string) {
    a.DeleteUser? && a.username == p && a.written && (p == "" || !Trimmed(p))
  }

  lemma TrimFixes(s: string)
    ensures Trim(s) == s <==> Trimmed(s)
  {
    hide Trimmed;
    assert Trimmed(Trim(s));
  }

  /** EXACTLY WHEN the protected admin can be deleted: when the stored name has blanks
      around it, because the check trims the name and the deletion does not. */
  lemma FirstAdminRemoved(c: Config, s: State, a: Action, p: string)
    requires Named(s.users) && FirstAdmin(s.users, p)
    ensures p !in Step(c, s, a).0.users <==> RemovesFirst(a, p)
    ensures !RemovesFirst(a, p) ==> Step(c, s, a).0.users[p] == s.users[p]
  {
    hide NormalizeAllowed, Trim, Trimmed, Built, Upserted, NormalizeName, NeedsSecrets, Known, Earlier;
    match a
    case CreateUser(_, _, _, _, _, _, _, _) =>
    case UpdateAccess(_, _, _) =>
    case DeleteUser(_, _) =>
      TrimFixes(p);
      if Protected(s.users, a.username) {
        FirstAdminUnique(s.users, p, Trim(a.username));
        TrimFixes(a.username);
      }
    case CreateService(_, _, _, _) =>
    case UpdateService(_, _, _, _, _) =>
    case DeleteService(_, _, _, _, _) =>
  }

  predicate MakesAdmin(a: Action) {
    a.CreateUser? && RoleOf(a) == "admin"
  }

  /** No admin's name has blanks around it, or is empty. */
  ghost predicate AdminsTrimmed(users: Users) {
    forall name :: name in users && users[name].role == "admin" ==> Trimmed(name) && name != ""
  }

  lemma StepKeepsAdminsTrimmed(c: Config, s: State, a: Action)
    requires AdminsTrimmed(s.users) && (MakesAdmin(a) ==> Trimmed(a.username))
    ensures AdminsTrimmed(Step(c, s, a).0.users)
  {
    hide NormalizeAllowed, Built, Upserted, NeedsSecrets, NormalizeName, Protected, Deletes, Restricted, DropName, Trimmed;
  }

  ghost predicate SomeAdmin(users: Users) {
    exists name :: name in users && users[name].role == "admin"
  }

  /** AN ADMIN ALWAYS REMAINS, in every run in which admins are created under trimmed
      names, whatever the clock does and whichever writes fail. */
  lemma {:induction false} AdminRemains(c: Config, s: State, run: seq<Action>, i: nat)
    requires i <= |run| && Named(s.users) && AdminsTrimmed(s.users) && SomeAdmin(s.users)
    requires forall k :: 0 <= k < |run| && MakesAdmin(run[k]) ==> Trimmed(run[k].username)
    ensures Named(StateAt(c, s, run, i).users) && AdminsTrimmed(StateAt(c, s, run, i).users)
    ensures SomeAdmin(StateAt(c, s, run, i).users)
  {
    hide Named, Step, FirstAdmin, Trimmed, MakesAdmin;
    if i > 0 {
      var before := StateAt(c, s, run, i - 1);
      AdminRemains(c, s, run, i - 1);
      StepKeepsNames(c, before, run[i - 1]);
      StepKeepsAdminsTrimmed(c, before, run[i - 1]);
      var p := SomeFirstAdmin(before.users);
      FirstIsAdmin(before.users, p);
      FirstAdminRemoved(c, before, run[i - 1], p);
      assert Step(c, before, run[i - 1]).0.users[p].role == "admin";
    }
  }

  lemma FirstIsAdmin(users: Users, p: string)
    requires FirstAdmin(users, p)
    ensures p in users && users[p].role == "admin"
  {
  }

  /** An admin created later does not take the protected one's place. */
  lemma StepKeepsFirst(c: Config, s: State, a: Action, p: string)
    requires Named(s.users) && FirstAdmin(s.users, p) && !RemovesFirst(a, p)
    requires MakesAdmin(a) ==> a.now > s.users[p].createdAt
    ensures FirstAdmin(Step(c, s, a).0.users, p) && Step(c, s, a).0.users[p] == s.users[p]
  {
    FirstAdminRemoved(c, s, a, p);
    hide NormalizeAllowed, Built, Upserted, NeedsSecrets, NormalizeName, Protected, Deletes, DropName, RemovesFirst;
    StepOtherAdmins(c, s, a, p);
  }

  /** Every admin after a request was one before, with the same creation time, or is
      the one being created. */
  lemma StepOtherAdmins(c: Config, s: State, a: Action, p: string)
    ensures var users := Step(c, s, a).0.users;
            forall q :: q in users && users[q].role == "admin" ==>
              (q in s.users && users[q] == s.users[q]) || (MakesAdmin(a) && users[q].createdAt == a.now)
  {
    hide NormalizeAllowed, Built, Upserted, NeedsSecrets, NormalizeName, Protected, Deletes, DropName;
  }

  /** THE PROTECTED ADMIN NEVER CHANGES while the clock of every later creation is past
      its own and its name has no blanks around it. */
  lemma {:induction false} ProtectedNeverChanges(c: Config, s: State, run: seq<Action>, i: nat, p: string)
    requires i <= |run| && Named(s.users) && FirstAdmin(s.users, p) && p != "" && Trimmed(p)
    requires forall k :: 0 <= k < |run| && MakesAdmin(run[k]) ==> run[k].now > s.users[p].createdAt
    ensures Named(StateAt(c, s, run, i).users) && FirstAdmin(StateAt(c, s, run, i).users, p)
    ensures StateAt(c, s, run, i).users[p] == s.users[p]
  {
    hide Named, Step, FirstAdmin, Trimmed, MakesAdmin;
    FirstIsAdmin(s.users, p);
    if i > 0 {
      var before := StateAt(c, s, run, i - 1);
      ProtectedNeverChanges(c, s, run, i - 1, p);
      FirstIsAdmin(before.users, p);
      StepKeepsNames(c, before, run[i - 1]);
      StepKeepsFirst(c, before, run[i - 1], p);
    }
  }

  // ---- creating a user ---------------------------------------------------

  /** ROLL-BACK, exactly: a refused creation leaves a new user behind just when the file
      write failed, or when the secret and then the roll-back both failed. */
  lemma FailedCreateLeaves(c: Config, s: State, a: Action)
    requires a.CreateUser? && Step(c, s, a).1 != Ok
    ensures Step(c, s, a).0.services == s.services
    ensures Step(c, s, a).0.users == s.users || Step(c, s, a).0.users == s.users[a.username := NewUser(s, a)]
    ensures Step(c, s, a).0.users != s.users <==>
              && a.username != "" && a.username !in s.users && a.hashed
              && (if a.written then !a.undone else !c.vault)
  {
    hide NormalizeAllowed;
    assert a.username !in s.users ==> s.users[a.username := NewUser(s, a)] - {a.username} == s.users;
    assert a.username !in s.users ==> a.username in s.users[a.username := NewUser(s, a)];
  }

  // ---- what can go wrong -------------------------------------------------

  const BLANK_ROOT := User(" root", "admin", false, [], 1)

  /** What a handler builds, the catalogue accepts under the requested name. */
  lemma BuiltIsAccepted(urlOk: UrlCheck, req: ServiceRequest, existing: Option<Service>)
    requires Built(urlOk, req, existing).Some? && NormalizeName(req.name) != ""
    ensures Built(urlOk, req, existing).value.name == NormalizeName(req.name)
    ensures Normalized(urlOk, Built(urlOk, req, existing).value).Some?
    ensures Normalized(urlOk, Built(urlOk, req, existing).value).value.name == NormalizeName(req.name)
  {
    hide NormalizeName, Trim, CleanAuth, CleanHeader, CleanTimeout, CleanRetries;
    NameStable(req.name);
    TrimStable(req.baseUrl);
  }

  lemma CreateServiceAdds(c: Config, s: State, req: ServiceRequest)
    requires Built(c.urlOk, req, None).Some? && NormalizeName(req.name) !in s.services && !NeedsSecrets(req) && req.secret == ""
    ensures var after := Step(c, s, CreateService(req, false, true, true));
            after.1 == Ok && after.0.users == s.users && NormalizeName(req.name) in after.0.services
  {
    hide NormalizeName, Built, Normalized, NeedsSecrets;
    BuiltHasName(c.urlOk, req);
    BuiltIsAccepted(c.urlOk, req, None);
  }

  lemma BuiltHasName(urlOk: UrlCheck, req: ServiceRequest)
    requires Built(urlOk, req, None).Some?
    ensures NormalizeName(req.name) != ""
  {
    hide NormalizeName, Trim;
  }

  /** One service, and one user who may use only that. */
  function OneOfEach(svc: Service, user: User): State {
    State(map[svc.name := svc], map[user.name := user])
  }

  predicate OnlyMember(svc: Service, user: User) {
    user.role == "user" && user.configured && user.allowed == [svc.name]
  }

  lemma OneOfEachFits(urlOk: UrlCheck, svc: Service, user: User)
    requires Clean(urlOk, svc) && OnlyMember(svc, user)
    ensures NormalizeName(svc.name) == svc.name
    ensures WellFormed(Config(urlOk, false), OneOfEach(svc, user)) && Integrity(OneOfEach(svc, user))
    ensures Listed(OneOfEach(svc, user), user.name, svc.name)
  {
    hide Clean, NormalizeName;
    CleanNamed(urlOk, svc);
    var s := OneOfEach(svc, user);
    assert s.services.Keys == {svc.name} && s.services[svc.name] == svc;
    assert s.users.Keys == {user.name} && s.users[user.name] == user;
    assert forall x :: x in [svc.name] ==> x == svc.name;
  }

  lemma FailedDeletionStep(c: Config, s: State, name: string)
    requires NormalizeName(name) == name && name in s.services && !s.services[name].hasSecret
    ensures Deletes(s, DeleteService(name, false, true, false, true))
    ensures Step(c, s, DeleteService(name, false, true, false, true)) == (s.(services := s.services - {name}), ServerError)
  {
    hide NormalizeName, DropEverywhere;
  }

  /** A failed deletion, exactly as the code leaves it: the service is gone from memory
      and the user still lists it. */
  lemma FailedDeletionDangles(urlOk: UrlCheck, svc: Service, user: User)
    requires Clean(urlOk, svc) && OnlyMember(svc, user) && !svc.hasSecret
    ensures var s := OneOfEach(svc, user);
            var gone := Step(Config(urlOk, false), s, DeleteService(svc.name, false, true, false, true));
            gone.1 == ServerError && svc.name !in gone.0.services && gone.0.users == s.users && !Integrity(gone.0)
  {
    hide Clean, NormalizeName, WellFormed, OnlyMember, Integrity, Step, Deletes, Restricted;
    OneOfEachFits(urlOk, svc, user);
    var c, s, a := Config(urlOk, false), OneOfEach(svc, user), DeleteService(svc.name, false, true, false, true);
    assert s.services[svc.name] == svc;
    FailedDeletionStep(c, s, svc.name);
    assert Dangling(s, a);
    StepIntegrity(c, s, a);
  }

  /** WHAT THAT LEADS TO. From a state with full integrity, a deletion whose write fails
      and a new service of the same name let the user in without any grant. */
  lemma FailedDeletionReopens(urlOk: UrlCheck, svc: Service, user: User, req: ServiceRequest)
    requires Clean(urlOk, svc) && OnlyMember(svc, user) && !svc.hasSecret
    requires NormalizeName(req.name) == svc.name && Built(urlOk, req, None).Some? && !NeedsSecrets(req) && req.secret == ""
    ensures var c := Config(urlOk, false);
            var run := [DeleteService(svc.name, false, true, false, true), CreateService(req, false, true, true)];
            var after := StateAt(c, OneOfEach(svc, user), run, 2);
            && WellFormed(c, OneOfEach(svc, user)) && Integrity(OneOfEach(svc, user))
            && svc.name in after.services && CanAccess(after.users, user.name, svc.name)
  {
    OneOfEachFits(urlOk, svc, user);
    FailedDeletionDangles(urlOk, svc, user);
    var c, s := Config(urlOk, false), OneOfEach(svc, user);
    var run := [DeleteService(svc.name, false, true, false, true), CreateService(req, false, true, true)];
    hide Clean, NormalizeName, WellFormed, Integrity, Step, Built, NeedsSecrets;
    var gone := StateAt(c, s, run, 1);
    assert StateAt(c, s, run, 0) == s;
    assert gone == Step(c, s, run[0]).0;
    CreateServiceAdds(c, gone, req);
    assert StateAt(c, s, run, 2) == Step(c, gone, run[1]).0;
  }

  /** The only admin, stored as " root", can be deleted. */
  lemma BlankNamedAdminIsRemovable(c: Config, services: Services)
    ensures var s := State(services, map[" root" := BLANK_ROOT]);
            var after := Step(c, s, DeleteUser(" root", true));
            Named(s.users) && FirstAdmin(s.users, " root") && after.1 == Ok && !SomeAdmin(after.0.users)
  {
    var s := State(services, map[" root" := BLANK_ROOT]);
    hide Trim, Less;
    assert !Trimmed(" root");
    TrimFixes(" root");
    assert !Protected(s.users, " root");
  }
}