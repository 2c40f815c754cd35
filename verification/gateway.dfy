/** The catch-all handler (main.go): the order in which a request is judged, what is
    recorded about it, and when it reaches an upstream service. */
module Gateway {
  import opened Common
  import opened Text
  import opened ServiceCatalog
  import opened UserRegistry
  import opened UserStores
  import opened RoutePolicy
  import opened ProxyPath
  import opened UrlEncoding
  import opened UserDurability
  import opened AdminOutcomes
  import BoundedLogs
  import Retry

  type Policies = map<string, seq<Rule>>

  /** A request past the session, CSRF and rate-limit middleware. `user` is empty without
      a session; `scope` is the service list of an API token, if one was used. */
  datatype Request = Request(urlPath: string, httpMethod: string, user: string, authSource: string, scope: Option<seq<string>>)

  datatype Answer =
    | PassedOn
    | Denied(status: int, reason: string, policyId: string)
    | Forwarded(service: Service, reason: string, policyId: string)

  // ---- the judgement -----------------------------------------------------

  function ServiceOf(req: Request): string {
    SplitPath(req.urlPath).0
  }

  predicate ScopeAdmits(scope: Option<seq<string>>, service: string) {
    scope.None? || scope.value == [] || service in scope.value
  }

  /** What the user store answers about the trimmed user and the normalised service. */
  function StandingOf(users: Users, user: string, service: string): Standing {
    if Trim(user) in users && users[Trim(user)].role == "admin" then Admin
    else Member(CanAccess(users, Trim(user), NormalizeName(service)))
  }

  function Access(users: Users, policies: Policies, req: Request): Decision {
    RouteAccess(StandingOf(users, req.user, ServiceOf(req)), RulesOf(policies, req.user),
                ServiceOf(req), req.httpMethod, RoutePath(req.urlPath), req.authSource)
  }

  function Judge(services: Services, users: Users, policies: Policies, req: Request): Answer {
    var name := ServiceOf(req);
    if TrimPrefix(req.urlPath, "/") == "" then PassedOn
    else if !Known(services, name) then Denied(404, "service not found", "")
    else if req.user == "" then Denied(401, "authentication required", "")
    else if !ScopeAdmits(req.scope, name) then Denied(403, "token scope denied", "")
    else
      var d := Access(users, policies, req);
      if !d.allowed then Denied(403, d.reason, d.policyId)
      else Forwarded(services[name], d.reason, d.policyId)
  }

  /** The one audit record of a judged request; `status` is the upstream's answer. */
  function RecordOf(req: Request, answer: Answer, status: int): BoundedLogs.AuditEvent
    requires !answer.PassedOn?
  {
    BoundedLogs.AuditEvent("", 0, req.user, ServiceOf(req), req.httpMethod, RoutePath(req.urlPath),
                           if answer.Forwarded? then "allow" else "deny", answer.reason, answer.policyId,
                           if answer.Forwarded? then status else answer.status)
  }

  // ---- the handler -------------------------------------------------------

  class Handler {
    const catalog: ServiceStore
    const users: UserStore
    const policies: PolicyStore
    const audit: BoundedLogs.AuditLog
    const monitor: BoundedLogs.Monitor

    constructor (catalog: ServiceStore, users: UserStore, policies: PolicyStore,
                 audit: BoundedLogs.AuditLog, monitor: BoundedLogs.Monitor)
      ensures this.catalog == catalog && this.users == users && this.policies == policies
      ensures this.audit == audit && this.monitor == monitor
    {
      this.catalog, this.users, this.policies, this.audit, this.monitor := catalog, users, policies, audit, monitor;
    }

    /** Everything that can be asked or recorded is in order. */
    ghost predicate Ready()
      reads users, audit, monitor, monitor.services.Values
    {
      users.Valid() && audit.Valid() && monitor.CountersValid()
    }

    ghost function Judged(req: Request): Answer
      reads catalog, users, users.cache.Values, policies
    {
      Judge(catalog.services, users.View(), policies.policies, req)
    }

    /** EXACTLY ONE RECORD for every judged request, with its verdict; none for the root. */
    method Serve(req: Request, upstreamStatus: int, freshId: string, now: int) returns (answer: Answer)
      requires Ready()
      modifies audit, monitor`services, monitor.services.Values
      ensures Ready() && answer == Judged(req)
      ensures audit.history == old(audit.history)
              + if answer.PassedOn? then [] else [RecordOf(req, answer, upstreamStatus).(id := freshId, ts := now)]
      ensures answer.Forwarded? ==> answer.service.name in monitor.services
    {
      hide Judge, RoutePath, RecordOf, BoundedLogs.Monitor.CountersValid, BoundedLogs.AuditLog.Valid, UserStore.Valid, Judged;
      answer := Check(req);
      if answer.PassedOn? {
        return;
      }
      if answer.Forwarded? {
        monitor.RegisterService(answer.service.name, answer.service.baseUrl);
      }
      Note(req, answer, upstreamStatus, freshId, now);
    }

    /** The checks, in order; nothing changes until the verdict is known. */
    method Check(req: Request) returns (answer: Answer)
      requires users.Valid()
      ensures answer == Judged(req)
    {
      hide Access, SplitPath;
      var path := TrimPrefix(req.urlPath, "/");
      if path == "" {
        return PassedOn;
      }
      var svc := ServiceOf(req);
      if !Known(catalog.services, svc) {
        return Denied(404, "service not found", "");
      }
      var serviceCfg := catalog.services[svc];
      if req.user == "" {
        return Denied(401, "authentication required", "");
      }
      if req.scope.Some? && |req.scope.value| > 0 && svc !in req.scope.value {
        return Denied(403, "token scope denied", "");
      }
      var d := Decide(req, svc);
      if !d.allowed {
        return Denied(403, d.reason, d.policyId);
      }
      return Forwarded(serviceCfg, d.reason, d.policyId);
    }

    method Decide(req: Request, svc: string) returns (d: Decision)
      requires users.Valid() && svc == ServiceOf(req)
      ensures d == Access(users.View(), policies.policies, req)
    {
      hide NormalizeName, Trim, RouteAccess, RulesOf;
      var user := Trim(req.user);
      var role := users.GetRole(user);
      var standing := Admin;
      if role != "admin" {
        var may := users.CanAccessService(user, NormalizeName(svc));
        standing := Member(may);
      }
      d := policies.EvaluateRouteAccess(standing, req.user, svc, req.httpMethod, RoutePath(req.urlPath), req.authSource);
    }

    method Note(req: Request, answer: Answer, status: int, freshId: string, now: int)
      requires audit.Valid() && !answer.PassedOn?
      modifies audit
      ensures audit.Valid()
      ensures audit.history == old(audit.history) + [RecordOf(req, answer, status).(id := freshId, ts := now)]
    {
      hide RoutePath;
      audit.RecordAuditEvent(RecordOf(req, answer, status), freshId, now);
    }
  }

  // ---- when a request reaches an upstream --------------------------------

  /** A stored rule binds the requests to its service whose path starts with its prefix
      and whose method it lists, if it lists any. */
  predicate Binds(rule: Rule, service: string, verb: string, path: string) {
    && rule.service == service
    && |rule.prefix| <= |path| && path[..|rule.prefix|] == rule.prefix
    && (|rule.methods| > 0 ==> exists i :: 0 <= i < |rule.methods| && rule.methods[i] == verb)
  }

  /** Of the rules that bind the request this one has the shortest prefix, then the smallest ID. */
  ghost predicate Foremost(rules: seq<Rule>, rule: Rule, service: string, verb: string, path: string) {
    && rule in rules && Binds(rule, service, verb, path)
    && forall r :: r in rules && r != rule && Binds(r, service, verb, path) ==>
         |rule.prefix| < |r.prefix| || (rule.prefix == r.prefix && Less(rule.id, r.id))
  }

  /** What the rules say, without mentioning their order: no rule for the service, or
      the foremost rule does not ask for more than this session gives. */
  ghost predicate RulesPermit(rules: seq<Rule>, service: string, verb: string, path: string, authSource: string) {
    || (forall r :: r in rules ==> r.service != service)
    || (exists rule :: Foremost(rules, rule, service, verb, path) && (rule.mfa ==> authSource == "session"))
  }

  ghost predicate MayPass(services: Services, users: Users, policies: Policies, req: Request) {
    var name, user := ServiceOf(req), Trim(req.user);
    && name in services && services[name].enabled && req.user != ""
    && (req.scope.None? || req.scope.value == [] || name in req.scope.value)
    && user in users
    && (users[user].role == "admin"
        || ((!users[user].configured || name in users[user].allowed)
            && RulesPermit(RulesOf(policies, req.user), name, ToUpper(Trim(req.httpMethod)), JudgedPath(req.urlPath), req.authSource)))
  }

  lemma BindsApplies(rule: Rule, service: string, verb: string, path: string)
    ensures Binds(rule, service, verb, path) <==> Applies(rule, service, verb, path)
  {
  }

  lemma ForemostDecides(rules: seq<Rule>, rule: Rule, service: string, verb: string, path: string)
    ensures Foremost(rules, rule, service, verb, path) <==> Deciding(rules, rule, service, verb, path)
  {
    hide Binds, Applies, Less;
    forall r ensures Binds(r, service, verb, path) <==> Applies(r, service, verb, path) {
      BindsApplies(r, service, verb, path);
    }
  }

  lemma PermittedRules(rules: seq<Rule>, service: string, httpMethod: string, path: string, authSource: string)
    requires Sorted(rules) && NoTies(rules)
    ensures RoutePolicy.Decide(rules, service, httpMethod, path, authSource).allowed <==> RulesPermit(rules, service, httpMethod, path, authSource)
  {
    hide Sorted, NoTies, Deciding, Foremost;
    forall rule ensures Foremost(rules, rule, service, httpMethod, path) <==> Deciding(rules, rule, service, httpMethod, path) {
      ForemostDecides(rules, rule, service, httpMethod, path);
    }
    FirstMatchDecides(rules, service, httpMethod, path);
    CoversByMember(rules, service);
    var first := FirstMatch(rules, service, httpMethod, path);
    if first.Some? {
      DecidingMember(rules, first.value, service, httpMethod, path);
      forall rule | Deciding(rules, rule, service, httpMethod, path) ensures rule == first.value {
        DecidingIsUnique(rules, rule, first.value, service, httpMethod, path);
      }
    } else {
      forall rule ensures !Deciding(rules, rule, service, httpMethod, path) {
        NoneDeciding(rules, rule, service, httpMethod, path);
      }
    }
  }

  lemma DecidingMember(rules: seq<Rule>, rule: Rule, service: string, httpMethod: string, path: string)
    requires Deciding(rules, rule, service, httpMethod, path)
    ensures rule in rules && rule.service == service
  {
  }

  lemma NoneDeciding(rules: seq<Rule>, rule: Rule, service: string, httpMethod: string, path: string)
    requires forall r :: r in rules ==> !Applies(r, service, httpMethod, path)
    ensures !Deciding(rules, rule, service, httpMethod, path)
  {
    hide Applies;
  }

  lemma AdminMayAccess(users: Users, user: string, service: string)
    requires NormalizeName(service) == service
    ensures StandingOf(users, user, service) == Admin <==> Trim(user) in users && users[Trim(user)].role == "admin"
    ensures StandingOf(users, user, service) != Admin ==> StandingOf(users, user, service) == Member(CanAccess(users, Trim(user), service))
    ensures StandingOf(users, user, service) == Admin ==> CanAccess(users, Trim(user), service)
  {
    hide NormalizeName, Trim;
  }

  lemma KnownNameIsNormal(urlOk: UrlCheck, services: Services, name: string)
    requires Valid(urlOk, services) && name in services
    ensures NormalizeName(name) == name != ""
  {
    hide ServiceCatalog.Clean, NormalizeName;
    CleanNamed(urlOk, services[name]);
  }

  lemma AccessMeans(users: Users, policies: Policies, req: Request)
    requires NormalizeName(ServiceOf(req)) == ServiceOf(req)
    requires Sorted(RulesOf(policies, req.user)) && NoTies(RulesOf(policies, req.user))
    ensures Access(users, policies, req).allowed <==>
              && CanAccess(users, Trim(req.user), ServiceOf(req))
              && (users[Trim(req.user)].role == "admin"
                  || RulesPermit(RulesOf(policies, req.user), ServiceOf(req), ToUpper(Trim(req.httpMethod)), JudgedPath(req.urlPath), req.authSource))
  {
    hide Sorted, NoTies, NormalizeName, Trim, ToUpper, RulesOf, RulesPermit, NormalizePath, RoutePath, StandingOf, CanAccess, SplitPath;
    AdminMayAccess(users, req.user, ServiceOf(req));
    CanAccessNeedsUser(users, Trim(req.user), ServiceOf(req));
    PermittedRules(RulesOf(policies, req.user), ServiceOf(req), ToUpper(Trim(req.httpMethod)), NormalizePath(RoutePath(req.urlPath)), req.authSource);
  }

  lemma CanAccessNeedsUser(users: Users, user: string, service: string)
    ensures CanAccess(users, user, service) ==> user in users
  {
  }

  /** WHEN A REQUEST IS FORWARDED. Exactly when its service is known and enabled, there
      is a user, the token's scope admits the service, the user may access it, and,
      unless the user is an admin, the deciding rule for the request permits it. */
  lemma ForwardedExactlyWhen(urlOk: UrlCheck, services: Services, users: Users, policies: Policies, req: Request)
    requires Valid(urlOk, services)
    requires Sorted(RulesOf(policies, req.user)) && NoTies(RulesOf(policies, req.user))
    ensures Judge(services, users, policies, req).Forwarded? <==> MayPass(services, users, policies, req)
  {
    hide Sorted, NoTies, NormalizeName, Trim, ToUpper, RulesOf, RulesPermit, JudgedPath, Access, Valid, SplitPath;
    var name := ServiceOf(req);
    RootHasNoService(req.urlPath);
    if Known(services, name) {
      KnownNameIsNormal(urlOk, services, name);
      AccessMeans(users, policies, req);
    }
  }

  /** WHAT IS RECORDED. The one record of a judged request names its user, service, method
      and path; it says "allow", with the upstream's status, exactly if the request may pass,
      and else "deny", with 404 for a service not known or not enabled, 401 without a user
      and 403 for the rest. A request that passes goes to the entry of its service. */
  lemma RecordedVerdict(urlOk: UrlCheck, services: Services, users: Users, policies: Policies, req: Request, status: int)
    requires Valid(urlOk, services)
    requires Sorted(RulesOf(policies, req.user)) && NoTies(RulesOf(policies, req.user))
    requires !Judge(services, users, policies, req).PassedOn?
    ensures var record, name := RecordOf(req, Judge(services, users, policies, req), status), ServiceOf(req);
            && record.user == req.user && record.service == name && record.httpMethod == req.httpMethod
            && record.path == RoutePath(req.urlPath)
            && record.decision == (if MayPass(services, users, policies, req) then "allow" else "deny")
            && record.status == if MayPass(services, users, policies, req) then status
                                else if !(name in services && services[name].enabled) then 404
                                else if req.user == "" then 401 else 403
    ensures MayPass(services, users, policies, req) ==>
              Judge(services, users, policies, req).service == services[ServiceOf(req)]
              && Judge(services, users, policies, req).service.name == ServiceOf(req)
  {
    hide Sorted, NoTies, Trim, ToUpper, RulesOf, RulesPermit, JudgedPath, RoutePath, Access, SplitPath, ServiceCatalog.Clean;
    ForwardedExactlyWhen(urlOk, services, users, policies, req);
  }

  lemma RootHasNoService(urlPath: string)
    ensures TrimPrefix(urlPath, "/") == "" ==> SplitPath(urlPath) == ("", None)
  {
  }

  // ---- across the components ---------------------------------------------

  /** A DELETED SERVICE DENIES. After a service is deleted, and however often it is created
      again, no request of a restricted user reaches it until an admin grants it anew. */
  lemma DeletedServiceNotForwarded(c: Config, s: State, run: seq<Action>, i: nat, j: nat, policies: Policies, req: Request)
    requires i < j <= |run| && WellFormed(c, s) && Integrity(s)
    requires forall k :: 0 <= k < |run| && run[k].DeleteService? ==> run[k].written
    requires Deletes(StateAt(c, s, run, i), run[i]) && ServiceOf(req) == NormalizeName(run[i].rawName)
    requires forall k :: i < k < j ==> !Grants(StateAt(c, s, run, k), run[k], Trim(req.user), ServiceOf(req))
    requires Trim(req.user) !in StateAt(c, s, run, j).users || Restricted(StateAt(c, s, run, j).users[Trim(req.user)])
    ensures !Judge(StateAt(c, s, run, j).services, StateAt(c, s, run, j).users, policies, req).Forwarded?
  {
    hide WellFormed, Integrity, Step, Grants, NormalizeName, Trim, Access, SplitPath;
    DeletedServiceStaysClosed(c, s, run, i, j, Trim(req.user));
    NameStable(run[i].rawName);
    var users := StateAt(c, s, run, j).users;
    assert !CanAccess(users, Trim(req.user), ServiceOf(req));
    WithoutAccess(users, policies, req);
  }

  /** THE SAME ACROSS RESTARTS, over every run in which writes succeed. */
  lemma ClosedServiceNotForwarded(c: Config, w: World, run: seq<Event>, i: nat, j: nat, policies: Policies, req: Request)
    requires i < j <= |run| && Sound(c, w) && forall k :: 0 <= k < |run| ==> Complete(run[k])
    requires run[i].Do? && Deletes(WorldAt(c, w, run, i).mem, run[i].a) && ServiceOf(req) == NormalizeName(run[i].a.rawName)
    requires forall k :: i < k < j ==> !GrantsNow(WorldAt(c, w, run, k), run[k], Trim(req.user), ServiceOf(req))
    requires var users := WorldAt(c, w, run, j).mem.users;
             Trim(req.user) !in users || Restricted(users[Trim(req.user)])
    ensures var s := WorldAt(c, w, run, j).mem;
            !Judge(s.services, s.users, policies, req).Forwarded?
  {
    hide Sound, Complete, GrantsNow, Next, NormalizeName, Trim, Access, SplitPath;
    ClosedAcrossRestarts(c, w, run, i, j, Trim(req.user));
    NameStable(run[i].a.rawName);
    var users := WorldAt(c, w, run, j).mem.users;
    assert !CanAccess(users, Trim(req.user), ServiceOf(req));
    WithoutAccess(users, policies, req);
  }

  /** A DISABLED SERVICE IS NOT FOUND. After an update has disabled a service, no request of
      anyone reaches it, over any run, until a request enables it or creates it anew. */
  lemma DisabledServiceNotForwarded(c: Config, s: State, run: seq<Action>, i: nat, j: nat, policies: Policies, req: Request)
    requires i < j <= |run| && WellFormed(c, s) && run[i].UpdateService? && run[i].req.enabled == Some(false)
    requires var reply := Step(c, StateAt(c, s, run, i), run[i]).1; reply == Ok || reply == ServerError
    requires ServiceOf(req) == Subject(run[i]) && forall k :: i < k < j ==> !Enables(run[k], ServiceOf(req))
    requires TrimPrefix(req.urlPath, "/") != ""
    ensures var after := StateAt(c, s, run, j);
            Judge(after.services, after.users, policies, req) == Denied(404, "service not found", "")
  {
    hide WellFormed, Step, Known, Enables, Access, SplitPath, Subject;
    AlwaysWellFormed(c, s, run, i);
    UpdateDisables(c, StateAt(c, s, run, i), run[i]);
    DisabledStaysDisabled(c, s, run, i + 1, j, ServiceOf(req));
  }

  lemma WithoutAccess(users: Users, policies: Policies, req: Request)
    requires NormalizeName(ServiceOf(req)) == ServiceOf(req) && !CanAccess(users, Trim(req.user), ServiceOf(req))
    ensures Access(users, policies, req) == SERVICE_DENIED
  {
    hide NormalizeName, Trim, SplitPath, RoutePolicy.Decide;
  }

  lemma RoutedName(urlOk: UrlCheck, services: Services, urlPath: string)
    requires Valid(urlOk, services) && Known(services, SplitPath(urlPath).0)
    ensures RoutableName(SplitPath(urlPath).0)
  {
    hide NormalizeName, ServiceCatalog.Clean;
    KnownNameIsNormal(urlOk, services, SplitPath(urlPath).0);
  }

  lemma SplitRecomposes(urlPath: string)
    requires HasPrefix(urlPath, "/")
    ensures var (name, rest) := SplitPath(urlPath);
            urlPath == "/" + name + (if rest.None? then "" else "/" + rest.value)
  {
    var path := urlPath[1..];
    var k := IndexOf(path, '/');
    assert urlPath == "/" + path;
    if k < |path| {
      assert path == path[..k] + "/" + path[k + 1..];
      assert urlPath == "/" + path[..k] + ("/" + path[k + 1..]);
    } else {
      assert "/" + path + "" == "/" + path;
    }
  }

  /** POLICIES BIND THE UPSTREAM PATH. Under the guard on the request path, a forwarded
      request reaches the upstream below its base path and the deciding rule's prefix. */
  lemma ForwardedUnderPrefix(urlOk: UrlCheck, services: Services, rules: seq<Rule>, rule: Rule, req: Request, raw: string, base: string)
    requires Valid(urlOk, services) && Known(services, ServiceOf(req)) && HasPrefix(req.urlPath, "/")
    requires Deciding(rules, rule, ServiceOf(req), ToUpper(Trim(req.httpMethod)), JudgedPath(req.urlPath))
    requires Agrees(SplitPath(req.urlPath).1, base)
    ensures HasPrefix(ForwardedPath(req.urlPath, raw, ServiceOf(req), base), SlashRight(Trim(base)) + rule.prefix)
  {
    var rest := SplitPath(req.urlPath).1;
    RoutedName(urlOk, services, req.urlPath);
    SplitRecomposes(req.urlPath);
    DecidingPrefix(rules, rule, ServiceOf(req), ToUpper(Trim(req.httpMethod)), JudgedPath(req.urlPath));
    hide Valid, SplitPath, JudgedPath, ForwardedPath, Agrees, Deciding, RoutableName, Trim, ToUpper, SlashRight;
    ForwardedIsJudged(ServiceOf(req), rest, raw, base);
    PrefixBehind(SlashRight(Trim(base)), rule.prefix, JudgedPath(req.urlPath));
  }

  /** The same on the wire: however the client encoded the path, what is sent stands for a
      path below the base path and the deciding rule's prefix. */
  lemma SentUnderPrefix(urlOk: UrlCheck, services: Services, rules: seq<Rule>, rule: Rule, req: Request, raw: string,
                        base: string, baseEscaped: string)
    requires Valid(urlOk, services) && Known(services, ServiceOf(req)) && HasPrefix(req.urlPath, "/")
    requires Deciding(rules, rule, ServiceOf(req), ToUpper(Trim(req.httpMethod)), JudgedPath(req.urlPath))
    requires SentAgrees(SplitPath(req.urlPath).1, base) && Bytes(req.urlPath) && Bytes(base)
    ensures Bytes(ForwardedPath(req.urlPath, raw, ServiceOf(req), base))
    ensures var sent := Unescape(SentPath(req.urlPath, raw, ServiceOf(req), base, baseEscaped));
            sent.Some? && HasPrefix(sent.value, SlashRight(Trim(base)) + rule.prefix)
  {
    var rest := SplitPath(req.urlPath).1;
    RoutedName(urlOk, services, req.urlPath);
    SplitRecomposes(req.urlPath);
    RestBytes(req.urlPath);
    DecidingPrefix(rules, rule, ServiceOf(req), ToUpper(Trim(req.httpMethod)), JudgedPath(req.urlPath));
    hide Valid, SplitPath, JudgedPath, ForwardedPath, SentPath, SentAgrees, Deciding, RoutableName, Trim, ToUpper, SlashRight, Bytes;
    SentDecodesToJudged(ServiceOf(req), rest, raw, base, baseEscaped);
    PrefixBehind(SlashRight(Trim(base)), rule.prefix, JudgedPath(req.urlPath));
  }

  lemma RestBytes(urlPath: string)
    requires Bytes(urlPath)
    ensures var rest := SplitPath(urlPath).1; rest.Some? ==> Bytes(rest.value)
  {
  }

  lemma DecidingPrefix(rules: seq<Rule>, rule: Rule, service: string, httpMethod: string, path: string)
    requires Deciding(rules, rule, service, httpMethod, path)
    ensures HasPrefix(path, rule.prefix)
  {
  }

  lemma PrefixBehind(base: string, prefix: string, path: string)
    requires HasPrefix(path, prefix)
    ensures HasPrefix(base + path, base + prefix)
  {
    assert (base + path)[..|base + prefix|] == base + prefix;
  }

  /** BOUNDED RETRIES. For a service from the catalogue a request is sent one to four
      times, and a response or an error always comes back. */
  method SendTo(urlOk: UrlCheck, svc: Service, httpMethod: string, script: Retry.Script) returns (o: Retry.Outcome, sent: nat, closed: seq<nat>)
    requires ServiceCatalog.Clean(urlOk, svc)
    ensures 1 <= sent <= 4 && (!Retry.Safe(httpMethod) ==> sent == 1)
    ensures o == Retry.Decide(httpMethod, Retry.Attempts(httpMethod, svc.retryCount), script, 0) && o != Retry.Neither
    ensures Retry.Once(closed) && forall k: nat :: k in closed <==> k < sent && Retry.HasBody(script(k)) && o != Retry.Returned(k)
  {
    assert 0 <= svc.retryCount <= MAX_RETRIES;
    o, sent, closed := Retry.Send(httpMethod, svc.retryCount, script);
    Retry.NothingAtAll(httpMethod, svc.retryCount, script);
    Retry.DecideWithin(httpMethod, Retry.Attempts(httpMethod, svc.retryCount), script, 0);
  }
}
