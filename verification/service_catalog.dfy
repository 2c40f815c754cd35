/** The service catalogue (config/services.go): how an entry is cleaned, how one entry
    is added or removed by rewriting the whole catalogue, and which names a list of
    allowed services keeps. */
module ServiceCatalog {
  import opened Common
  import opened Text

  datatype Service = Service(name: string, baseUrl: string, auth: string, header: string, basicUser: string,
                             skipTls: bool, provider: string, openAi: bool, timeoutMs: int, retryCount: int,
                             enabled: bool, hasSecret: bool)

  type Services = map<string, Service>

  /** Whether a trimmed URL is an absolute http or https URL without credentials or
      fragment; URL parsing itself is not modelled. */
  type UrlCheck = string -> bool

  const MAX_TIMEOUT_MS := 120000
  const MAX_RETRIES := 3

  function CleanAuth(auth: string): string {
    if auth in ["none", "bearer", "x-api-key", "custom-header", "basic"] then auth else "none"
  }

  function CleanHeader(auth: string, header: string): string {
    if header != "" then header
    else if auth == "x-api-key" then "X-API-Key"
    else if auth == "custom-header" then "Authorization"
    else ""
  }

  function CleanTimeout(ms: int): int {
    if ms <= 0 then 10000 else if ms > MAX_TIMEOUT_MS then MAX_TIMEOUT_MS else ms
  }

  function CleanRetries(n: int): int {
    if n < 0 then 0 else if n > MAX_RETRIES then MAX_RETRIES else n
  }

  function Normalized(urlOk: UrlCheck, svc: Service): Option<Service> {
    var name, url := NormalizeName(svc.name), Trim(svc.baseUrl);
    if name == "" || url == "" || !urlOk(Trim(url)) then None
    else
      var auth := CleanAuth(svc.auth);
      Some(Service(name, url, auth, CleanHeader(auth, Trim(svc.header)), Trim(svc.basicUser), svc.skipTls,
                   NormalizeName(svc.provider), svc.openAi, CleanTimeout(svc.timeoutMs), CleanRetries(svc.retryCount),
                   svc.enabled, svc.hasSecret))
  }

  predicate Clean(urlOk: UrlCheck, svc: Service) {
    Normalized(urlOk, svc) == Some(svc)
  }

  /** IDEMPOTENCE. A cleaned entry is clean: rewriting the catalogue never changes an
      entry that was stored before. */
  lemma NormalizedIsClean(urlOk: UrlCheck, svc: Service)
    requires Normalized(urlOk, svc).Some?
    ensures Clean(urlOk, Normalized(urlOk, svc).value)
  {
    hide NormalizeName, CleanAuth, CleanHeader, Trim, Trimmed, NormalName, CleanTimeout, CleanRetries;
    NameStable(svc.name);
    NameStable(svc.provider);
    CleanAuthStable(svc.auth);
    TrimStable(svc.baseUrl);
    TrimStable(svc.basicUser);
    HeaderStable(CleanAuth(svc.auth), svc.header);
    BoundsStable(svc.timeoutMs, svc.retryCount);
  }

  lemma NameStable(s: string)
    ensures NormalizeName(NormalizeName(s)) == NormalizeName(s)
  {
    hide NormalizeName;
    NormalizeNameIdempotent(s);
  }

  lemma HeaderStable(auth: string, header: string)
    ensures CleanHeader(auth, Trim(CleanHeader(auth, Trim(header)))) == CleanHeader(auth, Trim(header))
  {
    hide CleanHeader;
    CleanHeaderStable(auth, Trim(header));
  }

  lemma BoundsStable(ms: int, n: int)
    ensures CleanTimeout(CleanTimeout(ms)) == CleanTimeout(ms) && CleanRetries(CleanRetries(n)) == CleanRetries(n)
  {
  }

  lemma CleanAuthStable(auth: string)
    ensures CleanAuth(CleanAuth(auth)) == CleanAuth(auth)
  {
  }

  lemma CleanHeaderStable(auth: string, header: string)
    requires Trimmed(header)
    ensures CleanHeader(auth, Trim(CleanHeader(auth, header))) == CleanHeader(auth, header)
  {
    TrimStable(header);
    hide Trim;
    assert Trimmed("X-API-Key") && Trimmed("Authorization") && Trimmed("");
    assert Trimmed(CleanHeader(auth, header));
  }

  lemma TrimStable(s: string)
    ensures Trim(Trim(s)) == Trim(s)
  {
    hide Trim;
  }

  // ---- the catalogue -----------------------------------------------------

  /** Every entry is stored clean, under its own name. */
  ghost predicate Valid(urlOk: UrlCheck, services: Services) {
    forall name :: name in services ==> services[name].name == name && Clean(urlOk, services[name])
  }

  predicate Known(services: Services, name: string) {
    name in services && services[name].enabled
  }

  /** What a whole list of entries becomes: the unusable ones dropped, the rest cleaned. */
  function CleanList(urlOk: UrlCheck, list: seq<Service>): seq<Service> {
    if list == [] then []
    else
      var n := |list| - 1;
      match Normalized(urlOk, list[n])
      case None => CleanList(urlOk, list[..n])
      case Some(svc) => CleanList(urlOk, list[..n]) + [svc]
  }

  function ByName(list: seq<Service>): Services {
    if list == [] then map[] else ByName(list[..|list| - 1])[list[|list| - 1].name := list[|list| - 1]]
  }

  ghost predicate DistinctNames(list: seq<Service>) {
    forall i, j :: 0 <= i < j < |list| ==> list[i].name != list[j].name
  }

  /** The list names each stored entry once. */
  ghost predicate Lists(list: seq<Service>, services: Services) {
    && DistinctNames(list)
    && (forall i :: 0 <= i < |list| ==> list[i].name in services && services[list[i].name] == list[i])
    && (forall name :: name in services ==> services[name].name == name && services[name] in list)
  }

  lemma {:induction false} CleanListKeeps(urlOk: UrlCheck, list: seq<Service>)
    requires forall i :: 0 <= i < |list| ==> Clean(urlOk, list[i])
    ensures CleanList(urlOk, list) == list
  {
    hide Normalized;
    if list != [] {
      var n := |list| - 1;
      assert Clean(urlOk, list[n]);
      assert list == list[..n] + [list[n]];
      hide Clean;
      CleanListKeeps(urlOk, list[..n]);
    }
  }

  lemma DistinctSplits(list: seq<Service>, last: Service)
    ensures DistinctNames(list + [last]) <==> DistinctNames(list) && forall svc :: svc in list ==> svc.name != last.name
  {
    if DistinctNames(list + [last]) {
      forall i, j | 0 <= i < j < |list| ensures list[i].name != list[j].name {
        assert (list + [last])[i].name != (list + [last])[j].name;
      }
      forall svc | svc in list ensures svc.name != last.name {
        var i :| 0 <= i < |list| && list[i] == svc;
        assert (list + [last])[i].name != (list + [last])[|list|].name;
      }
    }
  }

  lemma ListsStep(list: seq<Service>, last: Service, services: Services)
    requires Lists(list, services) && DistinctNames(list + [last])
    ensures Lists(list + [last], services[last.name := last])
  {
    hide DistinctNames;
    DistinctSplits(list, last);
    var all, more := list + [last], services[last.name := last];
    forall i | 0 <= i < |all| ensures all[i].name in more && more[all[i].name] == all[i] {
      if i < |list| {
        assert all[i] == list[i] && list[i] in list;
      }
    }
    assert all[|list|] == last;
  }

  lemma {:induction false} ByNameLists(list: seq<Service>)
    requires DistinctNames(list)
    ensures Lists(list, ByName(list))
  {
    if list != [] {
      var n := |list| - 1;
      assert list == list[..n] + [list[n]];
      DistinctSplits(list[..n], list[n]);
      ByNameLists(list[..n]);
      hide Lists, DistinctNames;
      ListsStep(list[..n], list[n], ByName(list[..n]));
    }
  }

  lemma ListsUnique(list: seq<Service>, a: Services, b: Services)
    requires Lists(list, a) && Lists(list, b)
    ensures a == b
  {
    forall name | name in a ensures name in b && b[name] == a[name] {
      assert a[name] in list;
    }
    forall name | name in b ensures name in a {
      assert b[name] in list;
    }
  }

  /** Saving a list that names every entry of a valid catalogue gives that catalogue. */
  lemma SavedList(urlOk: UrlCheck, list: seq<Service>, services: Services)
    requires Valid(urlOk, services) && Lists(list, services)
    ensures CleanList(urlOk, list) == list && ByName(list) == services
  {
    hide Clean;
    CleanListKeeps(urlOk, list);
    ByNameLists(list);
    ListsUnique(list, ByName(list), services);
  }

  /** Adding or replacing one entry. */
  function Upserted(urlOk: UrlCheck, services: Services, svc: Service): Services {
    match Normalized(urlOk, svc)
    case None => services
    case Some(clean) => services[clean.name := clean]
  }

  /** One entry is stored clean, and every other entry is what it was. */
  lemma UpsertKeepsOthers(urlOk: UrlCheck, services: Services, svc: Service, other: string)
    requires Valid(urlOk, services)
    ensures Valid(urlOk, Upserted(urlOk, services, svc))
    ensures other != NormalizeName(svc.name) ==>
              (other in Upserted(urlOk, services, svc) <==> other in services)
              && (other in services ==> Upserted(urlOk, services, svc)[other] == services[other])
    ensures services.Keys <= Upserted(urlOk, services, svc).Keys
  {
    hide Clean, Normalized, NormalizeName;
    match Normalized(urlOk, svc)
    case None =>
    case Some(clean) =>
      NormalizedIsClean(urlOk, svc);
      NormalizedName(urlOk, svc);
      CleanNamed(urlOk, clean);
  }

  lemma NormalizedName(urlOk: UrlCheck, svc: Service)
    ensures Normalized(urlOk, svc).Some? ==> Normalized(urlOk, svc).value.name == NormalizeName(svc.name) != ""
  {
    hide NormalizeName, Trim, CleanAuth, CleanHeader, CleanTimeout, CleanRetries;
  }

  lemma CleanNamed(urlOk: UrlCheck, svc: Service)
    requires Clean(urlOk, svc)
    ensures svc.name == NormalizeName(svc.name) != ""
  {
    hide Normalized, NormalizeName;
    NormalizedName(urlOk, svc);
  }

  // ---- allowed service names ---------------------------------------------

  /** The trimmed names that are known and enabled, each once, in the order given. */
  function KnownNames(services: Services, names: seq<string>): seq<string> {
    if names == [] then []
    else
      var n := |names| - 1;
      var rest, name := KnownNames(services, names[..n]), Trim(names[n]);
      if !Known(services, name) || name in rest then rest else rest + [name]
  }

  function NormalizeAllowed(services: Services, names: seq<string>): seq<string> {
    SortTexts(KnownNames(services, names))
  }

  lemma {:induction false} KnownNamesMembers(services: Services, names: seq<string>)
    ensures forall x :: x in KnownNames(services, names) <==>
              Known(services, x) && exists i :: 0 <= i < |names| && Trim(names[i]) == x
  {
    hide Trim, Known;
    if names != [] {
      var n := |names| - 1;
      KnownNamesMembers(services, names[..n]);
      assert forall i :: 0 <= i < n ==> names[..n][i] == names[i];
      var all, rest, last := KnownNames(services, names), KnownNames(services, names[..n]), Trim(names[n]);
      assert forall x :: x in all <==> x in rest || (x == last && Known(services, last));
    }
  }

  /** What a stored allow list holds: exactly the submitted names that are known and
      enabled at that moment. */
  lemma NormalizeAllowedMembers(services: Services, names: seq<string>)
    ensures forall x :: x in NormalizeAllowed(services, names) <==>
              Known(services, x) && exists i :: 0 <= i < |names| && Trim(names[i]) == x
  {
    hide Trim, Known, SortTexts, KnownNames;
    KnownNamesMembers(services, names);
    var r, k := NormalizeAllowed(services, names), KnownNames(services, names);
    forall x ensures x in r <==> x in k {
      assert x in r <==> x in multiset(r);
    }
  }

  method NormalizeAllowedServices(services: Services, names: seq<string>) returns (out: seq<string>)
    ensures out == NormalizeAllowed(services, names)
  {
    hide Trim, Known;
    out := [];
    if |names| == 0 {
      return;
    }
    var seen: set<string> := {};
    for i := 0 to |names|
      invariant out == KnownNames(services, names[..i])
      invariant forall x :: x in seen <==> x in out
    {
      assert names[..i + 1][..i] == names[..i];
      var name := Trim(names[i]);
      if !Known(services, name) {
        continue;
      }
      if name in seen {
        continue;
      }
      seen := seen + {name};
      out := out + [name];
    }
    assert names[..|names|] == names;
    out := SortTexts(out);
  }

  // ---- the store ---------------------------------------------------------

  datatype Saving = Saved | Invalid | Missing | WriteFailed

  function InsertService(svc: Service, list: seq<Service>): (r: seq<Service>)
    ensures multiset(r) == multiset(list) + multiset{svc}
  {
    if list == [] || Less(svc.name, list[0].name) then [svc] + list
    else
      assert list == [list[0]] + list[1..];
      [list[0]] + InsertService(svc, list[1..])
  }

  function SortServices(list: seq<Service>): (r: seq<Service>)
    ensures multiset(r) == multiset(list)
  {
    if list == [] then []
    else
      assert list == [list[0]] + list[1..];
      InsertService(list[0], SortServices(list[1..]))
  }

  predicate AscendingNames(list: seq<Service>) {
    forall i, j :: 0 <= i < j < |list| ==> !Less(list[j].name, list[i].name)
  }

  lemma {:induction false} InsertServiceAscends(svc: Service, list: seq<Service>)
    requires AscendingNames(list)
    ensures AscendingNames(InsertService(svc, list))
  {
    hide Less;
    if list == [] {
    } else if Less(svc.name, list[0].name) {
      forall j | 0 <= j < |list| ensures !Less(list[j].name, svc.name) {
        NotLess(svc.name, list[0].name, list[j].name);
      }
    } else {
      var tail := InsertService(svc, list[1..]);
      InsertServiceAscends(svc, list[1..]);
      forall j | 0 <= j < |tail| ensures !Less(tail[j].name, list[0].name) {
        assert tail[j] in multiset(tail);
        assert tail[j] == svc || tail[j] in list[1..];
      }
    }
  }

  lemma {:induction false} SortServicesAscends(list: seq<Service>)
    ensures AscendingNames(SortServices(list))
  {
    hide AscendingNames;
    if list != [] {
      SortServicesAscends(list[1..]);
      InsertServiceAscends(list[0], SortServices(list[1..]));
    } else {
      NoNames();
    }
  }

  lemma NoNames()
    ensures AscendingNames([])
  {
  }

  /** Rearranging a list changes nothing about what it lists. */
  lemma SortedLists(list: seq<Service>, services: Services)
    requires Lists(list, services)
    ensures Lists(SortServices(list), services)
  {
    SameElements(list, SortServices(list), services);
  }

  lemma SameElements(list: seq<Service>, r: seq<Service>, services: Services)
    requires Lists(list, services) && multiset(r) == multiset(list)
    ensures Lists(r, services)
  {
    forall x ensures x in r <==> x in list {
      assert x in multiset(r) <==> x in multiset(list);
    }
    forall i, j | 0 <= i < j < |r| ensures r[i].name != r[j].name {
      OnceEach(list, r[i]);
      TwiceIn(r, i, j);
      assert r[i] in list && r[j] in list;
      assert services[r[i].name] == r[i] && services[r[j].name] == r[j];
    }
    forall i | 0 <= i < |r| ensures r[i].name in services && services[r[i].name] == r[i] {
      assert r[i] in list;
    }
  }

  lemma OnceEach(list: seq<Service>, svc: Service)
    requires DistinctNames(list)
    ensures multiset(list)[svc] <= 1
  {
    if svc in list {
      var k :| 0 <= k < |list| && list[k] == svc;
      assert list == list[..k] + [svc] + list[k + 1..];
      assert svc !in list[..k] && svc !in list[k + 1..];
    }
  }

  lemma TwiceIn(r: seq<Service>, i: nat, j: nat)
    requires i < j < |r|
    ensures r[i] == r[j] ==> multiset(r)[r[i]] >= 2
  {
    if r[i] == r[j] {
      assert r == r[..i] + [r[i]] + r[i + 1..j] + [r[j]] + r[j + 1..];
    }
  }

  /** What saving a list leaves in memory. */
  function SavedServices(urlOk: UrlCheck, list: seq<Service>): Services {
    ByName(SortServices(CleanList(urlOk, list)))
  }

  lemma SaveListed(urlOk: UrlCheck, list: seq<Service>, services: Services)
    requires Valid(urlOk, services) && Lists(list, services)
    ensures SavedServices(urlOk, list) == services && Lists(SortServices(CleanList(urlOk, list)), services)
  {
    hide Lists, Valid, CleanList, ByName, SortServices;
    SavedList(urlOk, list, services);
    SortedLists(list, services);
    SavedList(urlOk, SortServices(list), services);
  }

  /** Replacing or appending one entry in a list of the catalogue lists the upserted one. */
  lemma ReplacedLists(list: seq<Service>, services: Services, clean: Service)
    requires Lists(list, services)
    ensures forall i :: 0 <= i < |list| && list[i].name == clean.name ==> Lists(list[i := clean], services[clean.name := clean])
    ensures (forall i :: 0 <= i < |list| ==> list[i].name != clean.name) ==>
              Lists(list + [clean], services[clean.name := clean])
  {
    var after := services[clean.name := clean];
    forall i | 0 <= i < |list| && list[i].name == clean.name ensures Lists(list[i := clean], after) {
      var r := list[i := clean];
      assert r[i] == clean;
      forall name | name in after ensures after[name].name == name && after[name] in r {
        if name != clean.name {
          var k :| 0 <= k < |list| && list[k] == services[name];
          assert r[k] == list[k];
        }
      }
    }
    if forall i :: 0 <= i < |list| ==> list[i].name != clean.name {
      var r := list + [clean];
      assert r[|list|] == clean;
      forall name | name in after ensures after[name].name == name && after[name] in r {
        if name != clean.name {
          assert services[name] in list;
        }
      }
    }
  }

  function WithoutName(list: seq<Service>, name: string): seq<Service> {
    if list == [] then []
    else
      var n := |list| - 1;
      WithoutName(list[..n], name) + if list[n].name == name then [] else [list[n]]
  }

  lemma ListsNames(list: seq<Service>, services: Services, name: string)
    requires Lists(list, services)
    ensures name in services <==> exists i :: 0 <= i < |list| && list[i].name == name
  {
    if name in services {
      assert services[name] in list;
    }
  }

  lemma {:induction false} WithoutNameLists(list: seq<Service>, services: Services, name: string)
    requires Lists(list, services)
    ensures Lists(WithoutName(list, name), services - {name})
  {
    WithoutNameMembers(list, name);
    var r := WithoutName(list, name);
    forall i | 0 <= i < |r| ensures r[i].name in services - {name} && (services - {name})[r[i].name] == r[i] {
      assert r[i] in list;
    }
  }

  lemma {:induction false} WithoutNameMembers(list: seq<Service>, name: string)
    ensures forall svc :: svc in WithoutName(list, name) <==> svc in list && svc.name != name
    ensures DistinctNames(list) ==> DistinctNames(WithoutName(list, name))
  {
    hide DistinctNames;
    if list != [] {
      var n := |list| - 1;
      var rest := WithoutName(list[..n], name);
      WithoutNameMembers(list[..n], name);
      assert list == list[..n] + [list[n]] && rest + [] == rest;
      if DistinctNames(list) {
        DistinctSplits(list[..n], list[n]);
        LastIsNew(list[..n], list[n], rest);
      }
    }
  }

  lemma LastIsNew(list: seq<Service>, last: Service, kept: seq<Service>)
    requires DistinctNames(kept) && (forall svc :: svc in kept ==> svc in list) && forall svc :: svc in list ==> svc.name != last.name
    ensures DistinctNames(kept + [last])
  {
    hide DistinctNames;
    DistinctSplits(kept, last);
  }

  lemma ValidWithout(urlOk: UrlCheck, services: Services, name: string)
    requires Valid(urlOk, services)
    ensures Valid(urlOk, services - {name})
  {
    hide Clean;
  }

  class ServiceStore {
    const urlOk: UrlCheck
    var services: Services
    var file: seq<Service>

    constructor (urlOk: UrlCheck)
      ensures this.urlOk == urlOk && services == map[] && file == []
    {
      this.urlOk := urlOk;
      services, file := map[], [];
    }

    /** Cleans a list of entries, one after the other. */
    method CleanAll(list: seq<Service>) returns (normalized: seq<Service>)
      ensures normalized == CleanList(urlOk, list)
    {
      hide Normalized;
      normalized := [];
      for i := 0 to |list|
        invariant normalized == CleanList(urlOk, list[..i])
      {
        assert list[..i + 1][..i] == list[..i];
        match Normalized(urlOk, list[i])
        case None =>
        case Some(svc) => normalized := normalized + [svc];
      }
      assert list[..|list|] == list;
    }

    /** Rebuilds the map in memory, then writes the file; a failed write leaves the
        rebuilt map in place. */
    method SaveServices(list: seq<Service>, written: bool) returns (r: Saving)
      modifies this
      ensures r == (if written then Saved else WriteFailed)
      ensures services == SavedServices(urlOk, list)
      ensures file == if written then SortServices(CleanList(urlOk, list)) else old(file)
    {
      hide SortServices, CleanList;
      var normalized := CleanAll(list);
      normalized := SortServices(normalized);
      services := map[];
      for i := 0 to |normalized|
        invariant services == ByName(normalized[..i]) && file == old(file)
      {
        assert normalized[..i + 1][..i] == normalized[..i];
        services := services[normalized[i].name := normalized[i]];
      }
      assert normalized[..|normalized|] == normalized;
      if !written {
        return WriteFailed;
      }
      file := normalized;
      return Saved;
    }

    method GetServiceCatalog() returns (list: seq<Service>)
      requires Valid(urlOk, services)
      ensures Lists(list, services) && AscendingNames(list)
    {
      hide Clean, AscendingNames;
      list := [];
      var todo := services.Keys;
      while todo != {}
        invariant todo <= services.Keys
        invariant Lists(list, services - todo)
      {
        var name :| name in todo;
        ghost var before := services - todo;
        ReplacedLists(list, before, services[name]);
        assert forall i :: 0 <= i < |list| ==> list[i].name != name;
        list := list + [services[name]];
        todo := todo - {name};
        assert services - todo == before[name := services[name]];
      }
      assert services - {} == services;
      SortedLists(list, services);
      SortServicesAscends(list);
      list := SortServices(list);
    }

    method UpsertService(svc: Service, written: bool) returns (r: Saving)
      requires Valid(urlOk, services)
      modifies this
      ensures Valid(urlOk, services) && services == Upserted(urlOk, old(services), svc)
      ensures r == if Normalized(urlOk, svc).None? then Invalid else if written then Saved else WriteFailed
      ensures if r == Saved then Lists(file, services) else file == old(file)
    {
      UpsertKeepsOthers(urlOk, services, svc, "");
      hide Normalized, Lists, Valid, Clean, CleanList, SortServices, ByName;
      match Normalized(urlOk, svc)
      case None => return Invalid;
      case Some(clean) =>
        var list := GetServiceCatalog();
        list := Replace(list, clean);
        SaveListed(urlOk, list, services[clean.name := clean]);
        r := SaveServices(list, written);
    }

    /** Replaces the entry of that name in a listing, or appends it. */
    method Replace(listed: seq<Service>, clean: Service) returns (list: seq<Service>)
      requires Lists(listed, services)
      ensures Lists(list, services[clean.name := clean])
    {
      list := listed;
      ReplacedLists(list, services, clean);
      hide Lists;
      var replaced := false;
      for i := 0 to |list|
        invariant list == listed && !replaced
        invariant forall j :: 0 <= j < i ==> list[j].name != clean.name
      {
        if list[i].name == clean.name {
          list := list[i := clean];
          replaced := true;
          break;
        }
      }
      if !replaced {
        list := list + [clean];
      }
    }

    method DeleteService(rawName: string, written: bool) returns (r: Saving)
      requires Valid(urlOk, services)
      modifies this
      ensures Valid(urlOk, services)
      ensures r == (if NormalizeName(rawName) == "" then Invalid
                    else if NormalizeName(rawName) !in old(services) then Missing
                    else if written then Saved else WriteFailed)
      ensures services == if r == Invalid then old(services) else old(services) - {NormalizeName(rawName)}
      ensures if r == Saved then Lists(file, services) else file == old(file)
    {
      hide NormalizeName, Clean, CleanList, SortServices, ByName, Lists;
      var name := NormalizeName(rawName);
      if name == "" {
        return Invalid;
      }
      var list := GetServiceCatalog();
      var filtered, removed := Filter(list, name);
      if !removed {
        assert services - {name} == services;
        return Missing;
      }
      ValidWithout(urlOk, services, name);
      SaveListed(urlOk, filtered, services - {name});
      r := SaveServices(filtered, written);
    }

    method Filter(list: seq<Service>, name: string) returns (filtered: seq<Service>, removed: bool)
      requires Lists(list, services)
      ensures Lists(filtered, services - {name}) && removed == (name in services)
    {
      hide Lists;
      filtered, removed := [], false;
      for i := 0 to |list|
        invariant filtered == WithoutName(list[..i], name)
        invariant removed <==> exists j :: 0 <= j < i && list[j].name == name
      {
        assert list[..i + 1][..i] == list[..i];
        if list[i].name == name {
          removed := true;
          continue;
        }
        filtered := filtered + [list[i]];
      }
      assert list[..|list|] == list;
      ListsNames(list, services, name);
      WithoutNameLists(list, services, name);
    }

    /** Start-up: the file read back. */
    method LoadServices(readable: bool)
      modifies this`services
      ensures services == if readable then ByName(CleanList(urlOk, file)) else map[]
    {
      hide CleanList;
      services := map[];
      if !readable {
        return;
      }
      var clean := CleanAll(file);
      for i := 0 to |clean|
        invariant services == ByName(clean[..i])
      {
        assert clean[..i + 1][..i] == clean[..i];
        services := services[clean[i].name := clean[i]];
      }
      assert clean[..|clean|] == clean;
    }
  }

  /** RESTART. Reading back a file that lists a valid catalogue gives that catalogue. */
  lemma ReloadGivesCatalogue(urlOk: UrlCheck, file: seq<Service>, services: Services)
    requires Valid(urlOk, services) && Lists(file, services)
    ensures ByName(CleanList(urlOk, file)) == services
  {
    hide Lists, Valid, CleanList, ByName;
    SavedList(urlOk, file, services);
  }
}
