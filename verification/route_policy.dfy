/** Per-user route policies (config/access_policies.go): rules are normalised and
    sorted when they are stored, and the first match in sorted order decides.
    The meaning proved here does not mention the order at all. */
module RoutePolicy {
  import opened Common
  import opened Text

  datatype Rule = Rule(id: string, service: string, prefix: string, methods: seq<string>, mfa: bool)

  datatype Decision = Decision(allowed: bool, reason: string, policyId: string)

  const ADMIN_ROLE := Decision(true, "admin role", "")
  const SERVICE_DENIED := Decision(false, "service access denied", "")
  const ALLOWLISTED := Decision(true, "service allowlist matched", "")
  const NO_MATCH := Decision(false, "no route policy matched", "")

  // ---- normalisation -----------------------------------------------------

  function NormalizePath(path: string): (r: string)
    ensures r != "" && r[0] == '/'
    ensures path != "" && path[0] == '/' && !IsSpace(path[|path| - 1]) ==> r == path
    ensures Trim(path) == "" || Trim(path) == "*" ==> r == "/"
    ensures Trim(path) != "" && Trim(path) != "*" ==> r == Trim(path) || r == "/" + Trim(path)
  {
    var p := Trim(path);
    if p == "" || p == "*" then "/"
    else if HasPrefix(p, "/") then p
    else "/" + p
  }

  function CleanMethod(m: string): string {
    ToUpper(Trim(m))
  }

  /** The cleaned methods, without blanks and repetitions, in the order given. */
  function DistinctMethods(ms: seq<string>): seq<string> {
    if ms == [] then []
    else
      var n := |ms| - 1;
      var rest, m := DistinctMethods(ms[..n]), CleanMethod(ms[n]);
      if m == "" || m in rest then rest else rest + [m]
  }

  lemma {:induction false} DistinctMethodsMembers(ms: seq<string>)
    ensures forall x :: x in DistinctMethods(ms) <==> x != "" && exists i :: 0 <= i < |ms| && CleanMethod(ms[i]) == x
    ensures forall i, j :: 0 <= i < j < |DistinctMethods(ms)| ==> DistinctMethods(ms)[i] != DistinctMethods(ms)[j]
  {
    hide CleanMethod;
    if ms != [] {
      var n := |ms| - 1;
      DistinctMethodsMembers(ms[..n]);
      assert forall i :: 0 <= i < n ==> ms[..n][i] == ms[i];
      var all, rest, m := DistinctMethods(ms), DistinctMethods(ms[..n]), CleanMethod(ms[n]);
      assert forall x :: x in all <==> x in rest || (x == m && m != "");
    }
  }

  /** Trimmed, upper-cased, without blanks or repetitions, sorted. */
  function CleanMethods(ms: seq<string>): seq<string> {
    SortTexts(DistinctMethods(ms))
  }

  /** A stored rule lists exactly the non-blank methods submitted for it, each once,
      in upper case. */
  lemma CleanMethodsMembers(ms: seq<string>)
    ensures forall x :: x in CleanMethods(ms) <==> x != "" && exists i :: 0 <= i < |ms| && CleanMethod(ms[i]) == x
    ensures forall x :: x in CleanMethods(ms) ==> multiset(CleanMethods(ms))[x] == 1
  {
    hide CleanMethod, SortTexts, DistinctMethods;
    DistinctMethodsMembers(ms);
    var distinct, r := DistinctMethods(ms), CleanMethods(ms);
    forall x ensures x in r <==> x in distinct {
      assert x in r <==> x in multiset(r);
    }
    forall x | x in r ensures multiset(r)[x] == 1 {
      OnceInDistinct(distinct, x);
    }
  }

  lemma {:induction false} OnceInDistinct(s: seq<string>, x: string)
    requires x in s && forall i, j :: 0 <= i < j < |s| ==> s[i] != s[j]
    ensures multiset(s)[x] == 1
  {
    var k :| 0 <= k < |s| && s[k] == x;
    var before, after := s[..k], s[k + 1..];
    assert s == before + [x] + after;
    assert x !in before && x !in after;
    assert multiset(s) == multiset(before) + multiset{x} + multiset(after);
  }

  /** A submitted rule as it is stored; a rule without a service is dropped and a
      rule without an ID gets a fresh one. */
  function Clean(rule: Rule, freshId: string): Option<Rule> {
    if NormalizeName(rule.service) == "" then None
    else Some(Rule(if rule.id == "" then freshId else rule.id, NormalizeName(rule.service),
                   NormalizePath(rule.prefix), CleanMethods(rule.methods), rule.mfa))
  }

  predicate RuleLess(a: Rule, b: Rule) {
    if a.service == b.service then
      if a.prefix == b.prefix then Less(a.id, b.id) else Less(a.prefix, b.prefix)
    else Less(a.service, b.service)
  }

  predicate Sorted(rules: seq<Rule>) {
    forall i, j :: 0 <= i < j < |rules| ==> !RuleLess(rules[j], rules[i])
  }

  lemma RuleOrder(a: Rule, b: Rule, c: Rule)
    ensures !RuleLess(a, a)
    ensures RuleLess(a, b) && RuleLess(b, c) ==> RuleLess(a, c)
    ensures !RuleLess(a, b) && !RuleLess(b, c) ==> !RuleLess(a, c)
  {
    hide Less;
    StringOrder(a.service, b.service, c.service);
    StringOrder(a.prefix, b.prefix, c.prefix);
    StringOrder(a.id, b.id, c.id);
  }

  lemma StringOrder(a: string, b: string, c: string)
    ensures !Less(a, a) && !Less(b, b) && !Less(c, c)
    ensures Less(a, b) || a == b || Less(b, a)
    ensures Less(b, c) || b == c || Less(c, b)
    ensures Less(a, c) || a == c || Less(c, a)
    ensures !(Less(a, b) && Less(b, a)) && !(Less(b, c) && Less(c, b)) && !(Less(a, c) && Less(c, a))
    ensures Less(a, b) && Less(b, c) ==> Less(a, c)
    ensures Less(c, b) && Less(b, a) ==> Less(c, a)
  {
    hide Less;
    LessIrreflexive(a);
    LessIrreflexive(b);
    LessIrreflexive(c);
    LessTotal(a, b);
    LessTotal(b, c);
    LessTotal(a, c);
    if Less(a, b) && Less(b, c) { LessTransitive(a, b, c); }
    if Less(c, b) && Less(b, a) { LessTransitive(c, b, a); }
    if Less(a, b) && Less(b, a) { LessTransitive(a, b, a); }
    if Less(b, c) && Less(c, b) { LessTransitive(b, c, b); }
    if Less(a, c) && Less(c, a) { LessTransitive(a, c, a); }
  }

  /** Insertion into a sorted list, behind its equals. */
  function Insert(rule: Rule, rules: seq<Rule>): (r: seq<Rule>)
    ensures multiset(r) == multiset(rules) + multiset{rule}
  {
    if rules == [] || RuleLess(rule, rules[0]) then [rule] + rules
    else
      assert rules == [rules[0]] + rules[1..];
      [rules[0]] + Insert(rule, rules[1..])
  }

  lemma {:induction false} InsertSorted(rule: Rule, rules: seq<Rule>)
    requires Sorted(rules)
    ensures Sorted(Insert(rule, rules))
  {
    hide RuleLess;
    if rules == [] {
    } else if RuleLess(rule, rules[0]) {
      forall j | 0 <= j < |rules| ensures !RuleLess(rules[j], rule) {
        RuleOrder(rules[0], rule, rule);
        RuleOrder(rule, rules[j], rules[0]);
        if j == 0 { RuleOrder(rule, rules[0], rule); }
        if RuleLess(rules[j], rule) { RuleOrder(rules[j], rule, rules[0]); }
      }
    } else {
      InsertSorted(rule, rules[1..]);
      var tail := Insert(rule, rules[1..]);
      forall j | 0 <= j < |tail| ensures !RuleLess(tail[j], rules[0]) {
        assert tail[j] in multiset(rules[1..]) + multiset{rule};
        if tail[j] != rule {
          var k :| 0 <= k < |rules[1..]| && rules[1..][k] == tail[j];
          assert rules[k + 1] == tail[j];
        }
      }
    }
  }

  function SortRules(rules: seq<Rule>): (r: seq<Rule>)
    ensures multiset(r) == multiset(rules)
  {
    if rules == [] then []
    else
      assert rules == [rules[0]] + rules[1..];
      Insert(rules[0], SortRules(rules[1..]))
  }

  lemma {:induction false} SortRulesSorts(rules: seq<Rule>)
    ensures Sorted(SortRules(rules))
  {
    hide RuleLess;
    if rules != [] {
      SortRulesSorts(rules[1..]);
      InsertSorted(rules[0], SortRules(rules[1..]));
    }
  }

  /** The rules that survive cleaning, in the order given. */
  function CleanAll(rules: seq<Rule>, freshIds: seq<string>): (r: seq<Rule>)
    requires |freshIds| == |rules|
  {
    if rules == [] then []
    else
      var n := |rules| - 1;
      var rest := CleanAll(rules[..n], freshIds[..n]);
      match Clean(rules[n], freshIds[n])
      case None => rest
      case Some(rule) => rest + [rule]
  }

  /** What the store keeps: the cleaned rules in sorted order. */
  function Normalize(rules: seq<Rule>, freshIds: seq<string>): seq<Rule>
    requires |freshIds| == |rules|
  {
    SortRules(CleanAll(rules, freshIds))
  }

  lemma {:induction false} CleanAllMembers(rules: seq<Rule>, freshIds: seq<string>)
    requires |freshIds| == |rules|
    ensures forall x :: x in CleanAll(rules, freshIds) <==>
              exists i :: 0 <= i < |rules| && Clean(rules[i], freshIds[i]) == Some(x)
  {
    hide Clean;
    if rules != [] {
      var n := |rules| - 1;
      CleanAllMembers(rules[..n], freshIds[..n]);
      assert forall i :: 0 <= i < n ==> rules[..n][i] == rules[i] && freshIds[..n][i] == freshIds[i];
      var all, rest := CleanAll(rules, freshIds), CleanAll(rules[..n], freshIds[..n]);
      assert forall x :: x in all <==> x in rest || Clean(rules[n], freshIds[n]) == Some(x);
    }
  }

  lemma NormalizeMembers(rules: seq<Rule>, freshIds: seq<string>)
    requires |freshIds| == |rules|
    ensures forall x :: x in Normalize(rules, freshIds) <==>
              exists i :: 0 <= i < |rules| && Clean(rules[i], freshIds[i]) == Some(x)
  {
    hide Clean, SortRules, CleanAll;
    CleanAllMembers(rules, freshIds);
    var cleaned := CleanAll(rules, freshIds);
    forall x ensures x in SortRules(cleaned) <==> x in cleaned {
      assert x in SortRules(cleaned) <==> x in multiset(SortRules(cleaned));
    }
  }

  // ---- the decision ------------------------------------------------------

  predicate Applies(rule: Rule, service: string, httpMethod: string, path: string) {
    rule.service == service && HasPrefix(path, rule.prefix) && (rule.methods == [] || httpMethod in rule.methods)
  }

  function Verdict(rule: Rule, authSource: string): Decision {
    if rule.mfa && authSource != "session" then Decision(false, "route requires MFA-backed browser session", rule.id)
    else Decision(true, "route policy matched", rule.id)
  }

  predicate Covers(rules: seq<Rule>, service: string) {
    exists i :: 0 <= i < |rules| && rules[i].service == service
  }

  /** The first rule that applies, in stored order. */
  function FirstMatch(rules: seq<Rule>, service: string, httpMethod: string, path: string): Option<Rule> {
    if rules == [] then None
    else if Applies(rules[0], service, httpMethod, path) then Some(rules[0])
    else FirstMatch(rules[1..], service, httpMethod, path)
  }

  /** The decision for a non-admin with service access; all arguments normalised. */
  function Decide(rules: seq<Rule>, service: string, httpMethod: string, path: string, authSource: string): Decision {
    if !Covers(rules, service) then ALLOWLISTED
    else
      match FirstMatch(rules, service, httpMethod, path)
      case None => NO_MATCH
      case Some(rule) => Verdict(rule, authSource)
  }

  /** What the user store says: absent, or a role and a service check. */
  datatype Standing = NoStore | Admin | Member(canAccess: bool)

  function RouteAccess(standing: Standing, rules: seq<Rule>, service: string, httpMethod: string, path: string, authSource: string): Decision {
    match standing
    case Admin => ADMIN_ROLE
    case Member(false) => SERVICE_DENIED
    case _ => Decide(rules, NormalizeName(service), ToUpper(Trim(httpMethod)), NormalizePath(path), authSource)
  }

  // ---- what the decision means -------------------------------------------

  /** This rule applies, and every other that does has a longer prefix, or the
      same prefix and a larger ID. */
  ghost predicate Deciding(rules: seq<Rule>, rule: Rule, service: string, httpMethod: string, path: string) {
    && rule in rules && Applies(rule, service, httpMethod, path)
    && forall r :: r in rules && r != rule && Applies(r, service, httpMethod, path) ==>
         |rule.prefix| < |r.prefix| || (rule.prefix == r.prefix && Less(rule.id, r.id))
  }

  /** This rule applies, and no other that does comes before it in prefix length and ID. */
  ghost predicate Least(rules: seq<Rule>, rule: Rule, service: string, httpMethod: string, path: string) {
    && rule in rules && Applies(rule, service, httpMethod, path)
    && forall r :: r in rules && Applies(r, service, httpMethod, path) ==>
         |rule.prefix| < |r.prefix| || (rule.prefix == r.prefix && !Less(r.id, rule.id))
  }

  /** No two different rules agree in service, prefix and ID. */
  ghost predicate NoTies(rules: seq<Rule>) {
    forall i, j :: 0 <= i < |rules| && 0 <= j < |rules| && SamePlace(rules[i], rules[j]) ==> rules[i] == rules[j]
  }

  predicate SamePlace(a: Rule, b: Rule) {
    a.service == b.service && a.prefix == b.prefix && a.id == b.id
  }

  lemma {:induction false} FirstMatchPosition(rules: seq<Rule>, service: string, httpMethod: string, path: string)
    ensures match FirstMatch(rules, service, httpMethod, path)
            case None => forall r :: r in rules ==> !Applies(r, service, httpMethod, path)
            case Some(rule) =>
              exists k :: 0 <= k < |rules| && rules[k] == rule && Applies(rule, service, httpMethod, path)
                          && forall j :: 0 <= j < k ==> !Applies(rules[j], service, httpMethod, path)
  {
    hide Applies;
    if rules != [] && !Applies(rules[0], service, httpMethod, path) {
      var tail := rules[1..];
      FirstMatchPosition(tail, service, httpMethod, path);
      assert forall j :: 0 <= j < |tail| ==> tail[j] == rules[j + 1];
      assert forall r :: r in rules <==> r == rules[0] || r in tail;
      if FirstMatch(tail, service, httpMethod, path).Some? {
        var k :| 0 <= k < |tail| && tail[k] == FirstMatch(tail, service, httpMethod, path).value
                 && forall j :: 0 <= j < k ==> !Applies(tail[j], service, httpMethod, path);
        assert rules[k + 1] == tail[k];
      }
    }
  }

  /** Of two rules that apply to one request, the one sorted first has the shorter prefix,
      or the same and no larger an ID. */
  lemma EarlierIsShorter(a: Rule, b: Rule, service: string, httpMethod: string, path: string)
    requires Applies(a, service, httpMethod, path) && Applies(b, service, httpMethod, path) && !RuleLess(b, a)
    ensures |a.prefix| < |b.prefix| || (a.prefix == b.prefix && !Less(b.id, a.id))
  {
    hide Less;
    LessOnPrefixes(path, b.prefix, a.prefix);
    if |a.prefix| == |b.prefix| {
      assert a.prefix == path[..|a.prefix|] == b.prefix;
    }
  }

  /** In any stored order, ties or not, the first match is a least applying rule; and there
      is a match exactly when some rule applies. */
  lemma FirstMatchIsLeast(rules: seq<Rule>, service: string, httpMethod: string, path: string)
    requires Sorted(rules)
    ensures match FirstMatch(rules, service, httpMethod, path)
            case None => forall r :: r in rules ==> !Applies(r, service, httpMethod, path)
            case Some(rule) => Least(rules, rule, service, httpMethod, path)
  {
    hide Applies, RuleLess, Less;
    FirstMatchPosition(rules, service, httpMethod, path);
    var first := FirstMatch(rules, service, httpMethod, path);
    if first.Some? {
      var k :| 0 <= k < |rules| && rules[k] == first.value
               && forall j :: 0 <= j < k ==> !Applies(rules[j], service, httpMethod, path);
      forall r | r in rules && Applies(r, service, httpMethod, path)
        ensures |first.value.prefix| < |r.prefix| || (first.value.prefix == r.prefix && !Less(r.id, first.value.id))
      {
        FirstBeats(rules, k, r, service, httpMethod, path);
      }
    }
  }

  lemma FirstBeats(rules: seq<Rule>, k: nat, r: Rule, service: string, httpMethod: string, path: string)
    requires Sorted(rules) && k < |rules| && r in rules
    requires Applies(rules[k], service, httpMethod, path) && Applies(r, service, httpMethod, path)
    requires forall j :: 0 <= j < k ==> !Applies(rules[j], service, httpMethod, path)
    ensures |rules[k].prefix| < |r.prefix| || (rules[k].prefix == r.prefix && !Less(r.id, rules[k].id))
  {
    hide Applies, RuleLess, Less;
    var j :| 0 <= j < |rules| && rules[j] == r;
    if j == k {
      RuleOrder(r, r, r);
    }
    EarlierIsShorter(rules[k], rules[j], service, httpMethod, path);
  }

  lemma LeastIsDeciding(rules: seq<Rule>, rule: Rule, service: string, httpMethod: string, path: string)
    requires NoTies(rules) && Least(rules, rule, service, httpMethod, path)
    ensures Deciding(rules, rule, service, httpMethod, path)
  {
    hide Less;
    forall r | r in rules && r != rule && Applies(r, service, httpMethod, path)
      ensures |rule.prefix| < |r.prefix| || (rule.prefix == r.prefix && Less(rule.id, r.id))
    {
      StringOrder(rule.id, r.id, r.id);
      var i, j :| 0 <= i < |rules| && 0 <= j < |rules| && rules[i] == rule && rules[j] == r;
    }
  }

  /** THE MEANING. Without ties, the first match in stored order is the rule with the
      shortest matching prefix, then the smallest ID; and there is a match exactly when
      some rule applies. */
  lemma FirstMatchDecides(rules: seq<Rule>, service: string, httpMethod: string, path: string)
    requires Sorted(rules) && NoTies(rules)
    ensures match FirstMatch(rules, service, httpMethod, path)
            case None => forall r :: r in rules ==> !Applies(r, service, httpMethod, path)
            case Some(rule) => Deciding(rules, rule, service, httpMethod, path)
  {
    hide Applies, Sorted, NoTies, Least, Deciding;
    FirstMatchIsLeast(rules, service, httpMethod, path);
    var first := FirstMatch(rules, service, httpMethod, path);
    if first.Some? {
      LeastIsDeciding(rules, first.value, service, httpMethod, path);
    }
  }

  /** At most one rule can be the deciding one. */
  lemma DecidingIsUnique(rules: seq<Rule>, a: Rule, b: Rule, service: string, httpMethod: string, path: string)
    requires Deciding(rules, a, service, httpMethod, path) && Deciding(rules, b, service, httpMethod, path)
    ensures a == b
  {
    hide Applies, Less;
    StringOrder(a.id, b.id, b.id);
  }

  /** Two stored lists with the same rules decide every request alike. */
  lemma SameRulesSameDecision(a: seq<Rule>, b: seq<Rule>, service: string, httpMethod: string, path: string, authSource: string)
    requires Sorted(a) && Sorted(b) && NoTies(a) && NoTies(b)
    requires forall r :: r in a <==> r in b
    ensures Decide(a, service, httpMethod, path, authSource) == Decide(b, service, httpMethod, path, authSource)
  {
    hide Applies, Sorted, NoTies, Less, Verdict;
    FirstMatchDecides(a, service, httpMethod, path);
    FirstMatchDecides(b, service, httpMethod, path);
    var x, y := FirstMatch(a, service, httpMethod, path), FirstMatch(b, service, httpMethod, path);
    if x.Some? && y.Some? {
      assert Deciding(b, x.value, service, httpMethod, path);
      DecidingIsUnique(b, x.value, y.value, service, httpMethod, path);
    }
    CoversByMember(a, service);
    CoversByMember(b, service);
  }

  lemma CoversByMember(rules: seq<Rule>, service: string)
    ensures Covers(rules, service) <==> exists r :: r in rules && r.service == service
  {
  }

  ghost predicate DistinctSubmittedIds(rules: seq<Rule>) {
    && (forall i :: 0 <= i < |rules| ==> rules[i].id != "")
    && (forall i, j :: 0 <= i < |rules| && 0 <= j < |rules| && rules[i].id == rules[j].id ==> rules[i] == rules[j])
  }

  lemma NormalizedIdsDistinct(rules: seq<Rule>, freshIds: seq<string>)
    requires |freshIds| == |rules| && DistinctSubmittedIds(rules)
    ensures NoTies(Normalize(rules, freshIds))
  {
    hide NormalizeName, NormalizePath, CleanMethods, Normalize;
    NormalizeMembers(rules, freshIds);
    var stored := Normalize(rules, freshIds);
    forall i, j | 0 <= i < |stored| && 0 <= j < |stored| && stored[i].id == stored[j].id
      ensures stored[i] == stored[j]
    {
      assert stored[i] in stored && stored[j] in stored;
      var a :| 0 <= a < |rules| && Clean(rules[a], freshIds[a]) == Some(stored[i]);
      var b :| 0 <= b < |rules| && Clean(rules[b], freshIds[b]) == Some(stored[j]);
    }
  }

  /** ORDER OF SUBMISSION. With distinct non-empty IDs, submitting the same rules in
      any order, with any fresh IDs at hand, decides every request alike. */
  lemma SubmissionOrderIrrelevant(a: seq<Rule>, freshA: seq<string>, b: seq<Rule>, freshB: seq<string>,
                                  service: string, httpMethod: string, path: string, authSource: string)
    requires |freshA| == |a| && |freshB| == |b| && DistinctSubmittedIds(a) && DistinctSubmittedIds(b)
    requires forall r :: r in a <==> r in b
    ensures Decide(Normalize(a, freshA), service, httpMethod, path, authSource)
         == Decide(Normalize(b, freshB), service, httpMethod, path, authSource)
  {
    hide Decide, Sorted, NoTies;
    SortRulesSorts(CleanAll(a, freshA));
    SortRulesSorts(CleanAll(b, freshB));
    NormalizedIdsDistinct(a, freshA);
    NormalizedIdsDistinct(b, freshB);
    NormalizedMembers(a, freshA, b, freshB);
    NormalizedMembers(b, freshB, a, freshA);
    SameRulesSameDecision(Normalize(a, freshA), Normalize(b, freshB), service, httpMethod, path, authSource);
  }

  /** FROM SUBMISSION TO DECISION, for a member with service access and any submitted
      rules: the verdict is that of a least applying rule, and of the deciding one if there
      is one; if no rule applies, the request is refused if the service has a rule at all
      and admitted if it has none. */
  lemma StoredRulesDecide(rules: seq<Rule>, freshIds: seq<string>, service: string, httpMethod: string, path: string, authSource: string)
    requires |freshIds| == |rules|
    ensures var (stored, name, verb, target) := (Normalize(rules, freshIds), NormalizeName(service), ToUpper(Trim(httpMethod)), NormalizePath(path));
            var d := RouteAccess(Member(true), stored, service, httpMethod, path, authSource);
            && ((exists r :: r in stored && Applies(r, name, verb, target)) ==>
                  exists rule :: Least(stored, rule, name, verb, target) && d == Verdict(rule, authSource))
            && (forall rule :: Deciding(stored, rule, name, verb, target) ==> d == Verdict(rule, authSource))
            && ((forall r :: r in stored ==> !Applies(r, name, verb, target)) ==>
                  d == if exists r :: r in stored && r.service == name then NO_MATCH else ALLOWLISTED)
  {
    hide Normalize, NormalizeName, NormalizePath, Trim, ToUpper, Applies, Less, Sorted, Verdict, Deciding, Least;
    var stored, name, verb, target := Normalize(rules, freshIds), NormalizeName(service), ToUpper(Trim(httpMethod)), NormalizePath(path);
    NormalizedSorted(rules, freshIds);
    FirstMatchIsLeast(stored, name, verb, target);
    CoversByMember(stored, name);
    LeastCovers(stored, name, verb, target);
    forall rule | Deciding(stored, rule, name, verb, target)
      ensures FirstMatch(stored, name, verb, target) == Some(rule)
    {
      DecidingApplies(stored, rule, name, verb, target);
      LeastIsTheDeciding(stored, FirstMatch(stored, name, verb, target).value, rule, name, verb, target);
    }
  }

  // ---- from the submitted rules to the decision --------------------------

  predicate ForService(rule: Rule, name: string) {
    NormalizeName(rule.service) == name != ""
  }

  predicate HasMethod(methods: seq<string>, verb: string) {
    exists i :: 0 <= i < |methods| && ToUpper(Trim(methods[i])) == verb
  }

  /** What a submitted rule asks of a request: its service, its path prefix, and one of its
      methods, unless all of them are blank. */
  predicate Meets(rule: Rule, name: string, verb: string, target: string) {
    var prefix := NormalizePath(rule.prefix);
    && ForService(rule, name)
    && |prefix| <= |target| && target[..|prefix|] == prefix
    && ((forall i :: 0 <= i < |rule.methods| ==> Trim(rule.methods[i]) == "") || (verb != "" && HasMethod(rule.methods, verb)))
  }

  function IdOf(rules: seq<Rule>, freshIds: seq<string>, i: nat): string
    requires i < |rules| == |freshIds|
  {
    if rules[i].id == "" then freshIds[i] else rules[i].id
  }

  /** No other rule the request meets has a shorter prefix, or the same and a smaller ID. */
  ghost predicate Foremost(rules: seq<Rule>, freshIds: seq<string>, i: nat, name: string, verb: string, target: string)
    requires i < |rules| == |freshIds|
  {
    && Meets(rules[i], name, verb, target)
    && forall j :: 0 <= j < |rules| && Meets(rules[j], name, verb, target) ==>
         || |NormalizePath(rules[i].prefix)| < |NormalizePath(rules[j].prefix)|
         || (NormalizePath(rules[i].prefix) == NormalizePath(rules[j].prefix)
             && !Less(IdOf(rules, freshIds, j), IdOf(rules, freshIds, i)))
  }

  lemma UpperKeepsLength(s: string)
    ensures |ToUpper(s)| == |s|
  {
  }

  lemma MethodsMeet(ms: seq<string>, verb: string)
    ensures CleanMethods(ms) == [] || verb in CleanMethods(ms)
        <==> (forall i :: 0 <= i < |ms| ==> Trim(ms[i]) == "") || (verb != "" && HasMethod(ms, verb))
  {
    hide CleanMethods, Trim, ToUpper;
    CleanMethodsMembers(ms);
    forall i | 0 <= i < |ms| ensures CleanMethod(ms[i]) == "" <==> Trim(ms[i]) == "" {
      UpperKeepsLength(Trim(ms[i]));
    }
    if CleanMethods(ms) == [] {
      forall i | 0 <= i < |ms| ensures Trim(ms[i]) == "" {
        assert CleanMethod(ms[i]) !in CleanMethods(ms);
      }
    } else {
      assert CleanMethods(ms)[0] in CleanMethods(ms);
    }
  }

  /** A stored rule applies to exactly the requests that meet the submitted one. */
  lemma StoredMeets(rule: Rule, freshId: string, name: string, verb: string, target: string)
    ensures ForService(rule, name) ==> Clean(rule, freshId).Some?
    ensures Clean(rule, freshId).Some? ==>
              && (Clean(rule, freshId).value.service == name <==> ForService(rule, name))
              && (Applies(Clean(rule, freshId).value, name, verb, target) <==> Meets(rule, name, verb, target))
  {
    hide NormalizeName, NormalizePath, CleanMethods, Trim, ToUpper, HasMethod;
    MethodsMeet(rule.methods, verb);
  }

  /** FROM SUBMISSION TO DECISION, in the words of the submitted rules, for a member with
      service access. Without a rule for the service the request is admitted; with rules of
      which it meets none it is refused; else the foremost one it meets decides, and its ID
      is given. */
  lemma SubmittedRulesDecide(rules: seq<Rule>, freshIds: seq<string>, service: string, httpMethod: string, path: string, authSource: string)
    requires |freshIds| == |rules|
    ensures var (name, verb, target) := (NormalizeName(service), ToUpper(Trim(httpMethod)), NormalizePath(path));
            var d := RouteAccess(Member(true), Normalize(rules, freshIds), service, httpMethod, path, authSource);
            if forall i :: 0 <= i < |rules| ==> !ForService(rules[i], name) then
              d == Decision(true, "service allowlist matched", "")
            else if forall i :: 0 <= i < |rules| ==> !Meets(rules[i], name, verb, target) then
              d == Decision(false, "no route policy matched", "")
            else
              exists i :: 0 <= i < |rules| && Foremost(rules, freshIds, i, name, verb, target)
                          && d.policyId == IdOf(rules, freshIds, i)
                          && (d.allowed <==> (rules[i].mfa ==> authSource == "session"))
                          && d.reason == if d.allowed then "route policy matched" else "route requires MFA-backed browser session"
  {
    hide Normalize, NormalizeName, NormalizePath, Trim, ToUpper, Applies, Less, Sorted, Meets, ForService, Clean, Foremost;
    var stored, name, verb, target := Normalize(rules, freshIds), NormalizeName(service), ToUpper(Trim(httpMethod)), NormalizePath(path);
    NormalizedSorted(rules, freshIds);
    NormalizeMembers(rules, freshIds);
    FirstMatchIsLeast(stored, name, verb, target);
    CoversByMember(stored, name);
    CoversSubmitted(rules, freshIds, name);
    var first := FirstMatch(stored, name, verb, target);
    if first.Some? {
      LeastCovers(stored, name, verb, target);
      var i := LeastIsForemost(rules, freshIds, first.value, name, verb, target);
    } else {
      NoneMeets(rules, freshIds, name, verb, target);
    }
  }

  lemma CoversSubmitted(rules: seq<Rule>, freshIds: seq<string>, name: string)
    requires |freshIds| == |rules|
    ensures (exists r :: r in Normalize(rules, freshIds) && r.service == name) <==> exists i :: 0 <= i < |rules| && ForService(rules[i], name)
  {
    hide Normalize, NormalizeName, NormalizePath, CleanMethods, Applies, Meets;
    NormalizeMembers(rules, freshIds);
    forall i | 0 <= i < |rules| && ForService(rules[i], name)
      ensures exists r :: r in Normalize(rules, freshIds) && r.service == name
    {
      StoredMeets(rules[i], freshIds[i], name, "", "");
      assert Clean(rules[i], freshIds[i]).value in Normalize(rules, freshIds);
    }
    forall r | r in Normalize(rules, freshIds) && r.service == name
      ensures exists i :: 0 <= i < |rules| && ForService(rules[i], name)
    {
      var i :| 0 <= i < |rules| && Clean(rules[i], freshIds[i]) == Some(r);
      StoredMeets(rules[i], freshIds[i], name, "", "");
    }
  }

  lemma NoneMeets(rules: seq<Rule>, freshIds: seq<string>, name: string, verb: string, target: string)
    requires |freshIds| == |rules| && forall r :: r in Normalize(rules, freshIds) ==> !Applies(r, name, verb, target)
    ensures forall i :: 0 <= i < |rules| ==> !Meets(rules[i], name, verb, target)
  {
    hide Normalize, NormalizeName, NormalizePath, CleanMethods, Applies, Clean, ForService;
    NormalizeMembers(rules, freshIds);
    forall i | 0 <= i < |rules| ensures !Meets(rules[i], name, verb, target) {
      StoredMeets(rules[i], freshIds[i], name, verb, target);
      assert Clean(rules[i], freshIds[i]).Some? ==> Clean(rules[i], freshIds[i]).value in Normalize(rules, freshIds);
    }
  }

  lemma StoredParts(rules: seq<Rule>, freshIds: seq<string>, i: nat, x: Rule)
    requires i < |rules| == |freshIds| && Clean(rules[i], freshIds[i]) == Some(x)
    ensures x.id == IdOf(rules, freshIds, i) && x.prefix == NormalizePath(rules[i].prefix) && x.mfa == rules[i].mfa
  {
    hide NormalizeName, NormalizePath, CleanMethods;
  }

  lemma LeastIsForemost(rules: seq<Rule>, freshIds: seq<string>, x: Rule, name: string, verb: string, target: string) returns (i: nat)
    requires |freshIds| == |rules| && Least(Normalize(rules, freshIds), x, name, verb, target)
    ensures i < |rules| && Clean(rules[i], freshIds[i]) == Some(x) && Foremost(rules, freshIds, i, name, verb, target)
    ensures x.id == IdOf(rules, freshIds, i) && x.mfa == rules[i].mfa && Meets(rules[i], name, verb, target)
    ensures exists j :: 0 <= j < |rules| && ForService(rules[j], name)
  {
    hide Normalize, NormalizeName, NormalizePath, CleanMethods, Applies, Clean, Less, IdOf;
    NormalizeMembers(rules, freshIds);
    i :| 0 <= i < |rules| && Clean(rules[i], freshIds[i]) == Some(x);
    StoredMeets(rules[i], freshIds[i], name, verb, target);
    StoredParts(rules, freshIds, i, x);
    forall j | 0 <= j < |rules| && Meets(rules[j], name, verb, target)
      ensures |NormalizePath(rules[i].prefix)| < |NormalizePath(rules[j].prefix)|
           || (NormalizePath(rules[i].prefix) == NormalizePath(rules[j].prefix) && !Less(IdOf(rules, freshIds, j), IdOf(rules, freshIds, i)))
    {
      StoredMeets(rules[j], freshIds[j], name, verb, target);
      StoredParts(rules, freshIds, j, Clean(rules[j], freshIds[j]).value);
      assert Clean(rules[j], freshIds[j]).value in Normalize(rules, freshIds);
    }
  }

  lemma DecidingApplies(rules: seq<Rule>, rule: Rule, service: string, httpMethod: string, path: string)
    requires Deciding(rules, rule, service, httpMethod, path)
    ensures rule in rules && Applies(rule, service, httpMethod, path)
  {
  }

  lemma LeastCovers(rules: seq<Rule>, service: string, httpMethod: string, path: string)
    ensures forall rule :: Least(rules, rule, service, httpMethod, path) ==>
              rule in rules && rule.service == service && Applies(rule, service, httpMethod, path)
    ensures forall rule :: Deciding(rules, rule, service, httpMethod, path) ==> rule in rules && rule.service == service
  {
  }

  lemma LeastIsTheDeciding(rules: seq<Rule>, least: Rule, deciding: Rule, service: string, httpMethod: string, path: string)
    requires Least(rules, least, service, httpMethod, path) && Deciding(rules, deciding, service, httpMethod, path)
    ensures least == deciding
  {
    hide Applies, Less;
    StringOrder(deciding.id, least.id, least.id);
  }

  lemma NormalizedSorted(rules: seq<Rule>, freshIds: seq<string>)
    requires |freshIds| == |rules|
    ensures Sorted(Normalize(rules, freshIds))
  {
    SortRulesSorts(CleanAll(rules, freshIds));
  }

  lemma NormalizedMembers(a: seq<Rule>, freshA: seq<string>, b: seq<Rule>, freshB: seq<string>)
    requires |freshA| == |a| && |freshB| == |b| && DistinctSubmittedIds(a)
    requires forall r :: r in a ==> r in b
    ensures forall x :: x in Normalize(a, freshA) ==> x in Normalize(b, freshB)
  {
    hide NormalizeName, NormalizePath, CleanMethods, Normalize;
    NormalizeMembers(a, freshA);
    NormalizeMembers(b, freshB);
    forall x | x in Normalize(a, freshA) ensures x in Normalize(b, freshB) {
      var i :| 0 <= i < |a| && Clean(a[i], freshA[i]) == Some(x);
      assert a[i] in b;
      var j :| 0 <= j < |b| && b[j] == a[i];
      assert Clean(b[j], freshB[j]) == Some(x);
    }
  }

  /** Every request the second rule applies to, the first applies to as well. */
  predicate Shadows(general: Rule, special: Rule) {
    && general.service == special.service
    && HasPrefix(special.prefix, general.prefix) && |general.prefix| < |special.prefix|
    && (general.methods == [] || (special.methods != [] && forall m :: m in special.methods ==> m in general.methods))
  }

  /** SHADOWED RULES. Deleting a rule whose prefix strictly extends another's and whose
      methods are covered by it changes no decision. */
  lemma ShadowedRuleIsRedundant(rules: seq<Rule>, without: seq<Rule>, general: Rule, special: Rule,
                                service: string, httpMethod: string, path: string, authSource: string)
    requires Sorted(rules) && Sorted(without) && NoTies(rules) && NoTies(without)
    requires general in rules && special in rules && Shadows(general, special)
    requires forall r :: r in without <==> r in rules && r != special
    ensures Decide(rules, service, httpMethod, path, authSource) == Decide(without, service, httpMethod, path, authSource)
  {
    hide Sorted, NoTies, Less, Verdict;
    FirstMatchDecides(rules, service, httpMethod, path);
    FirstMatchDecides(without, service, httpMethod, path);
    CoversByMember(rules, service);
    CoversByMember(without, service);
    assert Applies(special, service, httpMethod, path) ==> Applies(general, service, httpMethod, path) by {
      PrefixOfPrefix(path, special.prefix, general.prefix);
    }
    hide Applies;
    var x, y := FirstMatch(rules, service, httpMethod, path), FirstMatch(without, service, httpMethod, path);
    if x.Some? {
      assert x.value != special;
      assert Deciding(without, x.value, service, httpMethod, path);
      if y.Some? {
        DecidingIsUnique(without, x.value, y.value, service, httpMethod, path);
      }
    }
  }

  lemma PrefixOfPrefix(path: string, long: string, short: string)
    requires HasPrefix(long, short)
    ensures HasPrefix(path, long) ==> HasPrefix(path, short)
  {
  }

  // ---- the store ---------------------------------------------------------

  method NormalizeMethods(ms: seq<string>) returns (methods: seq<string>)
    ensures methods == CleanMethods(ms)
  {
    var seen: set<string> := {};
    methods := [];
    for i := 0 to |ms|
      invariant methods == DistinctMethods(ms[..i])
      invariant forall m :: m in seen <==> m in methods
    {
      assert ms[..i + 1][..i] == ms[..i];
      var m := CleanMethod(ms[i]);
      if m == "" || m in seen {
        continue;
      }
      seen := seen + {m};
      methods := methods + [m];
    }
    assert ms[..|ms|] == ms;
    methods := SortTexts(methods);
  }

  method NormalizeRules(rules: seq<Rule>, freshIds: seq<string>) returns (out: seq<Rule>)
    requires |freshIds| == |rules|
    ensures out == Normalize(rules, freshIds)
  {
    hide NormalizeName, NormalizePath, CleanMethods, SortRules;
    out := [];
    for i := 0 to |rules|
      invariant out == CleanAll(rules[..i], freshIds[..i])
    {
      assert rules[..i + 1][..i] == rules[..i] && freshIds[..i + 1][..i] == freshIds[..i];
      var rule := rules[i].(service := NormalizeName(rules[i].service), prefix := NormalizePath(rules[i].prefix));
      if rule.service == "" {
        continue;
      }
      if rule.id == "" {
        rule := rule.(id := freshIds[i]);
      }
      var methods := NormalizeMethods(rules[i].methods);
      rule := rule.(methods := methods);
      assert Clean(rules[i], freshIds[i]) == Some(rule);
      out := out + [rule];
    }
    assert rules[..|rules|] == rules && freshIds[..|freshIds|] == freshIds;
    out := SortRules(out);
  }

  /** The user's rules; a user without an entry has none. */
  function RulesOf(policies: map<string, seq<Rule>>, user: string): seq<Rule> {
    if Trim(user) in policies then policies[Trim(user)] else []
  }

  /** The rules in memory after one user's rules are replaced; submitting none
      removes the user. */
  function Replaced(policies: map<string, seq<Rule>>, user: string, rules: seq<Rule>, freshIds: seq<string>): map<string, seq<Rule>>
    requires |freshIds| == |rules|
  {
    if Trim(user) == "" then policies
    else if |rules| == 0 then policies - {Trim(user)}
    else policies[Trim(user) := Normalize(rules, freshIds)]
  }

  ghost predicate AllSorted(policies: map<string, seq<Rule>>) {
    forall u :: u in policies ==> Sorted(policies[u])
  }

  /** Replacing rules sets exactly one user's list, keeps every list sorted and leaves
      the others alone. */
  lemma ReplacedRules(policies: map<string, seq<Rule>>, user: string, rules: seq<Rule>, freshIds: seq<string>, other: string)
    requires |freshIds| == |rules| && Trim(user) != "" && AllSorted(policies)
    ensures RulesOf(Replaced(policies, user, rules, freshIds), user) == Normalize(rules, freshIds)
    ensures Trim(other) != Trim(user) ==>
              RulesOf(Replaced(policies, user, rules, freshIds), other) == RulesOf(policies, other)
    ensures AllSorted(Replaced(policies, user, rules, freshIds))
  {
    hide Sorted, Trim;
    SortRulesSorts(CleanAll(rules, freshIds));
  }

  class PolicyStore {
    var policies: map<string, seq<Rule>>
    var file: map<string, seq<Rule>>

    constructor ()
      ensures policies == map[] && file == map[]
    {
      policies, file := map[], map[];
    }

    /** Replaces one user's rules and writes the file. The rules in memory change
        even when the write fails. */
    method SetUserAccessPolicies(user: string, rules: seq<Rule>, freshIds: seq<string>, written: bool) returns (ok: bool)
      requires |freshIds| == |rules|
      modifies this
      ensures ok == (Trim(user) != "" && written)
      ensures policies == Replaced(old(policies), user, rules, freshIds)
      ensures file == if ok then policies else old(file)
    {
      hide Normalize, Trim;
      var who := Trim(user);
      if who == "" {
        return false;
      }
      if |rules| == 0 {
        policies := policies - {who};
      } else {
        var stored := NormalizeRules(rules, freshIds);
        policies := policies[who := stored];
      }
      if written {
        file := policies;
      }
      return written;
    }

    /** Collects the service's rules, then takes the first that applies. */
    method EvaluateRouteAccess(standing: Standing, user: string, service: string, httpMethod: string, path: string, authSource: string) returns (d: Decision)
      ensures d == RouteAccess(standing, RulesOf(policies, user), service, httpMethod, path, authSource)
    {
      hide Trim, ToUpper, NormalizeName, NormalizePath, Applies, HasPrefix, Covers, FirstMatch, RulesOf;
      var name, verb, target := NormalizeName(service), ToUpper(Trim(httpMethod)), NormalizePath(path);
      if standing.Admin? {
        return ADMIN_ROLE;
      }
      if standing == Member(false) {
        return SERVICE_DENIED;
      }
      var rules := RulesOf(policies, user);
      var serviceRules := [];
      for i := 0 to |rules|
        invariant serviceRules == OfService(rules[..i], name)
      {
        assert rules[..i + 1][..i] == rules[..i];
        if rules[i].service == name {
          serviceRules := serviceRules + [rules[i]];
        }
      }
      assert rules[..|rules|] == rules;
      OfServiceMeets(rules, name, verb, target);
      if |serviceRules| == 0 {
        return ALLOWLISTED;
      }
      d := DecideAmong(serviceRules, name, verb, target, authSource);
    }
  }

  /** The second loop of the decision: the first of the service's rules that applies. */
  method DecideAmong(serviceRules: seq<Rule>, name: string, verb: string, target: string, authSource: string) returns (d: Decision)
    requires forall r :: r in serviceRules ==> r.service == name
    ensures d == match FirstMatch(serviceRules, name, verb, target)
                 case None => NO_MATCH
                 case Some(rule) => Verdict(rule, authSource)
  {
    for i := 0 to |serviceRules|
      invariant FirstMatch(serviceRules, name, verb, target) == FirstMatch(serviceRules[i..], name, verb, target)
    {
      assert serviceRules[i..][1..] == serviceRules[i + 1..];
      var rule := serviceRules[i];
      assert rule in serviceRules;
      if !HasPrefix(target, rule.prefix) {
        continue;
      }
      if |rule.methods| > 0 && verb !in rule.methods {
        continue;
      }
      if rule.mfa && authSource != "session" {
        return Decision(false, "route requires MFA-backed browser session", rule.id);
      }
      return Decision(true, "route policy matched", rule.id);
    }
    return NO_MATCH;
  }

  /** The rules for one service, in stored order. */
  function OfService(rules: seq<Rule>, service: string): seq<Rule> {
    if rules == [] then []
    else
      var n := |rules| - 1;
      OfService(rules[..n], service) + if rules[n].service == service then [rules[n]] else []
  }

  /** Filtering by service first does not change the first match. */
  lemma OfServiceMeets(rules: seq<Rule>, service: string, httpMethod: string, path: string)
    ensures forall r :: r in OfService(rules, service) <==> r in rules && r.service == service
    ensures Covers(rules, service) <==> OfService(rules, service) != []
    ensures FirstMatch(OfService(rules, service), service, httpMethod, path) == FirstMatch(rules, service, httpMethod, path)
  {
    OfServiceMembers(rules, service);
    OfServiceFirst(rules, service, httpMethod, path);
  }

  lemma {:induction false} OfServiceMembers(rules: seq<Rule>, service: string)
    ensures forall r :: r in OfService(rules, service) <==> r in rules && r.service == service
    ensures Covers(rules, service) <==> OfService(rules, service) != []
  {
    if rules != [] {
      var n := |rules| - 1;
      OfServiceMembers(rules[..n], service);
      assert rules == rules[..n] + [rules[n]];
    }
  }

  lemma {:induction false} OfServiceFirst(rules: seq<Rule>, service: string, httpMethod: string, path: string)
    ensures FirstMatch(OfService(rules, service), service, httpMethod, path) == FirstMatch(rules, service, httpMethod, path)
  {
    hide Applies;
    if rules != [] {
      var n := |rules| - 1;
      OfServiceFirst(rules[..n], service, httpMethod, path);
      var some := OfService(rules[..n], service);
      AppliesToService(rules[n], service, httpMethod, path);
      FirstMatchAppend(rules[..n], rules[n], service, httpMethod, path);
      FirstMatchAppend(some, rules[n], service, httpMethod, path);
      assert rules == rules[..n] + [rules[n]];
      assert OfService(rules, service) == if rules[n].service == service then some + [rules[n]] else some;
    }
  }

  lemma AppliesToService(rule: Rule, service: string, httpMethod: string, path: string)
    ensures Applies(rule, service, httpMethod, path) ==> rule.service == service
  {
  }

  lemma {:induction false} FirstMatchAppend(rules: seq<Rule>, last: Rule, service: string, httpMethod: string, path: string)
    ensures FirstMatch(rules + [last], service, httpMethod, path)
         == match FirstMatch(rules, service, httpMethod, path)
            case Some(r) => Some(r)
            case None => if Applies(last, service, httpMethod, path) then Some(last) else None
  {
    hide Applies;
    if rules == [] {
      assert [last][1..] == [];
    } else {
      assert (rules + [last])[1..] == rules[1..] + [last];
      FirstMatchAppend(rules[1..], last, service, httpMethod, path);
    }
  }
}
