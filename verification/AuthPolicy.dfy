/** Stage-1 authentication policy (authpolicy.go, policy.go): which rule decides
    whether a request without credentials is exempt, challenged or sent to SSO.

    `Matches`, `Survives` and `Wins` say what a rulebase means.  The methods
    below them are the two resolvers: one copies and sorts, the other scans the
    published snapshot with precomputed networks and a lazily filled scratch.
 */
module AuthPolicy {
  import opened Wrappers

  datatype Outcome = Exempt | CredentialRequired | SsoRequired | OtherOutcome

  datatype Spec = Spec(outcome: Outcome, broadExemption: bool, expiresAt: string, protocol: string, verb: string)

  /** `nets` is the precomputed form of `values`; it may be absent or partial. */
  datatype Predicate = Predicate(kind: string, values: seq<string>, nets: seq<Option<string>>)

  datatype Subject = Subject(schemaVersion: int, all: seq<Predicate>)

  datatype Schedule = Schedule(days: seq<string>, start: string, end: string, timezone: string)

  /** `normFqdn` is the precomputed form of `destFqdn`, or "". */
  datatype Rule = Rule(
    id: string, priority: int, ruleType: string, enabled: Option<bool>, auth: Option<Spec>, subject: Option<Subject>,
    destFqdn: string, destCategory: string, destGroup: string, destCountry: seq<string>,
    schedule: Option<Schedule>, normFqdn: string)

  datatype Request = Request(clientIp: string, host: string, protocol: string, verb: string)

  datatype Decision = Default | Decided(outcome: Outcome, rule: Rule)

  /** Everything the resolver asks the rest of the program, fixed during a scan. */
  datatype Env = Env(
    parseIp: string -> Option<string>, parseCidr: string -> Option<string>, contains: (string, string) -> bool,
    normalize: string -> string, upper: string -> string, sameFold: (string, string) -> bool,
    inCategory: (string, string) -> bool, inGroup: (string, string) -> bool, countryOf: string -> Option<string>,
    zoneKnown: string -> bool, inWindow: Schedule -> bool, parseTime: string -> Option<int>, now: int)

  // ─── What a rule means ────────────────────────────────────────────────────

  predicate EndsWith(s: string, suffix: string) {
    |suffix| <= |s| && s[|s| - |suffix|..] == suffix
  }

  /** MatchFQDNNorm, with its index arithmetic. */
  predicate MatchFqdnNorm(pattern: string, host: string) {
    if pattern == "*" then true
    else if "*." <= pattern then EndsWith(host, pattern[1..]) || host == pattern[2..]
    else if host == pattern then true
    else
      var n := |host| - |pattern|;
      n > 0 && host[n - 1] == '.' && host[n..] == pattern
  }

  /** A domain pattern, bare or with "*.", covers the domain and its subdomains. */
  lemma FqdnCoversSubdomains(domain: string, host: string)
    requires domain != "*" && !("*." <= domain)
    ensures MatchFqdnNorm(domain, host) <==> host == domain || EndsWith(host, "." + domain)
    ensures MatchFqdnNorm("*." + domain, host) <==> MatchFqdnNorm(domain, host)
  {
    var p := "*." + domain;
    assert p[1..] == "." + domain && p[2..] == domain;
    var n := |host| - |domain|;
    if n > 0 {
      assert host[n - 1..] == [host[n - 1]] + host[n..];
      assert ("." + domain)[0] == '.' && ("." + domain)[1..] == domain;
      if host[n - 1..] == "." + domain { assert host[n - 1..][0] == '.' && host[n - 1..][1..] == domain; }
    }
  }

  predicate ValueMatches(env: Env, v: string, clientIp: string, addr: string) {
    if '/' in v then env.parseCidr(v).Some? && env.contains(env.parseCidr(v).value, addr)
    else v == clientIp
  }

  predicate PredicateMatches(env: Env, p: Predicate, clientIp: string, addr: string) {
    p.kind == "cidr" && exists i :: 0 <= i < |p.values| && ValueMatches(env, p.values[i], clientIp, addr)
  }

  /** Every predicate must hold, an unknown kind never does, and a missing or
      empty selector or an unparseable client address matches nothing. */
  predicate SubjectMatches(env: Env, subject: Option<Subject>, clientIp: string) {
    && subject.Some? && subject.value.schemaVersion >= 1 && subject.value.all != []
    && env.parseIp(clientIp).Some?
    && forall i :: 0 <= i < |subject.value.all| ==>
         PredicateMatches(env, subject.value.all[i], clientIp, env.parseIp(clientIp).value)
  }

  predicate CountryMatches(env: Env, countries: seq<string>, code: string) {
    code != "" && exists i :: 0 <= i < |countries| && env.upper(countries[i]) == env.upper(code)
  }

  predicate HasCategory(r: Rule) {
    r.destCategory != "" && r.destCategory != "Any"
  }

  predicate DestMatches(env: Env, r: Rule, host: string) {
    && (r.destFqdn != "" ==> MatchFqdnNorm(env.normalize(r.destFqdn), env.normalize(host)))
    && (HasCategory(r) ==> env.inCategory(r.destCategory, host))
    && (r.destGroup != "" ==> env.inGroup(r.destGroup, host))
    && (r.destCountry != [] ==> env.countryOf(host).Some? && CountryMatches(env, r.destCountry, env.countryOf(host).value))
  }

  predicate HasDestination(r: Rule) {
    r.destFqdn != "" || HasCategory(r) || r.destGroup != ""
  }

  predicate InForce(env: Env, r: Rule, spec: Spec, q: Request) {
    && (r.schedule.Some? ==> (r.schedule.value.timezone == "" || env.zoneKnown(r.schedule.value.timezone)) && env.inWindow(r.schedule.value))
    && (spec.expiresAt == "" || (env.parseTime(spec.expiresAt).Some? && env.now < env.parseTime(spec.expiresAt).value))
    && (spec.protocol == "" || env.sameFold(spec.protocol, q.protocol))
    && (spec.verb == "" || spec.protocol == "connect" || env.sameFold(spec.verb, q.verb))
  }

  /** The rule applies to the request. */
  predicate Matches(env: Env, r: Rule, q: Request) {
    && r.ruleType == "auth" && (r.enabled.None? || r.enabled.value)
    && r.auth.Some? && !r.auth.value.outcome.OtherOutcome?
    && SubjectMatches(env, r.subject, q.clientIp)
    && (HasDestination(r) || r.auth.value.broadExemption) && DestMatches(env, r, q.host)
    && InForce(env, r, r.auth.value, q)
  }

  /** The rule applies and the exemption kill switch does not suppress it. */
  predicate Survives(env: Env, q: Request, kill: bool, r: Rule) {
    Matches(env, r, q) && !(kill && r.auth.value.outcome.Exempt?)
  }

  /** Rule `i` is the surviving rule of least priority value, the earliest one on a tie. */
  ghost predicate Wins(env: Env, q: Request, kill: bool, rules: seq<Rule>, i: nat) {
    && i < |rules| && Survives(env, q, kill, rules[i])
    && forall j :: 0 <= j < |rules| && Survives(env, q, kill, rules[j]) ==>
         rules[i].priority < rules[j].priority || (rules[i].priority == rules[j].priority && i <= j)
  }

  // ─── The copying resolver ─────────────────────────────────────────────────

  function Insert(r: Rule, sorted: seq<Rule>): seq<Rule> {
    if sorted == [] || r.priority <= sorted[0].priority then [r] + sorted
    else [sorted[0]] + Insert(r, sorted[1..])
  }

  /** The stable sort by priority. */
  function StableSort(rules: seq<Rule>): seq<Rule> {
    if rules == [] then [] else Insert(rules[0], StableSort(rules[1..]))
  }

  predicate Ordered(rules: seq<Rule>) {
    forall i, j :: 0 <= i < j < |rules| ==> rules[i].priority <= rules[j].priority
  }

  function First(env: Env, q: Request, kill: bool, rules: seq<Rule>): Decision {
    if rules == [] then Default
    else if Survives(env, q, kill, rules[0]) then Decided(rules[0].auth.value.outcome, rules[0])
    else First(env, q, kill, rules[1..])
  }

  function Resolve(env: Env, q: Request, kill: bool, rules: seq<Rule>): Decision {
    First(env, q, kill, StableSort(rules))
  }

  lemma {:induction false} InsertPermutes(r: Rule, s: seq<Rule>)
    ensures multiset(Insert(r, s)) == multiset{r} + multiset(s)
  {
    if s != [] && r.priority > s[0].priority {
      assert s == [s[0]] + s[1..];
      InsertPermutes(r, s[1..]);
    }
  }

  lemma {:induction false} InsertOrders(r: Rule, s: seq<Rule>)
    requires Ordered(s)
    ensures Ordered(Insert(r, s))
  {
    if s != [] && r.priority > s[0].priority {
      InsertOrders(r, s[1..]);
      InsertPermutes(r, s[1..]);
      forall k | 0 <= k < |Insert(r, s[1..])| ensures s[0].priority <= Insert(r, s[1..])[k].priority {
        assert Insert(r, s[1..])[k] in multiset(Insert(r, s[1..]));
      }
    }
  }

  lemma {:induction false} SortOrders(rules: seq<Rule>)
    ensures Ordered(StableSort(rules)) && multiset(StableSort(rules)) == multiset(rules)
  {
    if rules != [] {
      SortOrders(rules[1..]);
      InsertOrders(rules[0], StableSort(rules[1..]));
      InsertPermutes(rules[0], StableSort(rules[1..]));
      assert rules == [rules[0]] + rules[1..];
    }
  }

  /** The first survivor after an insertion into a sorted list. */
  lemma {:induction false} FirstOfInsert(env: Env, q: Request, kill: bool, r: Rule, s: seq<Rule>)
    requires Ordered(s)
    ensures
      var d := First(env, q, kill, s);
      First(env, q, kill, Insert(r, s)) ==
        if Survives(env, q, kill, r) && (d.Default? || r.priority <= d.rule.priority)
        then Decided(r.auth.value.outcome, r) else d
  {
    if s == [] || r.priority <= s[0].priority {
      assert ([r] + s)[1..] == s;
      FirstIsIn(env, q, kill, s);
    } else {
      var t := [s[0]] + Insert(r, s[1..]);
      assert t[1..] == Insert(r, s[1..]);
      FirstOfInsert(env, q, kill, r, s[1..]);
    }
  }

  lemma {:induction false} FirstIsIn(env: Env, q: Request, kill: bool, s: seq<Rule>)
    ensures
      var d := First(env, q, kill, s);
      d.Decided? ==> d.rule in s && Survives(env, q, kill, d.rule) && d.outcome == d.rule.auth.value.outcome
  {
    if s != [] { FirstIsIn(env, q, kill, s[1..]); }
  }

  /** Prepending a rule: it wins if it survives and ties or beats the old winner. */
  lemma WinsPrepended(env: Env, q: Request, kill: bool, r: Rule, rest: seq<Rule>, k: nat)
    requires Wins(env, q, kill, rest, k)
    ensures Survives(env, q, kill, r) && r.priority <= rest[k].priority ==> Wins(env, q, kill, [r] + rest, 0)
    ensures !(Survives(env, q, kill, r) && r.priority <= rest[k].priority) ==> Wins(env, q, kill, [r] + rest, k + 1)
  {
    var all := [r] + rest;
    assert forall j :: 0 < j < |all| ==> all[j] == rest[j - 1];
  }

  /** The decision is the winner's, and the default when nothing survives. */
  lemma {:induction false} ResolveIsTheWinner(env: Env, q: Request, kill: bool, rules: seq<Rule>)
    ensures
      match Resolve(env, q, kill, rules)
      case Default => forall j :: 0 <= j < |rules| ==> !Survives(env, q, kill, rules[j])
      case Decided(outcome, rule) =>
        exists i: nat :: Wins(env, q, kill, rules, i) && rules[i] == rule && rule.auth.value.outcome == outcome
  {
    if rules != [] {
      var r, rest := rules[0], rules[1..];
      assert rules == [r] + rest;
      ResolveIsTheWinner(env, q, kill, rest);
      SortOrders(rest);
      FirstOfInsert(env, q, kill, r, StableSort(rest));
      var d := Resolve(env, q, kill, rest);
      if d.Decided? {
        var k: nat :| Wins(env, q, kill, rest, k) && rest[k] == d.rule;
        WinsPrepended(env, q, kill, r, rest, k);
      } else {
        assert forall j :: 0 < j < |rules| ==> rules[j] == rest[j - 1];
        assert Survives(env, q, kill, r) ==> Wins(env, q, kill, rules, 0);
      }
    }
  }

  // ─── Ties, order of storage and the kill switch ───────────────────────────

  /** All surviving rules of the winning priority are one and the same rule. */
  ghost predicate WinnerIsUnique(env: Env, q: Request, kill: bool, rules: seq<Rule>) {
    forall a, b :: a in rules && b in rules && Leads(env, q, kill, rules, a) && Leads(env, q, kill, rules, b) ==> a == b
  }

  ghost predicate Leads(env: Env, q: Request, kill: bool, rules: seq<Rule>, r: Rule) {
    && Survives(env, q, kill, r)
    && forall s :: s in rules && Survives(env, q, kill, s) ==> r.priority <= s.priority
  }

  lemma ResolvedRuleLeads(env: Env, q: Request, kill: bool, rules: seq<Rule>)
    ensures
      match Resolve(env, q, kill, rules)
      case Default => forall r :: r in rules ==> !Survives(env, q, kill, r)
      case Decided(outcome, r) => r in rules && Leads(env, q, kill, rules, r) && outcome == r.auth.value.outcome
  {
    ResolveIsTheWinner(env, q, kill, rules);
  }

  lemma PermutationKeepsLeads(env: Env, q: Request, kill: bool, rules: seq<Rule>, other: seq<Rule>, r: Rule)
    requires multiset(rules) == multiset(other)
    ensures r in rules <==> r in other
    ensures Leads(env, q, kill, rules, r) <==> Leads(env, q, kill, other, r)
  {
    assert forall s :: s in rules <==> s in multiset(rules);
    assert forall s :: s in other <==> s in multiset(other);
  }

  ghost predicate SameDecision(env: Env, q: Request, kill: bool, rules: seq<Rule>, other: seq<Rule>) {
    multiset(other) == multiset(rules) ==> Resolve(env, q, kill, other) == Resolve(env, q, kill, rules)
  }

  lemma UniqueWinnerIgnoresOrder(env: Env, q: Request, kill: bool, rules: seq<Rule>, other: seq<Rule>)
    requires WinnerIsUnique(env, q, kill, rules)
    ensures SameDecision(env, q, kill, rules, other)
  {
    if multiset(other) == multiset(rules) {
      ResolvedRuleLeads(env, q, kill, rules);
      ResolvedRuleLeads(env, q, kill, other);
      var d, e := Resolve(env, q, kill, rules), Resolve(env, q, kill, other);
      if d.Decided? { PermutationKeepsLeads(env, q, kill, rules, other, d.rule); }
      if e.Decided? { PermutationKeepsLeads(env, q, kill, rules, other, e.rule); }
    }
  }

  /** Stored first, a leading rule decides. */
  lemma LeaderInFrontDecides(env: Env, q: Request, kill: bool, rules: seq<Rule>, i: nat)
    requires i < |rules| && Leads(env, q, kill, rules, rules[i])
    ensures
      var moved := [rules[i]] + rules[..i] + rules[i + 1..];
      multiset(moved) == multiset(rules) && Resolve(env, q, kill, moved) == Decided(rules[i].auth.value.outcome, rules[i])
  {
    var moved := [rules[i]] + rules[..i] + rules[i + 1..];
    assert rules == rules[..i] + [rules[i]] + rules[i + 1..];
    var rest := moved[1..];
    assert rest == rules[..i] + rules[i + 1..];
    SortOrders(rest);
    FirstOfInsert(env, q, kill, rules[i], StableSort(rest));
    ResolvedRuleLeads(env, q, kill, rest);
    assert forall r :: r in rest ==> r in rules;
  }

  /** The decision is the same however the rules are stored, and hence whatever
      order an unstable sort leaves ties in, if and only if the winner is unique. */
  lemma OrderMattersIffTied(env: Env, q: Request, kill: bool, rules: seq<Rule>)
    ensures (forall other: seq<Rule> :: SameDecision(env, q, kill, rules, other)) <==> WinnerIsUnique(env, q, kill, rules)
  {
    if WinnerIsUnique(env, q, kill, rules) {
      forall other: seq<Rule> ensures SameDecision(env, q, kill, rules, other) {
        UniqueWinnerIgnoresOrder(env, q, kill, rules, other);
      }
    } else {
      var a, b :| a in rules && b in rules && Leads(env, q, kill, rules, a) && Leads(env, q, kill, rules, b) && a != b;
      var i: nat :| i < |rules| && rules[i] == a;
      var j: nat :| j < |rules| && rules[j] == b;
      var other := TieIsVisible(env, q, kill, rules, i, j);
    }
  }

  lemma TieIsVisible(env: Env, q: Request, kill: bool, rules: seq<Rule>, i: nat, j: nat) returns (other: seq<Rule>)
    requires i < |rules| && j < |rules| && rules[i] != rules[j]
    requires Leads(env, q, kill, rules, rules[i]) && Leads(env, q, kill, rules, rules[j])
    ensures !SameDecision(env, q, kill, rules, other)
  {
    LeaderInFrontDecides(env, q, kill, rules, i);
    LeaderInFrontDecides(env, q, kill, rules, j);
    var d := Resolve(env, q, kill, rules);
    other := if d.Decided? && d.rule == rules[i]
             then [rules[j]] + rules[..j] + rules[j + 1..] else [rules[i]] + rules[..i] + rules[i + 1..];
  }

  predicate IsExempt(r: Rule) {
    r.auth.Some? && r.auth.value.outcome.Exempt?
  }

  function WithoutExempt(rules: seq<Rule>): seq<Rule> {
    if rules == [] then []
    else if IsExempt(rules[0]) then WithoutExempt(rules[1..])
    else [rules[0]] + WithoutExempt(rules[1..])
  }

  /** Engaging the kill switch is deleting the Exempt rules: nothing else changes. */
  lemma {:induction false} KillSwitchIsDeletion(env: Env, q: Request, rules: seq<Rule>)
    ensures Resolve(env, q, true, rules) == Resolve(env, q, false, WithoutExempt(rules))
  {
    if rules != [] {
      var rest := rules[1..];
      KillSwitchIsDeletion(env, q, rest);
      SortOrders(rest);
      SortOrders(WithoutExempt(rest));
      FirstOfInsert(env, q, true, rules[0], StableSort(rest));
      if !IsExempt(rules[0]) {
        FirstOfInsert(env, q, false, rules[0], StableSort(WithoutExempt(rest)));
        assert ([rules[0]] + WithoutExempt(rest))[1..] == WithoutExempt(rest);
      }
    }
  }

  lemma {:induction false} FirstUnderKill(env: Env, q: Request, s: seq<Rule>)
    ensures
      var off, on := First(env, q, false, s), First(env, q, true, s);
      && (off.Default? || !off.outcome.Exempt? ==> on == off)
      && (on.Decided? ==> !on.outcome.Exempt?)
  {
    if s != [] { FirstUnderKill(env, q, s[1..]); }
  }

  /** The switch never yields Exempt, and a decision that was not Exempt without it
      is the same decision with it. */
  lemma KillSwitchKeepsOthers(env: Env, q: Request, rules: seq<Rule>)
    ensures
      var off, on := Resolve(env, q, false, rules), Resolve(env, q, true, rules);
      && (off.Default? || !off.outcome.Exempt? ==> on == off)
      && (on.Decided? ==> !on.outcome.Exempt?)
  {
    FirstUnderKill(env, q, StableSort(rules));
  }

  // ─── What keeps a rule from applying ──────────────────────────────────────

  predicate SwitchedOff(r: Rule) {
    r.ruleType != "auth" || r.enabled == Some(false) || r.auth.None? || r.auth.value.outcome.OtherOutcome?
  }

  /** A timestamp that does not parse counts as passed. */
  predicate Expired(env: Env, spec: Spec) {
    spec.expiresAt != "" && (env.parseTime(spec.expiresAt).None? || env.parseTime(spec.expiresAt).value <= env.now)
  }

  predicate OffSchedule(env: Env, s: Schedule) {
    (s.timezone != "" && !env.zoneKnown(s.timezone)) || !env.inWindow(s)
  }

  predicate OtherProtocol(env: Env, spec: Spec, q: Request) {
    spec.protocol != "" && !env.sameFold(spec.protocol, q.protocol)
  }

  /** The verb is ignored on CONNECT rules. */
  predicate OtherVerb(env: Env, spec: Spec, q: Request) {
    spec.verb != "" && spec.protocol != "connect" && !env.sameFold(spec.verb, q.verb)
  }

  /** No value of the predicate is the client's address or a network around it. */
  predicate Misses(env: Env, p: Predicate, clientIp: string, addr: string) {
    p.kind != "cidr" ||
    forall i :: 0 <= i < |p.values| ==>
      if '/' in p.values[i] then env.parseCidr(p.values[i]).None? || !env.contains(env.parseCidr(p.values[i]).value, addr)
      else p.values[i] != clientIp
  }

  predicate OutsideSource(env: Env, subject: Option<Subject>, clientIp: string) {
    || subject.None? || subject.value.schemaVersion < 1 || subject.value.all == [] || env.parseIp(clientIp).None?
    || exists i :: 0 <= i < |subject.value.all| && Misses(env, subject.value.all[i], clientIp, env.parseIp(clientIp).value)
  }

  /** The domain a pattern stands for. */
  function Domain(pattern: string): string {
    if "*." <= pattern then pattern[2..] else pattern
  }

  predicate OutsideDomain(pattern: string, host: string) {
    pattern != "*" && host != Domain(pattern) && !EndsWith(host, "." + Domain(pattern))
  }

  /** The destination's country is unknown or not listed. */
  predicate OutsideCountries(env: Env, countries: seq<string>, code: Option<string>) {
    code.None? || code.value == "" || forall i :: 0 <= i < |countries| ==> env.upper(countries[i]) != env.upper(code.value)
  }

  /** No destination is named and none is waived, or a named one is another. */
  predicate OutsideDestination(env: Env, r: Rule, spec: Spec, host: string) {
    || (r.destFqdn == "" && (r.destCategory == "" || r.destCategory == "Any") && r.destGroup == "" && !spec.broadExemption)
    || (r.destFqdn != "" && OutsideDomain(env.normalize(r.destFqdn), env.normalize(host)))
    || (r.destCategory != "" && r.destCategory != "Any" && !env.inCategory(r.destCategory, host))
    || (r.destGroup != "" && !env.inGroup(r.destGroup, host))
    || (r.destCountry != [] && OutsideCountries(env, r.destCountry, env.countryOf(host)))
  }

  predicate Faulty(env: Env, q: Request, r: Rule) {
    || SwitchedOff(r)
    || OutsideSource(env, r.subject, q.clientIp)
    || OutsideDestination(env, r, r.auth.value, q.host)
    || (r.schedule.Some? && OffSchedule(env, r.schedule.value))
    || Expired(env, r.auth.value)
    || OtherProtocol(env, r.auth.value, q) || OtherVerb(env, r.auth.value, q)
  }

  lemma DomainMeaning(pattern: string, host: string)
    ensures MatchFqdnNorm(pattern, host) <==> !OutsideDomain(pattern, host)
  {
    if "*." <= pattern {
      assert pattern[1..] == "." + pattern[2..];
    } else if pattern != "*" {
      FqdnCoversSubdomains(pattern, host);
    }
  }

  lemma SourceMeaning(env: Env, subject: Option<Subject>, clientIp: string)
    ensures SubjectMatches(env, subject, clientIp) <==> !OutsideSource(env, subject, clientIp)
  {
    if subject.Some? && env.parseIp(clientIp).Some? {
      var addr := env.parseIp(clientIp).value;
      forall i | 0 <= i < |subject.value.all|
        ensures PredicateMatches(env, subject.value.all[i], clientIp, addr) <==> !Misses(env, subject.value.all[i], clientIp, addr)
      {
        var p := subject.value.all[i];
        if p.kind == "cidr" && !Misses(env, p, clientIp, addr) {
          var k :| 0 <= k < |p.values| && !(if '/' in p.values[k] then env.parseCidr(p.values[k]).None? || !env.contains(env.parseCidr(p.values[k]).value, addr)
                                            else p.values[k] != clientIp);
          assert ValueMatches(env, p.values[k], clientIp, addr);
        }
      }
    }
  }

  lemma DestinationMeaning(env: Env, r: Rule, spec: Spec, host: string)
    ensures (HasDestination(r) || spec.broadExemption) && DestMatches(env, r, host) <==> !OutsideDestination(env, r, spec, host)
  {
    DomainMeaning(env.normalize(r.destFqdn), env.normalize(host));
  }

  /** A rule applies exactly when nothing is wrong with it for this request. */
  lemma AppliesIffFaultless(env: Env, q: Request, r: Rule)
    ensures Matches(env, r, q) <==> !Faulty(env, q, r)
  {
    SourceMeaning(env, r.subject, q.clientIp);
    if r.auth.Some? { DestinationMeaning(env, r, r.auth.value, q.host); }
  }

  function Without(rules: seq<Rule>, dead: Rule -> bool): seq<Rule> {
    if rules == [] then []
    else if dead(rules[0]) then Without(rules[1..], dead)
    else [rules[0]] + Without(rules[1..], dead)
  }

  /** Deletion law: rules that are disabled, expired or unparseable in time, out of
      schedule, of another protocol or verb, or whose source or destination the
      request is outside of, might as well not be stored. */
  lemma {:induction false} FaultyRulesAreInert(env: Env, q: Request, kill: bool, rules: seq<Rule>, dead: Rule -> bool)
    requires forall r :: dead(r) ==> Faulty(env, q, r)
    ensures Resolve(env, q, kill, rules) == Resolve(env, q, kill, Without(rules, dead))
  {
    if rules != [] {
      var rest := rules[1..];
      FaultyRulesAreInert(env, q, kill, rest, dead);
      SortOrders(rest);
      FirstOfInsert(env, q, kill, rules[0], StableSort(rest));
      if dead(rules[0]) {
        AppliesIffFaultless(env, q, rules[0]);
      } else {
        SortOrders(Without(rest, dead));
        FirstOfInsert(env, q, kill, rules[0], StableSort(Without(rest, dead)));
        assert ([rules[0]] + Without(rest, dead))[1..] == Without(rest, dead);
      }
    }
  }

  /** And a rule without fault decides where it stands alone. */
  lemma FaultlessRuleDecides(env: Env, q: Request, r: Rule)
    requires !Faulty(env, q, r)
    ensures Resolve(env, q, false, [r]) == Decided(r.auth.value.outcome, r)
  {
    AppliesIffFaultless(env, q, r);
    assert StableSort([r]) == [r] by { assert [r][1..] == []; }
  }

  /** Exempt is only ever decided with the switch off, for a client whose address
      parses and lies in every predicate of an enabled Exempt rule that names the
      destination, or waives naming one, and is in time, in schedule and of the
      request's protocol and verb. */
  lemma ExemptionIsEarned(env: Env, q: Request, kill: bool, rules: seq<Rule>)
    requires Resolve(env, q, kill, rules).Decided? && Resolve(env, q, kill, rules).outcome.Exempt?
    ensures !kill && env.parseIp(q.clientIp).Some?
    ensures exists r ::
      && r in rules && r.ruleType == "auth" && r.enabled != Some(false) && r.auth.Some? && r.auth.value.outcome == Exempt
      && var spec := r.auth.value;
      && (spec.expiresAt != "" ==> env.parseTime(spec.expiresAt).Some? && env.now < env.parseTime(spec.expiresAt).value)
      && (r.schedule.Some? ==> env.inWindow(r.schedule.value) && (r.schedule.value.timezone != "" ==> env.zoneKnown(r.schedule.value.timezone)))
      && (spec.protocol != "" ==> env.sameFold(spec.protocol, q.protocol))
      && (spec.verb != "" && spec.protocol != "connect" ==> env.sameFold(spec.verb, q.verb))
      && !OutsideSource(env, r.subject, q.clientIp) && !OutsideDestination(env, r, spec, q.host)
  {
    ResolvedRuleLeads(env, q, kill, rules);
    AppliesIffFaultless(env, q, Resolve(env, q, kill, rules).rule);
  }

  // ─── Publication ──────────────────────────────────────────────────────────

  /** A rule without its precomputed fields. */
  function Plain(r: Rule): Rule {
    r.(normFqdn := "", subject := match r.subject case None => None case Some(s) => Some(s.(all := PlainAll(s.all))))
  }

  function PlainAll(all: seq<Predicate>): (r: seq<Predicate>)
    ensures |r| == |all| && forall i :: 0 <= i < |all| ==> r[i] == all[i].(nets := [])
  {
    if all == [] then [] else [all[0].(nets := [])] + PlainAll(all[1..])
  }

  function PlainRules(rules: seq<Rule>): (r: seq<Rule>)
    ensures |r| == |rules| && forall i :: 0 <= i < |rules| ==> r[i] == Plain(rules[i])
  {
    if rules == [] then [] else [Plain(rules[0])] + PlainRules(rules[1..])
  }

  /** Precomputed networks agree with the values they were parsed from. */
  ghost predicate NetsAgree(env: Env, p: Predicate) {
    forall i :: 0 <= i < |p.values| && i < |p.nets| && p.nets[i].Some? ==>
      '/' in p.values[i] && env.parseCidr(p.values[i]) == p.nets[i]
  }

  ghost predicate Agrees(env: Env, r: Rule) {
    && (r.normFqdn != "" ==> r.normFqdn == env.normalize(r.destFqdn))
    && (r.subject.Some? ==> forall i :: 0 <= i < |r.subject.value.all| ==> NetsAgree(env, r.subject.value.all[i]))
  }

  /** Some value of a CIDR predicate parses. */
  predicate Parses(env: Env, p: Predicate) {
    p.kind == "cidr" && exists i :: 0 <= i < |p.values| && '/' in p.values[i] && env.parseCidr(p.values[i]).Some?
  }

  function NetOf(env: Env, v: string): Option<string> {
    if '/' in v then env.parseCidr(v) else None
  }

  /** Aligned with the values, or absent when none parses. */
  function NetsOf(env: Env, p: Predicate): (nets: seq<Option<string>>) {
    if Parses(env, p) then seq(|p.values|, i requires 0 <= i < |p.values| => NetOf(env, p.values[i])) else []
  }

  /** Parse every CIDR value once.  The result agrees with the values whatever
      stale networks the predicate carried before. */
  method PrecomputeNets(env: Env, p: Predicate) returns (r: Predicate)
    ensures r == p.(nets := NetsOf(env, p)) && NetsAgree(env, r)
  {
    if p.kind != "cidr" || |p.values| == 0 { return p.(nets := []); }
    var nets, parsed, j := [], false, 0;
    while j < |p.values|
      invariant 0 <= j <= |p.values| && |nets| == j
      invariant forall i :: 0 <= i < j ==> nets[i] == NetOf(env, p.values[i])
      invariant parsed <==> exists i :: 0 <= i < j && '/' in p.values[i] && env.parseCidr(p.values[i]).Some?
    {
      var net := None;
      if '/' in p.values[j] {
        net := env.parseCidr(p.values[j]);
        if net.Some? { parsed := true; }
      }
      nets := nets + [net];
      j := j + 1;
    }
    r := p.(nets := if parsed then nets else []);
  }

  function PrecomputeAll(env: Env, all: seq<Predicate>): (r: seq<Predicate>)
    ensures |r| == |all| && forall i :: 0 <= i < |all| ==> r[i] == all[i].(nets := NetsOf(env, all[i]))
  {
    if all == [] then [] else [all[0].(nets := NetsOf(env, all[0]))] + PrecomputeAll(env, all[1..])
  }

  /** A published definition: whatever the rule carried, both forms derived anew. */
  function Precompute(env: Env, r: Rule): Rule {
    r.(normFqdn := if r.destFqdn != "" then env.normalize(r.destFqdn) else "",
       subject := match r.subject case None => None case Some(s) => Some(s.(all := PrecomputeAll(env, s.all))))
  }

  function PrecomputeRules(env: Env, rules: seq<Rule>): (p: seq<Rule>)
    ensures |p| == |rules| && forall i :: 0 <= i < |rules| ==> p[i] == Precompute(env, rules[i])
  {
    if rules == [] then [] else [Precompute(env, rules[0])] + PrecomputeRules(env, rules[1..])
  }

  /** What a stable sort publishes for a stored list. */
  function Published(env: Env, rules: seq<Rule>): seq<Rule> {
    PrecomputeRules(env, StableSort(rules))
  }

  lemma PrecomputeAgrees(env: Env, r: Rule)
    ensures Agrees(env, Precompute(env, r)) && Plain(Precompute(env, r)) == Plain(r)
  {
    if r.subject.Some? {
      var all := r.subject.value.all;
      assert PlainAll(PrecomputeAll(env, all)) == PlainAll(all);
    }
  }

  lemma PublishedAgrees(env: Env, order: seq<Rule>)
    ensures PlainRules(PrecomputeRules(env, order)) == PlainRules(order)
    ensures forall i :: 0 <= i < |order| ==> Agrees(env, PrecomputeRules(env, order)[i])
    ensures Ordered(order) ==> Ordered(PrecomputeRules(env, order))
  {
    forall i | 0 <= i < |order| ensures Agrees(env, Precompute(env, order[i])) && Plain(Precompute(env, order[i])) == Plain(order[i]) {
      PrecomputeAgrees(env, order[i]);
    }
  }

  /** sortLocked's second half: one loop over the sorted clones. */
  method PublishRules(env: Env, order: seq<Rule>) returns (p: seq<Rule>)
    ensures p == PrecomputeRules(env, order)
  {
    p := [];
    for i := 0 to |order|
      invariant |p| == i && forall k :: 0 <= k < i ==> p[k] == Precompute(env, order[k])
    {
      var r := PublishRule(env, order[i]);
      p := p + [r];
    }
  }

  method PublishRule(env: Env, r: Rule) returns (p: Rule)
    ensures p == Precompute(env, r)
  {
    p := r.(normFqdn := if r.destFqdn != "" then env.normalize(r.destFqdn) else "");
    if r.subject.Some? {
      var all, out := r.subject.value.all, [];
      for i := 0 to |all|
        invariant |out| == i && forall k :: 0 <= k < i ==> out[k] == all[k].(nets := NetsOf(env, all[k]))
      {
        var x := PrecomputeNets(env, all[i]);
        out := out + [x];
      }
      assert out == PrecomputeAll(env, all);
      p := p.(subject := Some(r.subject.value.(all := out)));
    }
  }

  // ─── The snapshot resolver ────────────────────────────────────────────────

  method CidrPredicateMatches(env: Env, p: Predicate, clientIp: string, addr: string) returns (b: bool)
    requires NetsAgree(env, p)
    ensures b <==> exists i :: 0 <= i < |p.values| && ValueMatches(env, p.values[i], clientIp, addr)
  {
    var i := 0;
    while i < |p.values|
      invariant 0 <= i <= |p.values|
      invariant forall k :: 0 <= k < i ==> !ValueMatches(env, p.values[k], clientIp, addr)
    {
      if i < |p.nets| && p.nets[i].Some? {
        if env.contains(p.nets[i].value, addr) { return true; }
      } else if ValueMatches(env, p.values[i], clientIp, addr) {
        return true;
      }
      i := i + 1;
    }
    return false;
  }

  method MatchSubjectAddr(env: Env, subject: Option<Subject>, clientIp: string, addr: Option<string>) returns (b: bool)
    requires addr == env.parseIp(clientIp)
    requires subject.Some? ==> forall i :: 0 <= i < |subject.value.all| ==> NetsAgree(env, subject.value.all[i])
    ensures b == SubjectMatches(env, subject, clientIp)
  {
    if subject.None? || subject.value.schemaVersion < 1 || |subject.value.all| == 0 || addr.None? { return false; }
    var all, i := subject.value.all, 0;
    while i < |all|
      invariant 0 <= i <= |all|
      invariant forall k :: 0 <= k < i ==> PredicateMatches(env, all[k], clientIp, addr.value)
    {
      if all[i].kind != "cidr" { return false; }
      var hit := CidrPredicateMatches(env, all[i], clientIp, addr.value);
      if !hit { return false; }
      i := i + 1;
    }
    return true;
  }

  /** Values derived from the request, each computed at most once per scan. */
  class AuthMatchScratch {
    const env: Env
    const q: Request
    var norm: string
    var normSet: bool
    var addr: Option<string>
    var addrSet: bool
    ghost var computed: nat

    ghost predicate Valid()
      reads this
    {
      && (normSet ==> norm == env.normalize(q.host))
      && (addrSet ==> addr == env.parseIp(q.clientIp))
      && computed == (if normSet then 1 else 0) + (if addrSet then 1 else 0)
    }

    constructor (env: Env, q: Request)
      ensures Valid() && this.env == env && this.q == q && !normSet && !addrSet
    {
      this.env, this.q := env, q;
      norm, normSet, addr, addrSet, computed := "", false, None, false, 0;
    }

    method NormHost() returns (h: string)
      requires Valid()
      modifies this
      ensures Valid() && h == env.normalize(q.host) && normSet && addrSet == old(addrSet)
    {
      if !normSet { norm, normSet, computed := env.normalize(q.host), true, computed + 1; }
      h := norm;
    }

    method ClientAddr() returns (a: Option<string>)
      requires Valid()
      modifies this
      ensures Valid() && a == env.parseIp(q.clientIp) && addrSet && normSet == old(normSet)
    {
      if !addrSet { addr, addrSet, computed := env.parseIp(q.clientIp), true, computed + 1; }
      a := addr;
    }

    method MatchDestNorm(r: Rule) returns (b: bool)
      requires Valid() && Agrees(env, r)
      modifies this
      ensures Valid() && b == DestMatches(env, r, q.host)
    {
      var host := NormHost();
      if r.destFqdn != "" {
        if r.normFqdn != "" {
          if !MatchFqdnNorm(r.normFqdn, host) { return false; }
        } else if !MatchFqdnNorm(env.normalize(r.destFqdn), env.normalize(q.host)) {
          return false;
        }
      }
      if HasCategory(r) && !env.inCategory(r.destCategory, q.host) { return false; }
      if r.destGroup != "" && !env.inGroup(r.destGroup, q.host) { return false; }
      if |r.destCountry| > 0 {
        var code := env.countryOf(q.host);
        if code.None? || !CountryMatches(env, r.destCountry, code.value) { return false; }
      }
      return true;
    }

    /** A rule that is not an enabled auth rule derives nothing. */
    method RuleMatches(r: Rule) returns (b: bool)
      requires Valid() && Agrees(env, r)
      modifies this
      ensures Valid() && b == Matches(env, r, q) && (b <==> !Faulty(env, q, r))
      ensures r.ruleType != "auth" ==> normSet == old(normSet) && addrSet == old(addrSet)
    {
      AppliesIffFaultless(env, q, r);
      if r.ruleType != "auth" || (r.enabled.Some? && !r.enabled.value) { return false; }
      if r.auth.None? || r.auth.value.outcome.OtherOutcome? { return false; }
      var a := ClientAddr();
      var subject := MatchSubjectAddr(env, r.subject, q.clientIp, a);
      if !subject { return false; }
      if !HasDestination(r) && !r.auth.value.broadExemption { return false; }
      var dest := MatchDestNorm(r);
      if !dest { return false; }
      if r.schedule.Some? {
        var zone := r.schedule.value.timezone;
        if zone != "" && !env.zoneKnown(zone) { return false; }
        if !env.inWindow(r.schedule.value) { return false; }
      }
      var spec := r.auth.value;
      if spec.expiresAt != "" {
        var expiry := env.parseTime(spec.expiresAt);
        if expiry.None? || expiry.value <= env.now { return false; }
      }
      if spec.protocol != "" && !env.sameFold(spec.protocol, q.protocol) { return false; }
      if spec.verb != "" && spec.protocol != "connect" && !env.sameFold(spec.verb, q.verb) { return false; }
      return true;
    }
  }

  lemma SortedAgree(env: Env, rules: seq<Rule>)
    requires forall i :: 0 <= i < |rules| ==> Agrees(env, rules[i])
    ensures forall i :: 0 <= i < |StableSort(rules)| ==> Agrees(env, StableSort(rules)[i])
  {
    SortOrders(rules);
    forall i | 0 <= i < |StableSort(rules)| ensures Agrees(env, StableSort(rules)[i]) {
      assert StableSort(rules)[i] in multiset(StableSort(rules));
    }
  }

  /** The simulator's resolver: sort a copy, then scan it with a new scratch per rule. */
  method ResolveFrom(env: Env, q: Request, kill: bool, rules: seq<Rule>) returns (d: Decision)
    requires forall i :: 0 <= i < |rules| ==> Agrees(env, rules[i])
    ensures d == Resolve(env, q, kill, rules)
  {
    var sorted, i := StableSort(rules), 0;
    SortedAgree(env, rules);
    while i < |sorted|
      invariant 0 <= i <= |sorted|
      invariant First(env, q, kill, sorted) == First(env, q, kill, sorted[i..])
    {
      var scratch := new AuthMatchScratch(env, q);
      var hit := scratch.RuleMatches(sorted[i]);
      if hit && !(sorted[i].auth.value.outcome.Exempt? && kill) {
        return Decided(sorted[i].auth.value.outcome, sorted[i]);
      }
      assert sorted[i..][1..] == sorted[i + 1..];
      i := i + 1;
    }
    return Default;
  }

  /** The runtime resolver: one pass over the published snapshot. */
  method ResolveSnapshot(env: Env, q: Request, kill: bool, rules: seq<Rule>) returns (d: Decision)
    requires Ordered(rules) && forall i :: 0 <= i < |rules| ==> Agrees(env, rules[i])
    ensures d == Resolve(env, q, kill, PlainRules(rules))
  {
    SnapshotMeaning(env, q, kill, rules);
    d := ScanSnapshot(env, q, kill, rules);
  }

  lemma SnapshotMeaning(env: Env, q: Request, kill: bool, rules: seq<Rule>)
    requires Ordered(rules)
    ensures Resolve(env, q, kill, PlainRules(rules)) == PlainDecision(First(env, q, kill, rules))
  {
    FirstPlain(env, q, kill, rules);
    SortedStays(PlainRules(rules));
  }

  /** The loop, with one scratch shared by all rules; without an auth rule it
      derives nothing from the request. */
  method ScanSnapshot(env: Env, q: Request, kill: bool, rules: seq<Rule>) returns (d: Decision)
    requires forall i :: 0 <= i < |rules| ==> Agrees(env, rules[i])
    ensures d == PlainDecision(First(env, q, kill, rules))
  {
    var scratch := new AuthMatchScratch(env, q);
    var i := 0;
    while i < |rules|
      invariant 0 <= i <= |rules| && scratch.Valid() && scratch.env == env && scratch.q == q
      invariant fresh(scratch)
      invariant First(env, q, kill, rules) == First(env, q, kill, rules[i..])
      invariant (forall k :: 0 <= k < i ==> rules[k].ruleType != "auth") ==> !scratch.addrSet && !scratch.normSet
    {
      var hit := scratch.RuleMatches(rules[i]);
      if hit && !(rules[i].auth.value.outcome.Exempt? && kill) {
        return Decided(rules[i].auth.value.outcome, Plain(rules[i]));
      }
      assert rules[i..][1..] == rules[i + 1..];
      i := i + 1;
    }
    return Default;
  }

  /** Fast refines simple, for every stored list: scanning what a stable sort
      publishes decides as copying, sorting and scanning the list does. */
  lemma FastRefinesSimple(env: Env, q: Request, kill: bool, rules: seq<Rule>)
    ensures PlainDecision(First(env, q, kill, Published(env, rules))) == PlainDecision(Resolve(env, q, kill, rules))
  {
    PublishedAgrees(env, StableSort(rules));
    FirstPlain(env, q, kill, Published(env, rules));
    FirstPlain(env, q, kill, StableSort(rules));
  }

  /** And so does any ordered permutation an unstable sort may publish, when the
      winner is unique. */
  lemma AnyOrderRefinesSimple(env: Env, q: Request, kill: bool, rules: seq<Rule>, order: seq<Rule>)
    requires Ordered(order) && multiset(order) == multiset(rules) && WinnerIsUnique(env, q, kill, rules)
    ensures PlainDecision(First(env, q, kill, PrecomputeRules(env, order))) == PlainDecision(Resolve(env, q, kill, rules))
  {
    PublishedAgrees(env, order);
    FirstPlain(env, q, kill, PrecomputeRules(env, order));
    FirstPlain(env, q, kill, order);
    SortedStays(order);
    UniqueWinnerIgnoresOrder(env, q, kill, rules, order);
  }

  /** The runtime entry, from the stored rules: `order` is what the store's sort
      makes of them. */
  method ResolveAuthOutcome(env: Env, q: Request, kill: bool, rules: seq<Rule>, order: seq<Rule>) returns (d: Decision)
    requires Ordered(order) && multiset(order) == multiset(rules)
    ensures order == StableSort(rules) || WinnerIsUnique(env, q, kill, rules) ==> d == PlainDecision(Resolve(env, q, kill, rules))
    ensures d.Decided? ==> exists r :: r in rules && Leads(env, q, kill, rules, r) && d == Decided(r.auth.value.outcome, Plain(r))
  {
    var published := PublishRules(env, order);
    PublishedAgrees(env, order);
    d := ScanSnapshot(env, q, kill, published);
    if order == StableSort(rules) { FastRefinesSimple(env, q, kill, rules); }
    if WinnerIsUnique(env, q, kill, rules) { AnyOrderRefinesSimple(env, q, kill, rules, order); }
    PublishedLeader(env, q, kill, rules, order);
  }

  /** Whatever the tie order, the published decision is that of a leading rule. */
  lemma PublishedLeader(env: Env, q: Request, kill: bool, rules: seq<Rule>, order: seq<Rule>)
    requires Ordered(order) && multiset(order) == multiset(rules)
    ensures
      var d := PlainDecision(First(env, q, kill, PrecomputeRules(env, order)));
      d.Decided? ==> exists r :: r in rules && Leads(env, q, kill, rules, r) && d == Decided(r.auth.value.outcome, Plain(r))
  {
    PublishedAgrees(env, order);
    FirstPlain(env, q, kill, PrecomputeRules(env, order));
    FirstPlain(env, q, kill, order);
    SortedStays(order);
    ResolvedRuleLeads(env, q, kill, order);
    var d := Resolve(env, q, kill, order);
    if d.Decided? { PermutationKeepsLeads(env, q, kill, rules, order, d.rule); }
  }

  function PlainDecision(d: Decision): Decision {
    match d case Default => Default case Decided(outcome, r) => Decided(outcome, Plain(r))
  }

  lemma PlainMatches(env: Env, r: Rule, q: Request)
    ensures Matches(env, Plain(r), q) == Matches(env, r, q)
  {
    if r.subject.Some? {
      var s, t := r.subject.value.all, PlainAll(r.subject.value.all);
      assert forall i :: 0 <= i < |s| ==> t[i].values == s[i].values && t[i].kind == s[i].kind;
      if env.parseIp(q.clientIp).Some? {
        var addr := env.parseIp(q.clientIp).value;
        assert forall i :: 0 <= i < |s| ==> PredicateMatches(env, t[i], q.clientIp, addr) == PredicateMatches(env, s[i], q.clientIp, addr);
      }
    }
  }

  lemma {:induction false} FirstPlain(env: Env, q: Request, kill: bool, rules: seq<Rule>)
    ensures First(env, q, kill, PlainRules(rules)) == PlainDecision(First(env, q, kill, rules))
  {
    if rules != [] {
      PlainMatches(env, rules[0], q);
      FirstPlain(env, q, kill, rules[1..]);
    }
  }

  lemma {:induction false} SortedStays(rules: seq<Rule>)
    requires Ordered(rules)
    ensures StableSort(rules) == rules
  {
    if rules != [] { SortedStays(rules[1..]); }
  }
}
