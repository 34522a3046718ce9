/** The rule-based resolver of internal/dns/resolver.go over one cache per rule. */
module DnsResolver {
  import opened Wrappers
  import opened Ascii
  import opened DnsCache
  import HostMatcher

  datatype Family = IPv4 | IPv6

  /** Cidr stands for a parsed network: which hosts it contains. */
  datatype Matcher = Domain(pattern: string) | Exact(value: string) | Cidr(contains: string -> bool)

  /** An empty list of matchers covers every host. limits are those of the rule's own cache. */
  datatype Rule = Rule(matchers: seq<Matcher>, limits: Limits, failHard: bool, prefer: Family)

  ghost predicate Matches(t: Matcher, host: string) {
    match t
    case Domain(pattern) => HostMatcher.Covers(pattern, host)
    case Exact(value) => Lower(host) == Lower(value)
    case Cidr(contains) => contains(host)
  }

  ghost predicate RuleCovers(rule: Rule, host: string) {
    |rule.matchers| == 0 || exists i :: 0 <= i < |rule.matchers| && Matches(rule.matchers[i], host)
  }

  /** idx is the first rule that covers host. */
  ghost predicate FirstMatch(rules: seq<Rule>, host: string, idx: nat) {
    idx < |rules| && RuleCovers(rules[idx], host) && forall i :: 0 <= i < idx ==> !RuleCovers(rules[i], host)
  }

  ghost predicate NoMatch(rules: seq<Rule>, host: string) {
    forall i :: 0 <= i < |rules| ==> !RuleCovers(rules[i], host)
  }

  /* ---------- one lookup ---------- */

  datatype QueryResult = QueryFailed | Response(ips: seq<Ip>, minTTL: int)

  /** What the surroundings contribute to one call: the answers the rule's servers would give, and the
      clock at the first cache read, at the store, at the eviction, and at the second read. */
  datatype Env = Env(aaaa: QueryResult, a: QueryResult, t0: int, t1: int, t2: int, t3: int)

  datatype Found = LookupFailed | NotFound | Found(family: Family, ips: seq<Ip>, ttl: int)

  /** AAAA is asked first when IPv6 is preferred; A unless AAAA answered. */
  function Ask(rule: Rule, env: Env): Found {
    if rule.prefer.IPv6? && env.aaaa.QueryFailed? then LookupFailed
    else if rule.prefer.IPv6? && env.aaaa.ips != [] then Found(IPv6, env.aaaa.ips, env.aaaa.minTTL)
    else if env.a.QueryFailed? then LookupFailed
    else if env.a.ips != [] then Found(IPv4, env.a.ips, env.a.minTTL)
    else NotFound
  }

  function PickIP(e: Entry, prefer: Family): Option<Ip> {
    if prefer.IPv6? then
      if e.ipv6 != [] then Some(e.ipv6[0]) else if e.ipv4 != [] then Some(e.ipv4[0]) else None
    else if e.ipv4 != [] then Some(e.ipv4[0]) else if e.ipv6 != [] then Some(e.ipv6[0]) else None
  }

  /* ---------- the steps ---------- */

  datatype Outcome = UseHostname | UseIP(ip: Ip) | ResolveError

  /** One answer received from a rule's server, in the order they came. */
  datatype Answer = Answer(rule: nat, name: string, family: Family, ips: seq<Ip>, ttl: int, at: int)

  datatype State = State(caches: seq<Entries>, answers: seq<Answer>)

  /** n rules with nothing cached and nothing answered. */
  function Start(n: nat): State {
    State(seq(n, _ => map[]), [])
  }

  function OnFailure(rule: Rule): Outcome {
    if rule.failHard then ResolveError else UseHostname
  }

  function PositiveEntry(rule: Rule, x: Answer): Entry {
    var expiresAt := x.at + ClampTTL(rule.limits, x.ttl);
    if x.family.IPv6? then Entry([], x.ips, expiresAt, false) else Entry(x.ips, [], expiresAt, false)
  }

  function NegativeEntry(rule: Rule, at: int): Entry {
    Entry([], [], at + rule.limits.negativeTTL, true)
  }

  /** The cached entry that ends a call without a query, if there is one. */
  function Served(rules: seq<Rule>, s: State, idx: nat, key: string, now: int): Option<Entry>
    requires idx < |rules| && idx < |s.caches|
  {
    match Hit(s.caches[idx], key, now)
    case None => None
    case Some(e) => if e.negative || PickIP(e, rules[idx].prefer).Some? then Some(e) else None
  }

  /** The outcome of a query, and what it leaves in the rule's cache c. */
  ghost predicate Looked(rule: Rule, idx: nat, c: Entries, key: string, env: Env, c': Entries, answers: seq<Answer>,
                         out: Outcome)
  {
    match Ask(rule, env)
    case LookupFailed => c' == c && answers == [] && out == OnFailure(rule)
    case NotFound =>
      && Stored(c, key, NegativeEntry(rule, env.t1), env.t2, rule.limits.maxEntries, c')
      && answers == [] && out == OnFailure(rule)
    case Found(family, ips, ttl) =>
      var x := Answer(idx, key, family, ips, ttl, env.t1);
      && (exists c1 :: Stored(c, key, PositiveEntry(rule, x), env.t2, rule.limits.maxEntries, c1)
                       && c' == AfterGet(c1, key, env.t3))
      && answers == [x] && out == UseIP(ips[0])
  }

  ghost predicate ResolveStep(rules: seq<Rule>, s: State, host: string, literal: bool, env: Env, s': State,
                              out: Outcome)
    requires |s.caches| == |rules|
  {
    if literal || NoMatch(rules, host) then s' == s && out == UseHostname
    else
      exists idx :: FirstMatch(rules, host, idx) && RuleStep(rules, s, idx, Lower(host), env, s', out)
  }

  ghost predicate RuleStep(rules: seq<Rule>, s: State, idx: nat, key: string, env: Env, s': State, out: Outcome)
    requires |s.caches| == |rules| && idx < |rules|
  {
    match Served(rules, s, idx, key, env.t0)
    case Some(e) =>
      && s' == s
      && out == (if e.negative then OnFailure(rules[idx]) else UseIP(PickIP(e, rules[idx].prefer).value))
    case None =>
      exists c', answers ::
        && Looked(rules[idx], idx, AfterGet(s.caches[idx], key, env.t0), key, env, c', answers, out)
        && s' == State(s.caches[idx := c'], s.answers + answers)
  }

  function InvalidateStep(s: State, host: string): State {
    s.(caches := seq(|s.caches|, i requires 0 <= i < |s.caches| => s.caches[i] - {Lower(host)}))
  }
}
