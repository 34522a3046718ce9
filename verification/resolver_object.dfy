/** The resolver as the object the program keeps, with its caches updated in place. */
module DnsResolverObject {
  import opened Wrappers
  import opened Ascii
  import opened DnsCache
  import opened DnsResolver
  import HostMatcher

  method MatchHost(t: Matcher, host: string) returns (matched: bool)
    ensures matched <==> Matches(t, host)
  {
    match t {
      case Domain(pattern) =>
        var d := new HostMatcher.DomainMatcher(pattern);
        matched := d.Match(host);
      case Exact(value) => matched := Lower(host) == Lower(value);
      case Cidr(contains) => matched := contains(host);
    }
  }

  /** The index of the first rule covering host, or -1. */
  method MatchRule(rules: seq<Rule>, host: string) returns (idx: int)
    ensures idx == -1 || 0 <= idx
    ensures idx == -1 ==> NoMatch(rules, host)
    ensures idx >= 0 ==> FirstMatch(rules, host, idx)
  {
    for i := 0 to |rules|
      invariant forall k :: 0 <= k < i ==> !RuleCovers(rules[k], host)
    {
      if |rules[i].matchers| == 0 {
        return i;
      }
      for j := 0 to |rules[i].matchers|
        invariant forall k :: 0 <= k < j ==> !Matches(rules[i].matchers[k], host)
      {
        var matched := MatchHost(rules[i].matchers[j], host);
        if matched {
          return i;
        }
      }
    }
    return -1;
  }

  class Resolver {
    const rules: seq<Rule>
    const caches: seq<Cache>
    ghost var answers: seq<Answer>

    ghost predicate Valid() {
      && |caches| == |rules|
      && (forall i :: 0 <= i < |caches| ==> caches[i].limits == rules[i].limits)
      && (forall i, j :: 0 <= i < j < |caches| ==> caches[i] != caches[j])
    }

    ghost function Contents(): (r: State)
      reads this, caches
      ensures |r.caches| == |caches|
    {
      State(seq(|caches|, i requires 0 <= i < |caches| reads caches => caches[i].m), answers)
    }

    /** The caches start empty, one for each rule, with the rule's limits. */
    constructor (rules: seq<Rule>)
      requires forall i :: 0 <= i < |rules| ==> rules[i].limits.maxEntries == DEFAULT_MAX_CACHE_ENTRIES
      ensures Valid() && this.rules == rules && fresh(caches)
      ensures Contents() == Start(|rules|)
    {
      var built: seq<Cache> := [];
      for i := 0 to |rules|
        invariant |built| == i && fresh(built)
        invariant forall k :: 0 <= k < i ==> built[k].limits == rules[k].limits && built[k].m == map[]
        invariant forall j, k :: 0 <= j < k < i ==> built[j] != built[k]
      {
        var l := rules[i].limits;
        var c := new Cache(l.minTTL, l.maxTTL, l.negativeTTL, DEFAULT_MAX_CACHE_ENTRIES);
        built := built + [c];
      }
      this.rules, caches, answers := rules, built, [];
    }

    method Resolve(host: string, literal: bool, env: Env) returns (out: Outcome)
      requires Valid()
      modifies caches, this`answers
      ensures ResolveStep(rules, old(Contents()), host, literal, env, Contents(), out)
    {
      if |rules| == 0 || literal {
        return UseHostname;
      }
      var idx := MatchRule(rules, host);
      if idx < 0 {
        return UseHostname;
      }
      assert !NoMatch(rules, host);
      out := ResolveByRule(idx, Lower(host), env);
    }

    method ResolveByRule(idx: nat, key: string, env: Env) returns (out: Outcome)
      requires Valid() && idx < |rules| && Lower(key) == key
      modifies caches[idx], this`answers
      ensures RuleStep(rules, old(Contents()), idx, key, env, Contents(), out)
    {
      ghost var before := Contents();
      var rule := rules[idx];
      var hit := caches[idx].Get(key, env.t0);
      if hit.Some? {
        if hit.value.negative {
          assert Contents().caches == before.caches;
          return OnFailure(rule);
        }
        var ip := PickIP(hit.value, rule.prefer);
        if ip.Some? {
          assert Contents().caches == before.caches;
          return UseIP(ip.value);
        }
      }
      assert Served(rules, before, idx, key, env.t0).None?;
      ghost var added;
      out, added := Lookup(idx, key, env);
      assert Contents().caches == before.caches[idx := caches[idx].m];
    }

    /** Asks the servers and stores what they say, negative results included. */
    method Lookup(idx: nat, key: string, env: Env) returns (out: Outcome, ghost added: seq<Answer>)
      requires Valid() && idx < |rules| && Lower(key) == key
      modifies caches[idx], this`answers
      ensures Looked(rules[idx], idx, old(caches[idx].m), key, env, caches[idx].m, added, out)
      ensures answers == old(answers) + added
    {
      var rule := rules[idx];
      var ips, ttl, found := [], rule.limits.minTTL, false;
      var family := IPv4;
      if rule.prefer.IPv6? {
        if env.aaaa.QueryFailed? {
          return OnFailure(rule), [];
        }
        if |env.aaaa.ips| > 0 {
          family, ips, ttl, found := IPv6, env.aaaa.ips, env.aaaa.minTTL, true;
        }
      }
      if !found {
        if env.a.QueryFailed? {
          return OnFailure(rule), [];
        }
        if |env.a.ips| > 0 {
          ips, ttl, found := env.a.ips, env.a.minTTL, true;
        }
      }
      if !found {
        caches[idx].PutNegative(key, env.t1, env.t2);
        return OnFailure(rule), [];
      }
      added := [Answer(idx, key, family, ips, ttl, env.t1)];
      out := Remember(idx, key, family, ips, ttl, env);
    }

    /** cache.Put of the family that answered. */
    method StoreAnswer(idx: nat, key: string, family: Family, ips: seq<Ip>, ttl: int, env: Env)
      requires Valid() && idx < |rules| && Lower(key) == key
      modifies caches[idx]
      ensures Stored(old(caches[idx].m), key, PositiveEntry(rules[idx], Answer(idx, key, family, ips, ttl, env.t1)),
                     env.t2, rules[idx].limits.maxEntries, caches[idx].m)
    {
      if family.IPv6? {
        caches[idx].Put(key, [], ips, ttl, env.t1, env.t2);
      } else {
        caches[idx].Put(key, ips, [], ttl, env.t1, env.t2);
      }
    }

    /** Stores an answer and picks from the entry read back, or from a substitute if it is gone already. */
    method Remember(idx: nat, key: string, family: Family, ips: seq<Ip>, ttl: int, env: Env) returns (out: Outcome)
      requires Valid() && idx < |rules| && Lower(key) == key && ips != []
      requires family.IPv6? ==> rules[idx].prefer.IPv6?
      modifies caches[idx], this`answers
      ensures var x := Answer(idx, key, family, ips, ttl, env.t1);
        && answers == old(answers) + [x] && out == UseIP(ips[0])
        && (exists c1 :: Stored(old(caches[idx].m), key, PositiveEntry(rules[idx], x), env.t2,
                                rules[idx].limits.maxEntries, c1)
                         && caches[idx].m == AfterGet(c1, key, env.t3))
    {
      answers := answers + [Answer(idx, key, family, ips, ttl, env.t1)];
      var rule, cache := rules[idx], caches[idx];
      ghost var c0 := cache.m;
      StoreAnswer(idx, key, family, ips, ttl, env);
      ghost var c1 := cache.m;
      var e := cache.Get(key, env.t3);
      StoredIsThere(c0, key, PositiveEntry(rule, Answer(idx, key, family, ips, ttl, env.t1)), env.t2,
                    rule.limits.maxEntries, c1);
      var usable := if e.Some? then e.value
                    else if family.IPv6? then Entry([], ips, 0, false) else Entry(ips, [], 0, false);
      var ip := PickIP(usable, rule.prefer);
      out := if ip.Some? then UseIP(ip.value) else OnFailure(rule);
    }

    method Invalidate(host: string)
      requires Valid()
      modifies caches
      ensures Contents() == InvalidateStep(old(Contents()), host)
    {
      for i := 0 to |caches|
        invariant forall k :: 0 <= k < |caches| ==>
                    caches[k].m == if k < i then old(caches[k].m) - {Lower(host)} else old(caches[k].m)
      {
        caches[i].Delete(host);
      }
    }
  }

  lemma StoredIsThere(c: Entries, key: string, e: Entry, now: int, maxEntries: nat, c': Entries)
    requires Stored(c, key, e, now, maxEntries, c')
    ensures key in c' && c'[key] == e
  {}

  datatype ConfigError = NoDialer(rule: nat) | NoServers(rule: nat)

  predicate Servable(dialers: seq<bool>, servers: seq<nat>, i: nat)
    requires i < |dialers| && i < |servers|
  {
    dialers[i] && servers[i] > 0
  }

  /** NewResolver: dialers says of each rule whether its route has a dialer, servers how many it lists. */
  method NewResolver(rules: seq<Rule>, dialers: seq<bool>, servers: seq<nat>)
    returns (r: Result<Resolver, ConfigError>)
    requires |dialers| == |servers| == |rules|
    requires forall i :: 0 <= i < |rules| ==> rules[i].limits.maxEntries == DEFAULT_MAX_CACHE_ENTRIES
    ensures r.Ok? <==> forall i :: 0 <= i < |rules| ==> Servable(dialers, servers, i)
    ensures r.Ok? ==> fresh(r.value) && r.value.Valid() && r.value.rules == rules
                      && r.value.Contents() == Start(|rules|)
    ensures r.Err? ==>
              && r.error.rule < |rules|
              && (forall i :: 0 <= i < r.error.rule ==> Servable(dialers, servers, i))
              && !Servable(dialers, servers, r.error.rule)
              && (r.error.NoDialer? <==> !dialers[r.error.rule])
  {
    for i := 0 to |rules|
      invariant forall k :: 0 <= k < i ==> Servable(dialers, servers, k)
    {
      assert Servable(dialers, servers, i) <==> dialers[i] && servers[i] > 0;
      if !dialers[i] {
        return Err(NoDialer(i));
      }
      if servers[i] == 0 {
        return Err(NoServers(i));
      }
    }
    var made := new Resolver(rules);
    return Ok(made);
  }
}
