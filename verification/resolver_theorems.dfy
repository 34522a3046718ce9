/** How stale a resolved address can be, and when the servers are asked. */
module DnsResolverTheorems {
  import opened Ascii
  import opened DnsCache
  import opened DnsResolver
  import HostMatcher

  datatype Event =
    | Resolve(host: string, literal: bool, env: Env, out: Outcome)
    | Invalidate(host: string)

  /** states[i] is the resolver before event i; events run one at a time. */
  ghost predicate Run(rules: seq<Rule>, events: seq<Event>, states: seq<State>) {
    && |states| == |events| + 1
    && (forall i :: 0 <= i < |states| ==> |states[i].caches| == |rules|)
    && states[0] == Start(|rules|)
    && (forall i {:trigger StepAt(rules, events, states, i)} ::
          0 <= i < |events| ==> StepAt(rules, events, states, i))
  }

  ghost predicate StepAt(rules: seq<Rule>, events: seq<Event>, states: seq<State>, i: nat)
    requires i < |events| && |states| == |events| + 1 && |states[i].caches| == |rules|
  {
    EventStep(rules, states[i], events[i], states[i + 1])
  }

  ghost predicate EventStep(rules: seq<Rule>, s: State, ev: Event, s': State)
    requires |s.caches| == |rules|
  {
    match ev
    case Resolve(host, literal, env, out) => ResolveStep(rules, s, host, literal, env, s', out)
    case Invalidate(host) => s' == InvalidateStep(s, host)
  }

  /** The j-th answer is where this entry came from, addresses and lifetime included. */
  ghost predicate Backs(rules: seq<Rule>, answers: seq<Answer>, i: nat, key: string, e: Entry, j: nat) {
    && i < |rules| && j < |answers|
    && answers[j].rule == i && answers[j].name == key && answers[j].ips != []
    && e == PositiveEntry(rules[i], answers[j])
  }

  /** A positive entry for key stems from an answer of the rule's own server for that very name, and one no
      older than since. */
  ghost predicate Backed(rules: seq<Rule>, i: nat, c: Entries, answers: seq<Answer>, key: string, since: nat) {
    key in c && !c[key].negative ==> exists j :: since <= j && Backs(rules, answers, i, key, c[key], j)
  }

  ghost predicate AllBacked(rules: seq<Rule>, s: State, key: string, since: nat) {
    && |s.caches| == |rules|
    && forall i :: 0 <= i < |rules| ==> Backed(rules, i, s.caches[i], s.answers, key, since)
  }

  lemma MoreAnswers(rules: seq<Rule>, i: nat, c: Entries, answers: seq<Answer>, more: seq<Answer>, key: string,
                    since: nat)
    requires Backed(rules, i, c, answers, key, since)
    ensures Backed(rules, i, c, answers + more, key, since)
  {
    if key in c && !c[key].negative {
      var j :| since <= j && Backs(rules, answers, i, key, c[key], j);
      assert Backs(rules, answers + more, i, key, c[key], j);
    }
  }

  /** A store adds one entry and otherwise only removes. */
  lemma StoredIncluded(c: Entries, key: string, e: Entry, now: int, maxEntries: nat, c': Entries)
    requires Stored(c, key, e, now, maxEntries, c')
    ensures key in c' && c'[key] == e
    ensures forall k :: k in c' && k != key ==> k in c && c'[k] == c[k]
  {
    var order :| InOrder(order, c) && c' == Store(c, key, e, now, maxEntries, order);
    forall k | k in c' && k != key ensures k in c && c'[k] == c[k] {
      if key !in c && |c| >= maxEntries { EvictSound(c, now, order, k); }
    }
  }

  /** A lookup of asked leaves every other name as it was, or drops it; what it leaves for asked is what was
      there before, negative, or the answer it got. */
  lemma LookedKeys(rules: seq<Rule>, idx: nat, c: Entries, asked: string, env: Env, c': Entries, more: seq<Answer>,
                   out: Outcome, key: string)
    requires idx < |rules| && Looked(rules[idx], idx, c, asked, env, c', more, out) && key in c'
    ensures key != asked ==> key in c && c'[key] == c[key]
    ensures key == asked ==>
              (key in c && c'[key] == c[key]) || c'[key].negative
              || (|more| == 1 && Backs(rules, more, idx, key, c'[key], 0))
  {
    match Ask(rules[idx], env)
    case LookupFailed =>
    case NotFound =>
      StoredIncluded(c, asked, NegativeEntry(rules[idx], env.t1), env.t2, rules[idx].limits.maxEntries, c');
    case Found(family, ips, ttl) =>
      var x := Answer(idx, asked, family, ips, ttl, env.t1);
      var c1 :| Stored(c, asked, PositiveEntry(rules[idx], x), env.t2, rules[idx].limits.maxEntries, c1)
                && c' == AfterGet(c1, asked, env.t3);
      StoredIncluded(c, asked, PositiveEntry(rules[idx], x), env.t2, rules[idx].limits.maxEntries, c1);
  }

  lemma LookedBacked(rules: seq<Rule>, idx: nat, c: Entries, asked: string, env: Env, c': Entries,
                     answers: seq<Answer>, more: seq<Answer>, out: Outcome, key: string, since: nat)
    requires idx < |rules| && Backed(rules, idx, c, answers, key, since) && since <= |answers|
    requires Looked(rules[idx], idx, c, asked, env, c', more, out)
    ensures Backed(rules, idx, c', answers + more, key, since)
  {
    MoreAnswers(rules, idx, c, answers, more, key, since);
    if key in c' && !c'[key].negative {
      LookedKeys(rules, idx, c, asked, env, c', more, out, key);
      if !(key in c && c'[key] == c[key]) {
        assert (answers + more)[|answers|] == more[0];
        assert Backs(rules, answers + more, idx, key, c'[key], |answers|);
      }
    }
  }

  lemma RuleStepBacked(rules: seq<Rule>, s: State, idx: nat, asked: string, env: Env, s': State, out: Outcome,
                       key: string, since: nat)
    requires AllBacked(rules, s, key, since) && since <= |s.answers|
    requires idx < |rules| && RuleStep(rules, s, idx, asked, env, s', out)
    ensures AllBacked(rules, s', key, since) && |s.answers| <= |s'.answers|
  {
    if Served(rules, s, idx, asked, env.t0).None? {
      var c := AfterGet(s.caches[idx], asked, env.t0);
      var c', more :|
        && Looked(rules[idx], idx, c, asked, env, c', more, out)
        && s' == State(s.caches[idx := c'], s.answers + more);
      assert Backed(rules, idx, s.caches[idx], s.answers, key, since);
      LookedBacked(rules, idx, c, asked, env, c', s.answers, more, out, key, since);
      forall i | 0 <= i < |rules| ensures Backed(rules, i, s'.caches[i], s'.answers, key, since) {
        if i != idx { MoreAnswers(rules, i, s.caches[i], s.answers, more, key, since); }
      }
    }
  }

  lemma StepBacked(rules: seq<Rule>, s: State, ev: Event, s': State, key: string, since: nat)
    requires AllBacked(rules, s, key, since) && since <= |s.answers| && EventStep(rules, s, ev, s')
    ensures AllBacked(rules, s', key, since) && |s.answers| <= |s'.answers|
  {
    match ev
    case Invalidate(host) =>
      assert forall i :: 0 <= i < |rules| ==> Backed(rules, i, s.caches[i], s.answers, key, since);
    case Resolve(host, literal, env, out) =>
      if !literal && !NoMatch(rules, host) {
        var idx :| FirstMatch(rules, host, idx) && RuleStep(rules, s, idx, Lower(host), env, s', out);
        RuleStepBacked(rules, s, idx, Lower(host), env, s', out, key, since);
      }
  }

  /** How many answers had come in when key was last invalidated before event i. */
  function LastInvalidated(events: seq<Event>, states: seq<State>, key: string, i: nat): nat
    requires i <= |events| && |states| == |events| + 1
  {
    if i == 0 then 0
    else if Invalidates(events[i - 1], key) then |states[i - 1].answers|
    else LastInvalidated(events, states, key, i - 1)
  }

  lemma RunStep(rules: seq<Rule>, events: seq<Event>, states: seq<State>, i: nat)
    requires Run(rules, events, states) && i < |events|
    ensures |states[i].caches| == |rules| && EventStep(rules, states[i], events[i], states[i + 1])
  {
    assert StepAt(rules, events, states, i);
  }

  predicate Invalidates(ev: Event, key: string) {
    ev.Invalidate? && Lower(ev.host) == key
  }

  lemma NextBacked(rules: seq<Rule>, s: State, ev: Event, s': State, key: string, since: nat)
    requires AllBacked(rules, s, key, since) && since <= |s.answers| && EventStep(rules, s, ev, s')
    ensures var since' := if Invalidates(ev, key) then |s.answers| else since;
      AllBacked(rules, s', key, since') && since' <= |s'.answers|
  {
    StepBacked(rules, s, ev, s', key, since);
    if Invalidates(ev, key) { InvalidatedIsAbsent(s, ev.host); }
  }

  lemma RunBackedNext(rules: seq<Rule>, events: seq<Event>, states: seq<State>, key: string, i: nat, since: nat)
    requires Run(rules, events, states) && i < |events|
    requires since <= |states[i].answers| && AllBacked(rules, states[i], key, since)
    ensures var since' := if Invalidates(events[i], key) then |states[i].answers| else since;
      AllBacked(rules, states[i + 1], key, since') && since' <= |states[i + 1].answers|
  {
    RunStep(rules, events, states, i);
    NextBacked(rules, states[i], events[i], states[i + 1], key, since);
  }

  lemma NothingToBack(rules: seq<Rule>, key: string)
    ensures AllBacked(rules, Start(|rules|), key, 0)
  {}

  /** Over every run, whatever a cache holds for a name came from an answer younger than that name's last
      invalidation. */
  lemma {:induction false} RunBacked(rules: seq<Rule>, events: seq<Event>, states: seq<State>, key: string, i: nat)
    requires Run(rules, events, states) && i <= |events|
    ensures LastInvalidated(events, states, key, i) <= |states[i].answers|
    ensures AllBacked(rules, states[i], key, LastInvalidated(events, states, key, i))
  {
    if i == 0 {
      NothingToBack(rules, key);
    } else {
      RunBacked(rules, events, states, key, i - 1);
      RunBackedNext(rules, events, states, key, i - 1, LastInvalidated(events, states, key, i - 1));
    }
  }

  /* ---------- staleness ---------- */

  /** The j-th answer justifies dialling ip for host at this call: it is the first address of an answer
      the first matching rule got for the lowercased name, since that name was last invalidated, and either
      in this very call (the answers before it number known) or so recently that the clamped TTL has not
      passed. */
  ghost predicate Justifies(rules: seq<Rule>, host: string, now: int, ip: Ip, answers: seq<Answer>, known: nat,
                            since: nat, j: nat)
  {
    && since <= j < |answers|
    && FirstMatch(rules, host, answers[j].rule)
    && answers[j].name == Lower(host)
    && answers[j].ips != [] && answers[j].ips[0] == ip
    && (j >= known || now < answers[j].at + ClampTTL(rules[answers[j].rule].limits, answers[j].ttl))
  }

  ghost predicate IsJustified(rules: seq<Rule>, host: string, now: int, ip: Ip, answers: seq<Answer>, known: nat,
                              since: nat)
  {
    exists j: nat :: Justifies(rules, host, now, ip, answers, known, since, j)
  }

  /** The staleness bound, over every run: by the TTL, and by the last Invalidate. */
  lemma ResolvedAddressIsJustified(rules: seq<Rule>, events: seq<Event>, states: seq<State>, i: nat)
    requires Run(rules, events, states) && i < |events|
    requires events[i].Resolve? && events[i].out.UseIP?
    ensures IsJustified(rules, events[i].host, events[i].env.t0, events[i].out.ip, states[i + 1].answers,
                        |states[i].answers|, LastInvalidated(events, states, Lower(events[i].host), i))
  {
    var s, s', ev := states[i], states[i + 1], events[i];
    var key := Lower(ev.host);
    var since := LastInvalidated(events, states, key, i);
    RunBacked(rules, events, states, key, i);
    RunStep(rules, events, states, i);
    var idx :| FirstMatch(rules, ev.host, idx) && RuleStep(rules, s, idx, key, ev.env, s', ev.out);
    var j := Justification(rules, s, idx, key, ev.env, s', ev.out, since);
    assert Justifies(rules, ev.host, ev.env.t0, ev.out.ip, s'.answers, |s.answers|, since, j);
  }

  lemma Justification(rules: seq<Rule>, s: State, idx: nat, key: string, env: Env, s': State, out: Outcome, since: nat)
    returns (j: nat)
    requires AllBacked(rules, s, key, since) && since <= |s.answers|
    requires idx < |rules| && RuleStep(rules, s, idx, key, env, s', out) && out.UseIP?
    ensures since <= j < |s'.answers|
    ensures var x := s'.answers[j];
      && x.rule == idx && x.name == key && x.ips != [] && x.ips[0] == out.ip
      && (j >= |s.answers| || env.t0 < x.at + ClampTTL(rules[idx].limits, x.ttl))
  {
    match Served(rules, s, idx, key, env.t0)
    case Some(e) =>
      assert Backed(rules, idx, s.caches[idx], s.answers, key, since);
      j :| since <= j && Backs(rules, s.answers, idx, key, e, j);
    case None =>
      var c', more :|
        && Looked(rules[idx], idx, AfterGet(s.caches[idx], key, env.t0), key, env, c', more, out)
        && s' == State(s.caches[idx := c'], s.answers + more);
      j := |s.answers|;
  }

  /* ---------- when the servers are asked ---------- */

  /** In every run, a live positive entry of the first matching rule always yields an address, so the call
      neither asks a server nor changes anything, whatever the servers would have said. */
  lemma PositiveHitNeverQueries(rules: seq<Rule>, events: seq<Event>, states: seq<State>, i: nat, idx: nat)
    requires Run(rules, events, states) && i < |events| && events[i].Resolve? && !events[i].literal
    requires FirstMatch(rules, events[i].host, idx)
    requires var hit := Hit(states[i].caches[idx], Lower(events[i].host), events[i].env.t0);
      hit.Some? && !hit.value.negative
    ensures events[i].out.UseIP? && states[i + 1] == states[i]
  {
    var s, ev := states[i], events[i];
    var key := Lower(ev.host);
    var since := LastInvalidated(events, states, key, i);
    RunBacked(rules, events, states, key, i);
    RunStep(rules, events, states, i);
    assert Backed(rules, idx, s.caches[idx], s.answers, key, since);
    var j :| since <= j && Backs(rules, s.answers, idx, key, s.caches[idx][key], j);
    assert !NoMatch(rules, ev.host);
    var idx' :| FirstMatch(rules, ev.host, idx') && RuleStep(rules, s, idx', key, ev.env, states[i + 1], ev.out);
    FirstMatchUnique(rules, ev.host, idx, idx');
  }

  lemma FirstMatchUnique(rules: seq<Rule>, host: string, i: nat, j: nat)
    requires FirstMatch(rules, host, i) && FirstMatch(rules, host, j)
    ensures i == j
  {}

  ghost predicate Absent(s: State, key: string) {
    forall i :: 0 <= i < |s.caches| ==> key !in s.caches[i]
  }

  lemma InvalidatedIsAbsent(s: State, host: string)
    ensures Absent(InvalidateStep(s, host), Lower(host))
  {}

  predicate Asks(ev: Event, key: string) {
    ev.Resolve? && Lower(ev.host) == key
  }

  /** Only a call for the name itself puts it back into a cache. */
  lemma StepKeepsAbsent(rules: seq<Rule>, s: State, ev: Event, s': State, key: string)
    requires |s.caches| == |rules| && EventStep(rules, s, ev, s') && Absent(s, key) && !Asks(ev, key)
    ensures Absent(s', key)
  {
    if ev.Resolve? && !ev.literal && !NoMatch(rules, ev.host) {
      var asked := Lower(ev.host);
      var idx: nat :| FirstMatch(rules, ev.host, idx) && RuleStep(rules, s, idx, asked, ev.env, s', ev.out);
      if Served(rules, s, idx, asked, ev.env.t0).None? {
        var c := AfterGet(s.caches[idx], asked, ev.env.t0);
        var c', more :|
          && Looked(rules[idx], idx, c, asked, ev.env, c', more, ev.out)
          && s' == State(s.caches[idx := c'], s.answers + more);
        assert key !in s.caches[idx];
        if key in c' { LookedKeys(rules, idx, c, asked, ev.env, c', more, ev.out, key); }
      }
    }
  }

  /** No call for key from event i up to event j. */
  ghost predicate Unasked(events: seq<Event>, i: nat, j: nat, key: string) {
    forall k {:trigger events[k]} :: i <= k < j <= |events| ==> !Asks(events[k], key)
  }

  lemma {:induction false} StaysAbsent(rules: seq<Rule>, events: seq<Event>, states: seq<State>, i: nat, j: nat,
                                       key: string)
    requires Run(rules, events, states) && i <= j <= |events|
    requires Absent(states[i], key) && Unasked(events, i, j, key)
    ensures Absent(states[j], key)
    decreases j
  {
    if i < j {
      StaysAbsent(rules, events, states, i, j - 1, key);
      RunStep(rules, events, states, j - 1);
      StepKeepsAbsent(rules, states[j - 1], events[j - 1], states[j], key);
    }
  }

  lemma InvalidatedInRun(rules: seq<Rule>, events: seq<Event>, states: seq<State>, i: nat, key: string)
    requires Run(rules, events, states) && i < |events| && Invalidates(events[i], key)
    ensures Absent(states[i + 1], key)
  {
    RunStep(rules, events, states, i);
    InvalidatedIsAbsent(states[i], events[i].host);
  }

  /** With the name in no cache, a call is decided by the servers alone. */
  lemma AbsentForcesQuery(rules: seq<Rule>, s: State, host: string, env: Env, s': State, out: Outcome, idx: nat)
    requires |s.caches| == |rules| && Absent(s, Lower(host)) && FirstMatch(rules, host, idx)
    requires ResolveStep(rules, s, host, false, env, s', out)
    ensures Decides(rules, idx, Lower(host), env, s.answers, s'.answers, out)
  {
    assert !NoMatch(rules, host);
    var idx' :| FirstMatch(rules, host, idx') && RuleStep(rules, s, idx', Lower(host), env, s', out);
    FirstMatchUnique(rules, host, idx, idx');
    MissDecides(rules, s, idx, Lower(host), env, s', out);
  }

  /** AAAA is asked only when IPv6 is preferred, and then its answer is used. */
  predicate AnsweredByAAAA(rule: Rule, env: Env) {
    rule.prefer.IPv6? && env.aaaa.Response? && env.aaaa.ips != []
  }

  /** A is asked when IPv4 is preferred or AAAA came back empty. */
  predicate AsksA(rule: Rule, env: Env) {
    rule.prefer.IPv4? || (env.aaaa.Response? && env.aaaa.ips == [])
  }

  predicate AnsweredByA(rule: Rule, env: Env) {
    AsksA(rule, env) && env.a.Response? && env.a.ips != []
  }

  /** Every query asked came back empty. */
  predicate NothingFound(rule: Rule, env: Env) {
    AsksA(rule, env) && env.a.Response? && env.a.ips == []
  }

  /** A query that was asked failed. */
  predicate QueryFails(rule: Rule, env: Env) {
    (rule.prefer.IPv6? && env.aaaa.QueryFailed?) || (AsksA(rule, env) && env.a.QueryFailed?)
  }

  /** The outcome is the first address the servers give in this call, and otherwise the failure policy. */
  ghost predicate Decides(rules: seq<Rule>, idx: nat, key: string, env: Env, before: seq<Answer>, after: seq<Answer>,
                          out: Outcome)
    requires idx < |rules|
  {
    var rule := rules[idx];
    && (AnsweredByAAAA(rule, env) ==>
          && out == UseIP(env.aaaa.ips[0])
          && after == before + [Answer(idx, key, IPv6, env.aaaa.ips, env.aaaa.minTTL, env.t1)])
    && (AnsweredByA(rule, env) ==>
          && out == UseIP(env.a.ips[0])
          && after == before + [Answer(idx, key, IPv4, env.a.ips, env.a.minTTL, env.t1)])
    && (QueryFails(rule, env) || NothingFound(rule, env) ==>
          out == (if rule.failHard then ResolveError else UseHostname) && after == before)
  }

  /** These are all the cases, and they exclude each other. */
  lemma OneOfFour(rule: Rule, env: Env)
    ensures AnsweredByAAAA(rule, env) <==>
              !AnsweredByA(rule, env) && !QueryFails(rule, env) && !NothingFound(rule, env)
    ensures !(AnsweredByA(rule, env) && QueryFails(rule, env))
    ensures !(NothingFound(rule, env) && (AnsweredByA(rule, env) || QueryFails(rule, env)))
  {}

  /** What the rule's cache c holds for key afterwards. */
  ghost predicate Remembers(rule: Rule, env: Env, c: Entries, key: string, c': Entries) {
    && (AnsweredByAAAA(rule, env) ==>
          forall life :: LivesFor(rule.limits, env.aaaa.minTTL, life) && env.t3 < env.t1 + life ==>
            key in c' && c'[key] == Entry([], env.aaaa.ips, env.t1 + life, false))
    && (AnsweredByA(rule, env) ==>
          forall life :: LivesFor(rule.limits, env.a.minTTL, life) && env.t3 < env.t1 + life ==>
            key in c' && c'[key] == Entry(env.a.ips, [], env.t1 + life, false))
    && (NothingFound(rule, env) ==> key in c' && c'[key] == Entry([], [], env.t1 + rule.limits.negativeTTL, true))
    && (QueryFails(rule, env) ==> c' == c - {key})
  }

  lemma LookedDecides(rules: seq<Rule>, idx: nat, c: Entries, key: string, env: Env, c': Entries,
                      before: seq<Answer>, more: seq<Answer>, out: Outcome)
    requires idx < |rules| && Looked(rules[idx], idx, c, key, env, c', more, out)
    ensures Decides(rules, idx, key, env, before, before + more, out)
  {
    OneOfFour(rules[idx], env);
    assert before + [] == before;
  }

  lemma FoundRemembers(rule: Rule, c: Entries, key: string, x: Answer, env: Env, c1: Entries, life: int)
    requires Stored(c, key, PositiveEntry(rule, x), env.t2, rule.limits.maxEntries, c1)
    requires LivesFor(rule.limits, x.ttl, life) && env.t3 < x.at + life
    ensures var c' := AfterGet(c1, key, env.t3);
      key in c' && c'[key] == if x.family.IPv6? then Entry([], x.ips, x.at + life, false)
                              else Entry(x.ips, [], x.at + life, false)
  {
    StoredIncluded(c, key, PositiveEntry(rule, x), env.t2, rule.limits.maxEntries, c1);
  }

  lemma EmptyRemembers(rule: Rule, idx: nat, c: Entries, key: string, env: Env, c': Entries, more: seq<Answer>,
                       out: Outcome)
    requires key !in c && Looked(rule, idx, c, key, env, c', more, out)
    ensures NothingFound(rule, env) ==> key in c' && c'[key] == Entry([], [], env.t1 + rule.limits.negativeTTL, true)
    ensures QueryFails(rule, env) ==> c' == c - {key}
  {
    if NothingFound(rule, env) {
      StoredIncluded(c, key, NegativeEntry(rule, env.t1), env.t2, rule.limits.maxEntries, c');
    } else if QueryFails(rule, env) {
      assert c == c - {key};
    }
  }

  lemma AAAARemembers(rule: Rule, idx: nat, c: Entries, key: string, env: Env, c': Entries, more: seq<Answer>,
                      out: Outcome, life: int)
    requires AnsweredByAAAA(rule, env) && Looked(rule, idx, c, key, env, c', more, out)
    requires LivesFor(rule.limits, env.aaaa.minTTL, life) && env.t3 < env.t1 + life
    ensures key in c' && c'[key] == Entry([], env.aaaa.ips, env.t1 + life, false)
  {
    var x := Answer(idx, key, IPv6, env.aaaa.ips, env.aaaa.minTTL, env.t1);
    var c1 :| Stored(c, key, PositiveEntry(rule, x), env.t2, rule.limits.maxEntries, c1)
              && c' == AfterGet(c1, key, env.t3);
    FoundRemembers(rule, c, key, x, env, c1, life);
  }

  lemma ARemembers(rule: Rule, idx: nat, c: Entries, key: string, env: Env, c': Entries, more: seq<Answer>,
                   out: Outcome, life: int)
    requires AnsweredByA(rule, env) && Looked(rule, idx, c, key, env, c', more, out)
    requires LivesFor(rule.limits, env.a.minTTL, life) && env.t3 < env.t1 + life
    ensures key in c' && c'[key] == Entry(env.a.ips, [], env.t1 + life, false)
  {
    var x := Answer(idx, key, IPv4, env.a.ips, env.a.minTTL, env.t1);
    var c1 :| Stored(c, key, PositiveEntry(rule, x), env.t2, rule.limits.maxEntries, c1)
              && c' == AfterGet(c1, key, env.t3);
    FoundRemembers(rule, c, key, x, env, c1, life);
  }

  lemma LookedRemembers(rule: Rule, idx: nat, c: Entries, key: string, env: Env, c': Entries, more: seq<Answer>,
                        out: Outcome)
    requires key !in c && Looked(rule, idx, c, key, env, c', more, out)
    ensures Remembers(rule, env, c, key, c')
  {
    EmptyRemembers(rule, idx, c, key, env, c', more, out);
    if AnsweredByAAAA(rule, env) {
      forall life | LivesFor(rule.limits, env.aaaa.minTTL, life) && env.t3 < env.t1 + life
        ensures key in c' && c'[key] == Entry([], env.aaaa.ips, env.t1 + life, false)
      {
        AAAARemembers(rule, idx, c, key, env, c', more, out, life);
      }
    } else if AnsweredByA(rule, env) {
      forall life | LivesFor(rule.limits, env.a.minTTL, life) && env.t3 < env.t1 + life
        ensures key in c' && c'[key] == Entry(env.a.ips, [], env.t1 + life, false)
      {
        ARemembers(rule, idx, c, key, env, c', more, out, life);
      }
    }
  }

  lemma RuleStepOf(rules: seq<Rule>, events: seq<Event>, states: seq<State>, i: nat, idx: nat)
    requires Run(rules, events, states) && i < |events| && events[i].Resolve? && !events[i].literal
    requires FirstMatch(rules, events[i].host, idx)
    ensures |states[i].caches| == |rules| && idx < |rules|
    ensures RuleStep(rules, states[i], idx, Lower(events[i].host), events[i].env, states[i + 1], events[i].out)
  {
    RunStep(rules, events, states, i);
    assert !NoMatch(rules, events[i].host);
    var ev := events[i];
    var idx' :| FirstMatch(rules, ev.host, idx')
                && RuleStep(rules, states[i], idx', Lower(ev.host), ev.env, states[i + 1], ev.out);
    FirstMatchUnique(rules, ev.host, idx, idx');
  }

  lemma MissDecides(rules: seq<Rule>, s: State, idx: nat, key: string, env: Env, s': State, out: Outcome)
    requires |s.caches| == |rules| && idx < |rules| && RuleStep(rules, s, idx, key, env, s', out)
    requires Hit(s.caches[idx], key, env.t0).None?
    ensures Decides(rules, idx, key, env, s.answers, s'.answers, out)
    ensures |s'.caches| == |rules| && Remembers(rules[idx], env, s.caches[idx], key, s'.caches[idx])
    ensures forall k :: 0 <= k < |rules| && k != idx ==> s'.caches[k] == s.caches[k]
  {
    var c := AfterGet(s.caches[idx], key, env.t0);
    var c', more :| Looked(rules[idx], idx, c, key, env, c', more, out)
                    && s' == State(s.caches[idx := c'], s.answers + more);
    LookedDecides(rules, idx, c, key, env, c', s.answers, more, out);
    LookedRemembers(rules[idx], idx, c, key, env, c', more, out);
    assert c - {key} == s.caches[idx] - {key};
  }

  /** In every run, a call that finds no live entry is decided by the servers' answers, read off them directly:
      AAAA's first address if IPv6 is preferred and it has one; A's exactly if IPv4 is preferred or AAAA came back
      empty; the failure policy exactly if a query that was asked failed or all came back empty. The cache of that
      rule remembers the answer for its own lifetime, or that there was none, and no other cache changes. */
  lemma MissIsDecidedByTheServers(rules: seq<Rule>, events: seq<Event>, states: seq<State>, i: nat, idx: nat)
    requires Run(rules, events, states) && i < |events| && events[i].Resolve? && !events[i].literal
    requires FirstMatch(rules, events[i].host, idx)
    requires Hit(states[i].caches[idx], Lower(events[i].host), events[i].env.t0).None?
    ensures var ev, s, s' := events[i], states[i], states[i + 1];
      && Decides(rules, idx, Lower(ev.host), ev.env, s.answers, s'.answers, ev.out)
      && |s'.caches| == |rules| && Remembers(rules[idx], ev.env, s.caches[idx], Lower(ev.host), s'.caches[idx])
      && (forall k :: 0 <= k < |rules| && k != idx ==> s'.caches[k] == s.caches[k])
  {
    RuleStepOf(rules, events, states, i, idx);
    MissDecides(rules, states[i], idx, Lower(events[i].host), events[i].env, states[i + 1], events[i].out);
  }

  /** A live negative entry ends the call with the failure policy: no server is asked and nothing changes. */
  lemma NegativeHitNeverQueries(rules: seq<Rule>, events: seq<Event>, states: seq<State>, i: nat, idx: nat)
    requires Run(rules, events, states) && i < |events| && events[i].Resolve? && !events[i].literal
    requires FirstMatch(rules, events[i].host, idx)
    requires var hit := Hit(states[i].caches[idx], Lower(events[i].host), events[i].env.t0);
      hit.Some? && hit.value.negative
    ensures events[i].out == (if rules[idx].failHard then ResolveError else UseHostname)
    ensures states[i + 1] == states[i]
  {
    RuleStepOf(rules, events, states, i, idx);
  }

  /** An exact host is a domain pattern without an asterisk, whatever the case of either; a network decides for
      itself. */
  lemma ExactIsPlainDomain(value: string, host: string, contains: string -> bool)
    requires '*' !in value
    ensures Matches(Exact(value), host) <==> Matches(Domain(value), host)
    ensures Matches(Exact(value), host) <==> Matches(Exact(Lower(value)), Lower(host))
    ensures Matches(Cidr(contains), host) <==> contains(host)
  {
    LowerIdempotent(value);
    LowerIdempotent(host);
    if value == "" {
      HostMatcher.GlobIsItsMeaning(Lower(value), Lower(host));
    } else {
      assert value[0] != '*';
    }
  }

  /** A rule of several matchers covers what any of them covers, and one of none covers everything. */
  lemma CoversPartByPart(rule: Rule, ts: seq<Matcher>, t: Matcher, host: string)
    ensures RuleCovers(rule.(matchers := []), host)
    ensures RuleCovers(rule.(matchers := ts + [t]), host)
            <==> Matches(t, host) || (ts != [] && RuleCovers(rule.(matchers := ts), host))
  {
    var both := ts + [t];
    if Matches(t, host) { assert Matches(both[|ts|], host); }
    if ts != [] && RuleCovers(rule.(matchers := ts), host) {
      var i :| 0 <= i < |ts| && Matches(ts[i], host);
      assert Matches(both[i], host);
    }
  }

  /** In every run, after Invalidate the next call for any spelling of that name is decided by the servers,
      whatever happens to other names in between. */
  lemma InvalidateForcesQuery(rules: seq<Rule>, events: seq<Event>, states: seq<State>, i: nat, j: nat, idx: nat)
    requires Run(rules, events, states) && i < j < |events|
    requires events[j].Resolve? && !events[j].literal && FirstMatch(rules, events[j].host, idx)
    requires Invalidates(events[i], Lower(events[j].host)) && Unasked(events, i + 1, j, Lower(events[j].host))
    ensures Decides(rules, idx, Lower(events[j].host), events[j].env, states[j].answers, states[j + 1].answers,
                    events[j].out)
  {
    InvalidatedInRun(rules, events, states, i, Lower(events[j].host));
    StaysAbsent(rules, events, states, i + 1, j, Lower(events[j].host));
    RunStep(rules, events, states, j);
    AbsentForcesQuery(rules, states[j], events[j].host, events[j].env, states[j + 1], events[j].out, idx);
  }
}
