/** The bounded TTL cache of internal/dns/cache.go, against an unbounded TTL map. Times are nanoseconds. */
module DnsCache {
  import opened Wrappers
  import opened Octets
  import opened Ascii

  const DEFAULT_MAX_CACHE_ENTRIES: nat := 1024

  type Ip = Bytes

  datatype Entry = Entry(ipv4: seq<Ip>, ipv6: seq<Ip>, expiresAt: int, negative: bool)

  type Entries = map<string, Entry>

  predicate Live(e: Entry, now: int) {
    now < e.expiresAt
  }

  datatype Limits = Limits(minTTL: int, maxTTL: int, negativeTTL: int, maxEntries: nat)

  /** life is the lifetime of an answer with this TTL: the TTL itself within the bounds, the bound it passes
      otherwise. An upper bound of zero or less is none. */
  predicate LivesFor(l: Limits, ttl: int, life: int) {
    && (l.minTTL <= ttl && (l.maxTTL <= 0 || ttl <= l.maxTTL) ==> life == ttl)
    && (ttl < l.minTTL ==> life == l.minTTL)
    && (l.minTTL <= ttl && 0 < l.maxTTL < ttl ==> life == l.maxTTL)
  }

  function ClampTTL(l: Limits, ttl: int): (r: int)
    ensures LivesFor(l, ttl, r)
    ensures l.minTTL <= l.maxTTL ==> l.minTTL <= r && (l.maxTTL > 0 ==> r <= l.maxTTL)
  {
    if ttl < l.minTTL then l.minTTL else if l.maxTTL > 0 && ttl > l.maxTTL then l.maxTTL else ttl
  }

  /* ---------- the steps ---------- */

  function Hit(m: Entries, key: string, now: int): Option<Entry> {
    if key in m && Live(m[key], now) then Some(m[key]) else None
  }

  /** A stale entry found by Get is dropped. */
  function AfterGet(m: Entries, key: string, now: int): Entries {
    if key in m && !Live(m[key], now) then m - {key} else m
  }

  function Expired(m: Entries, now: int): set<string> {
    set k | k in m && !Live(m[k], now)
  }

  /** The scan for the entry expiring soonest, over one order of iteration. The empty string doubles as
      "none yet", so a candidate of that name is given up for whatever comes next. */
  function Scan(m: Entries, order: seq<string>): (string, int)
    requires forall k <- order :: k in m
  {
    if order == [] then ("", 0)
    else
      var k := order[|order| - 1];
      var (oldestKey, oldestAt) := Scan(m, order[..|order| - 1]);
      if oldestKey == "" || m[k].expiresAt < oldestAt then (k, m[k].expiresAt) else (oldestKey, oldestAt)
  }

  /** order lists each key of m once: one of the orders a map may be ranged over in. */
  ghost predicate InOrder(order: seq<string>, m: Entries) {
    && (forall k :: k in order <==> k in m)
    && (forall i, j :: 0 <= i < j < |order| ==> order[i] != order[j])
  }

  function Evict(m: Entries, now: int, order: seq<string>): Entries
    requires forall k <- order :: k in m
  {
    if Expired(m, now) != {} then m - Expired(m, now)
    else if Scan(m, order).0 != "" then m - {Scan(m, order).0}
    else m
  }

  function Store(m: Entries, key: string, e: Entry, now: int, maxEntries: nat, order: seq<string>): Entries
    requires forall k <- order :: k in m
  {
    (if key !in m && |m| >= maxEntries then Evict(m, now, order) else m)[key := e]
  }

  /** A store under some order of iteration. */
  ghost predicate Stored(m: Entries, key: string, e: Entry, now: int, maxEntries: nat, m': Entries) {
    exists order :: InOrder(order, m) && m' == Store(m, key, e, now, maxEntries, order)
  }

  /* ---------- the object ---------- */

  class Cache {
    var m: Entries
    const limits: Limits

    constructor (minTTL: int, maxTTL: int, negativeTTL: int, maxEntries: int)
      ensures m == map[]
      ensures limits == Limits(minTTL, maxTTL, negativeTTL,
                               if maxEntries <= 0 then DEFAULT_MAX_CACHE_ENTRIES else maxEntries)
    {
      m := map[];
      limits := Limits(minTTL, maxTTL, negativeTTL,
                       if maxEntries <= 0 then DEFAULT_MAX_CACHE_ENTRIES else maxEntries);
    }

    method Get(host: string, now: int) returns (r: Option<Entry>)
      modifies this
      ensures r == Hit(old(m), Lower(host), now)
      ensures m == AfterGet(old(m), Lower(host), now)
      ensures r.Some? <==> Lower(host) in old(m) && now < old(m)[Lower(host)].expiresAt
      ensures m == if r.Some? then old(m) else old(m) - {Lower(host)}
    {
      var key := Lower(host);
      if key !in m {
        return None;
      }
      var e := m[key];
      if !Live(e, now) {
        m := m - {key};
        return None;
      }
      return Some(e);
    }

    method Put(host: string, ipv4: seq<Ip>, ipv6: seq<Ip>, ttl: int, now: int, evictNow: int)
      modifies this
      ensures Stored(old(m), Lower(host), Entry(ipv4, ipv6, now + ClampTTL(limits, ttl), false), evictNow,
                     limits.maxEntries, m)
      ensures forall life :: LivesFor(limits, ttl, life) ==>
                Lower(host) in m && m[Lower(host)] == Entry(ipv4, ipv6, now + life, false)
    {
      StoreEntry(Lower(host), Entry(ipv4, ipv6, now + ClampTTL(limits, ttl), false), evictNow);
    }

    method PutNegative(host: string, now: int, evictNow: int)
      modifies this
      ensures Stored(old(m), Lower(host), Entry([], [], now + limits.negativeTTL, true), evictNow,
                     limits.maxEntries, m)
      ensures Lower(host) in m && m[Lower(host)] == Entry([], [], now + limits.negativeTTL, true)
    {
      StoreEntry(Lower(host), Entry([], [], now + limits.negativeTTL, true), evictNow);
    }

    method Delete(host: string)
      modifies this
      ensures m == old(m) - {Lower(host)}
    {
      m := m - {Lower(host)};
    }

    method StoreEntry(key: string, e: Entry, now: int)
      modifies this
      ensures Stored(old(m), key, e, now, limits.maxEntries, m)
    {
      ghost var order := SomeOrder(m);
      if key !in m && |m| >= limits.maxEntries {
        order := EvictLocked(now);
      }
      m := m[key := e];
      assert m == Store(old(m), key, e, now, limits.maxEntries, order);
    }

    /** Two passes over the map, each in whatever order it comes; order records that of the second. */
    method EvictLocked(now: int) returns (ghost order: seq<string>)
      modifies this
      ensures InOrder(order, old(m)) && m == Evict(old(m), now, order)
    {
      order := SomeOrder(m);
      var evicted := DropExpired(now);
      if evicted {
        return;
      }
      assert m == old(m);
      order := DropOldest();
    }

    method DropExpired(now: int) returns (evicted: bool)
      modifies this
      ensures m == old(m) - Expired(old(m), now)
      ensures evicted <==> Expired(old(m), now) != {}
    {
      evicted := false;
      ghost var was, first := m, "";
      var keys := m.Keys;
      while keys != {}
        invariant keys <= m.Keys
        invariant forall k :: k in m <==> k in was && (k in keys || Live(was[k], now))
        invariant forall k :: k in m ==> m[k] == was[k]
        invariant if evicted then first in was && !Live(was[first], now) else m == was
        decreases |keys|
      {
        var k :| k in keys;
        keys := keys - {k};
        if !Live(m[k], now) {
          m := m - {k};
          evicted, first := true, k;
        }
      }
      if evicted { assert first in Expired(was, now); }
    }

    method DropOldest() returns (ghost order: seq<string>)
      modifies this
      ensures InOrder(order, old(m))
      ensures m == if Scan(old(m), order).0 != "" then old(m) - {Scan(old(m), order).0} else old(m)
    {
      order := [];
      var oldestKey, oldestAt := "", 0;
      var keys := m.Keys;
      while keys != {}
        invariant m == old(m) && keys <= m.Keys
        invariant forall k :: k in order <==> k in m && k !in keys
        invariant forall i, j :: 0 <= i < j < |order| ==> order[i] != order[j]
        invariant (oldestKey, oldestAt) == Scan(m, order)
        decreases |keys|
      {
        var k :| k in keys;
        keys := keys - {k};
        ghost var before := order;
        order := order + [k];
        assert order[..|order| - 1] == before;
        if oldestKey == "" || m[k].expiresAt < oldestAt {
          oldestKey, oldestAt := k, m[k].expiresAt;
        }
      }
      if oldestKey != "" {
        m := m - {oldestKey};
      }
    }
  }

  lemma Enumerate(s: set<string>) returns (order: seq<string>)
    ensures forall k :: k in order <==> k in s
    ensures forall i, j :: 0 <= i < j < |order| ==> order[i] != order[j]
    decreases |s|
  {
    order := [];
    if s != {} {
      var k :| k in s;
      var rest := Enumerate(s - {k});
      order := [k] + rest;
    }
  }

  lemma SomeOrder(m: Entries) returns (order: seq<string>)
    ensures InOrder(order, m)
  {
    order := Enumerate(m.Keys);
  }

  /* ---------- the choice of victim, and the capacity ---------- */

  /** Without the sentinel's name among the keys, the scan finds the soonest to expire. */
  lemma {:induction false} ScanIsMinimum(m: Entries, order: seq<string>)
    requires order != [] && (forall k <- order :: k in m) && "" !in order
    ensures var (k, at) := Scan(m, order); k in order && at == m[k].expiresAt
    ensures forall x <- order :: Scan(m, order).1 <= m[x].expiresAt
    decreases |order|
  {
    var before := order[..|order| - 1];
    if before != [] {
      ScanIsMinimum(m, before);
      forall x | x in order ensures Scan(m, order).1 <= m[x].expiresAt {
        assert x in before || x == order[|order| - 1];
      }
    }
  }

  /** Every order of iteration gives up some entry exactly when the empty name is absent, or some other
      entry expires no later than it. */
  ghost predicate SentinelHarmless(m: Entries) {
    "" !in m || exists k :: k in m && k != "" && m[k].expiresAt <= m[""].expiresAt
  }

  lemma ScanFindsVictim(m: Entries, order: seq<string>)
    requires InOrder(order, m) && m != map[] && SentinelHarmless(m)
    ensures Scan(m, order).0 != "" && Scan(m, order).0 in m
  {
    assert order != [] by { var k :| k in m; assert k in order; }
    var before, last := order[..|order| - 1], order[|order| - 1];
    if "" !in order {
      ScanIsMinimum(m, order);
    } else if last == "" {
      var k :| k in m && k != "" && m[k].expiresAt <= m[""].expiresAt;
      assert k in before by { assert k in order; }
      ScanIsMinimum(m, before);
    } else {
      ScanFromMap(m, before);
    }
  }

  lemma {:induction false} ScanFromMap(m: Entries, order: seq<string>)
    requires forall k <- order :: k in m
    ensures Scan(m, order).0 == "" || Scan(m, order).0 in order
    decreases |order|
  {
    if order != [] { ScanFromMap(m, order[..|order| - 1]); }
  }

  /** An order that visits the empty name last. */
  lemma SentinelLast(m: Entries) returns (order: seq<string>)
    requires "" in m && !SentinelHarmless(m)
    ensures InOrder(order, m) && Scan(m, order).0 == ""
  {
    var rest := Enumerate(m.Keys - {""});
    order := rest + [""];
    assert order[..|order| - 1] == rest;
    if rest != [] {
      ScanIsMinimum(m, rest);
    }
  }

  /** The size a map may have after a store that does not let it grow beyond its limit. */
  function Bound(m: Entries, maxEntries: nat): nat {
    if |m| > maxEntries then |m| else maxEntries
  }

  /** A store lets no map grow beyond its limit, nor a map already beyond it any further, for every order of
      iteration, exactly when the key is known, there is room, something has expired, or the sentinel does no
      harm. */
  lemma CapacityIff(m: Entries, key: string, e: Entry, now: int, maxEntries: nat)
    requires maxEntries > 0
    ensures (forall m' :: Stored(m, key, e, now, maxEntries, m') ==> |m'| <= Bound(m, maxEntries))
            <==> (key in m || |m| < maxEntries || Expired(m, now) != {} || SentinelHarmless(m))
  {
    if key in m || |m| < maxEntries || Expired(m, now) != {} || SentinelHarmless(m) {
      forall m' | Stored(m, key, e, now, maxEntries, m') ensures |m'| <= Bound(m, maxEntries) {
        var order :| InOrder(order, m) && m' == Store(m, key, e, now, maxEntries, order);
        StoreFits(m, key, e, now, maxEntries, order);
      }
    } else {
      var m' := StoreGrows(m, key, e, now, maxEntries);
    }
  }

  /** The other case: some order of iteration evicts nothing. */
  lemma StoreGrows(m: Entries, key: string, e: Entry, now: int, maxEntries: nat) returns (m': Entries)
    requires key !in m && Expired(m, now) == {} && !SentinelHarmless(m)
    ensures Stored(m, key, e, now, maxEntries, m') && m' == m[key := e] && |m'| == |m| + 1
  {
    var order := SentinelLast(m);
    m' := Store(m, key, e, now, maxEntries, order);
    assert m'.Keys == m.Keys + {key};
  }

  lemma EvictShrinks(m: Entries, now: int, order: seq<string>)
    requires InOrder(order, m) && m != map[] && (Expired(m, now) != {} || SentinelHarmless(m))
    ensures |Evict(m, now, order)| < |m|
  {
    var gone := Expired(m, now);
    if gone == {} {
      ScanFindsVictim(m, order);
      gone := {Scan(m, order).0};
    }
    assert Evict(m, now, order) == m - gone;
    Smaller(m, gone);
  }

  lemma Smaller(m: Entries, gone: set<string>)
    requires gone <= m.Keys && gone != {}
    ensures |m - gone| < |m|
  {
    assert (m - gone).Keys == m.Keys - gone;
    assert |m.Keys - gone| == |m.Keys| - |gone|;
  }

  lemma Larger(m: Entries, key: string, e: Entry)
    ensures |m[key := e]| <= |m| + 1 && (key in m ==> |m[key := e]| == |m|)
  {
    assert m[key := e].Keys == m.Keys + {key};
    assert key in m ==> m.Keys + {key} == m.Keys;
  }

  lemma StoreFits(m: Entries, key: string, e: Entry, now: int, maxEntries: nat, order: seq<string>)
    requires maxEntries > 0 && InOrder(order, m)
    requires key in m || |m| < maxEntries || Expired(m, now) != {} || SentinelHarmless(m)
    ensures |Store(m, key, e, now, maxEntries, order)| <= Bound(m, maxEntries)
  {
    if key !in m && |m| >= maxEntries {
      EvictShrinks(m, now, order);
      Larger(Evict(m, now, order), key, e);
    } else {
      Larger(m, key, e);
    }
  }

  /** A live entry is given up only under a full map with nothing expired, and then it expires no later
      than any entry that stays. */
  lemma LiveVictim(m: Entries, key: string, e: Entry, now: int, maxEntries: nat, m': Entries, k: string)
    requires Stored(m, key, e, now, maxEntries, m') && "" !in m
    requires k in m && k !in m' && Live(m[k], now)
    ensures key !in m && |m| >= maxEntries && Expired(m, now) == {}
    ensures m'.Keys == m.Keys - {k} + {key}
    ensures forall x :: x in m && x in m' ==> m[k].expiresAt <= m[x].expiresAt
  {
    var order :| InOrder(order, m) && m' == Store(m, key, e, now, maxEntries, order);
    assert k in order;
    ScanIsMinimum(m, order);
  }

  /* ---------- histories, and the unbounded map ---------- */

  datatype Op =
    | Get(host: string)
    | Put(host: string, ipv4: seq<Ip>, ipv6: seq<Ip>, ttl: int)
    | PutNegative(host: string)
    | Delete(host: string)

  /** An operation with its readings of the clock: the first for the lookup or the lifetime, and for a store a
      second one, no earlier, for the eviction. */
  datatype Event = Event(op: Op, now: int, evictNow: int)

  function StoredEntry(l: Limits, ev: Event): Entry
    requires ev.op.Put? || ev.op.PutNegative?
  {
    if ev.op.Put? then Entry(ev.op.ipv4, ev.op.ipv6, ev.now + ClampTTL(l, ev.op.ttl), false)
    else Entry([], [], ev.now + l.negativeTTL, true)
  }

  /** What one operation may do to the cache. */
  ghost predicate Step(l: Limits, m: Entries, ev: Event, m': Entries) {
    match ev.op
    case Get(host) => m' == AfterGet(m, Lower(host), ev.now)
    case Delete(host) => m' == m - {Lower(host)}
    case _ => Stored(m, Lower(ev.op.host), StoredEntry(l, ev), ev.evictNow, l.maxEntries, m')
  }

  /** The unbounded TTL map: stores overwrite, deletes delete, and nothing else ever leaves it. */
  function Reference(l: Limits, events: seq<Event>): Entries {
    if events == [] then map[]
    else
      var before := Reference(l, events[..|events| - 1]);
      var ev := events[|events| - 1];
      match ev.op
      case Get(_) => before
      case Delete(host) => before - {Lower(host)}
      case _ => before[Lower(ev.op.host) := StoredEntry(l, ev)]
  }

  /** states[i] is the cache before event i; the clock never runs backwards. */
  ghost predicate History(l: Limits, events: seq<Event>, states: seq<Entries>) {
    && |states| == |events| + 1 && states[0] == map[]
    && (forall i :: 0 <= i < |events| ==> Step(l, states[i], events[i], states[i + 1]))
    && (forall i :: 0 <= i < |events| ==> events[i].now <= events[i].evictNow)
    && (forall i, j :: 0 <= i < j < |events| ==> events[i].evictNow <= events[j].now)
  }

  /* ---------- capacity over histories ---------- */

  predicate IsStore(op: Op) {
    op.Put? || op.PutNegative?
  }

  /** Within the limit, and free of the name the scan mistakes for none. */
  ghost predicate WithinLimit(m: Entries, maxEntries: nat) {
    |m| <= maxEntries && "" !in m
  }

  lemma StoreWithinLimit(m: Entries, key: string, e: Entry, now: int, maxEntries: nat, m': Entries)
    requires Stored(m, key, e, now, maxEntries, m') && maxEntries > 0 && WithinLimit(m, maxEntries) && key != ""
    ensures WithinLimit(m', maxEntries)
  {
    CapacityIff(m, key, e, now, maxEntries);
    var order :| InOrder(order, m) && m' == Store(m, key, e, now, maxEntries, order);
    if key !in m && |m| >= maxEntries && "" in Evict(m, now, order) {
      EvictSound(m, now, order, "");
    }
  }

  lemma RemovalWithinLimit(m: Entries, gone: set<string>, maxEntries: nat)
    requires WithinLimit(m, maxEntries)
    ensures WithinLimit(m - gone, maxEntries)
  {
    assert (m - gone).Keys == m.Keys - gone;
    Subset(m.Keys - gone, m.Keys);
  }

  lemma StepWithinLimit(l: Limits, m: Entries, ev: Event, m': Entries)
    requires Step(l, m, ev, m') && l.maxEntries > 0 && WithinLimit(m, l.maxEntries)
    requires IsStore(ev.op) ==> ev.op.host != ""
    ensures WithinLimit(m', l.maxEntries)
  {
    match ev.op
    case Get(host) => RemovalWithinLimit(m, {Lower(host)}, l.maxEntries);
    case Delete(host) => RemovalWithinLimit(m, {Lower(host)}, l.maxEntries);
    case _ => StoreWithinLimit(m, Lower(ev.op.host), StoredEntry(l, ev), ev.evictNow, l.maxEntries, m');
  }

  lemma HistoryStep(l: Limits, events: seq<Event>, states: seq<Entries>, i: nat)
    requires History(l, events, states) && i < |events|
    ensures |states| == |events| + 1 && Step(l, states[i], events[i], states[i + 1])
  {}

  predicate NamesItsStore(ev: Event) {
    IsStore(ev.op) ==> ev.op.host != ""
  }

  lemma NextWithinLimit(l: Limits, events: seq<Event>, m: Entries, i: nat, m': Entries)
    requires i < |events| && Step(l, m, events[i], m') && l.maxEntries > 0 && WithinLimit(m, l.maxEntries)
    requires forall ev <- events :: NamesItsStore(ev)
    ensures WithinLimit(m', l.maxEntries)
  {
    assert NamesItsStore(events[i]);
    StepWithinLimit(l, m, events[i], m');
  }

  lemma CapacityStep(l: Limits, events: seq<Event>, states: seq<Entries>, i: nat)
    requires History(l, events, states) && l.maxEntries > 0 && i < |events|
    requires forall ev <- events :: NamesItsStore(ev)
    requires WithinLimit(states[i], l.maxEntries)
    ensures WithinLimit(states[i + 1], l.maxEntries)
  {
    HistoryStep(l, events, states, i);
    NextWithinLimit(l, events, states[i], i, states[i + 1]);
  }

  /** In every history in which only non-empty names are stored the cache never exceeds maxEntries. */
  lemma {:induction false} CapacityKept(l: Limits, events: seq<Event>, states: seq<Entries>, i: nat)
    requires History(l, events, states) && l.maxEntries > 0 && i <= |events|
    requires forall ev <- events :: NamesItsStore(ev)
    ensures WithinLimit(states[i], l.maxEntries)
  {
    if i > 0 {
      CapacityKept(l, events, states, i - 1);
      CapacityStep(l, events, states, i - 1);
    }
  }

  function Name(n: nat): (r: string)
    ensures |r| == n && forall i :: 0 <= i < n ==> r[i] == 'a'
  {
    if n == 0 then "" else Name(n - 1) + "a"
  }

  lemma LowerName(n: nat)
    ensures Lower(Name(n)) == Name(n)
  {
    forall i | 0 <= i < n ensures Lower(Name(n))[i] == Name(n)[i] {}
  }

  /** n + 1 entries at time 1, the empty name expiring before the others, and none yet. */
  ghost predicate Crowded(m: Entries, n: nat, first: int, others: int) {
    && 1 < first < others && |m| == n + 1
    && "" in m && m[""].expiresAt == first
    && (forall k :: k in m ==> |k| <= n && (k != "" ==> m[k].expiresAt == others))
  }

  lemma OneMoreEntry(l: Limits, m: Entries, n: nat, first: int, others: int, e: Entry) returns (m': Entries)
    requires Crowded(m, n, first, others) && e.expiresAt == others
    ensures Stored(m, Name(n + 1), e, 1, l.maxEntries, m') && Crowded(m', n + 1, first, others)
  {
    var key := Name(n + 1);
    assert key !in m && Expired(m, 1) == {} && !SentinelHarmless(m);
    m' := StoreGrows(m, key, e, 1, l.maxEntries);
  }

  lemma HistoryGrows(l: Limits, events: seq<Event>, states: seq<Entries>, ev: Event, m': Entries)
    requires History(l, events, states) && Step(l, states[|events|], ev, m')
    requires ev.now <= ev.evictNow && forall i :: 0 <= i < |events| ==> events[i].evictNow <= ev.now
    ensures History(l, events + [ev], states + [m'])
  {
    var events', states' := events + [ev], states + [m'];
    forall i | 0 <= i < |events'| ensures Step(l, states'[i], events'[i], states'[i + 1]) {
      if i < |events| { assert Step(l, states[i], events[i], states[i + 1]); }
    }
  }

  lemma EmptyNameStored(l: Limits, a: int, others: int) returns (events: seq<Event>, states: seq<Entries>)
    requires 1 < ClampTTL(l, a) < others
    ensures events == [Event(Put("", [], [], a), 0, 0)] && History(l, events, states)
    ensures Crowded(states[1], 0, ClampTTL(l, a), others)
  {
    var ev := Event(Put("", [], [], a), 0, 0);
    var e := StoredEntry(l, ev);
    var m := map["" := e];
    assert Expired(map[], 0) == {} && InOrder([], map[]);
    assert m == Store(map[], "", e, 0, l.maxEntries, []);
    events, states := [ev], [map[], m];
    assert Lower("") == "" && Step(l, map[], ev, m);
    assert m.Keys == {""};
  }

  /** The empty name, and one tick of the clock later n others. */
  function Crowd(a: int, b: int, n: nat): (r: seq<Event>)
    ensures |r| == n + 1 && forall i :: 0 <= i <= n ==> r[i].now == r[i].evictNow <= 1
  {
    if n == 0 then [Event(Put("", [], [], a), 0, 0)] else Crowd(a, b, n - 1) + [Event(Put(Name(n), [], [], b), 1, 1)]
  }

  /** With the empty name stored first the excess has no bound: under all limits on entries and lifetimes, n
      more stores can leave n + 1 entries, all alive. a and b are any lifetimes that the clamping leaves longer
      than one tick and in this order, equal ones included. */
  lemma {:induction false} EmptyNameUndoesTheLimit(l: Limits, a: int, b: int, n: nat) returns (states: seq<Entries>)
    requires 1 < ClampTTL(l, a) <= ClampTTL(l, b)
    ensures History(l, Crowd(a, b, n), states)
    ensures Crowded(states[n + 1], n, ClampTTL(l, a), 1 + ClampTTL(l, b))
  {
    if n == 0 {
      var events;
      events, states := EmptyNameStored(l, a, 1 + ClampTTL(l, b));
    } else {
      states := EmptyNameUndoesTheLimit(l, a, b, n - 1);
      var m' := CrowdGrows(l, a, b, n - 1, states[n]);
      HistoryGrows(l, Crowd(a, b, n - 1), states, Event(Put(Name(n), [], [], b), 1, 1), m');
      states := states + [m'];
    }
  }

  lemma CrowdGrows(l: Limits, a: int, b: int, n: nat, m: Entries) returns (m': Entries)
    requires Crowded(m, n, ClampTTL(l, a), 1 + ClampTTL(l, b))
    ensures Step(l, m, Event(Put(Name(n + 1), [], [], b), 1, 1), m')
    ensures Crowded(m', n + 1, ClampTTL(l, a), 1 + ClampTTL(l, b))
  {
    LowerName(n + 1);
    var e := StoredEntry(l, Event(Put(Name(n + 1), [], [], b), 1, 1));
    m' := OneMoreEntry(l, m, n, ClampTTL(l, a), 1 + ClampTTL(l, b), e);
  }

  /* ---------- against the unbounded map ---------- */

  /** What the cache holds, the unbounded map holds too. */
  ghost predicate Sound(m: Entries, reference: Entries) {
    forall k :: k in m ==> k in reference && reference[k] == m[k]
  }

  lemma EvictSound(m: Entries, now: int, order: seq<string>, k: string)
    requires forall x <- order :: x in m
    requires k in Evict(m, now, order)
    ensures k in m && Evict(m, now, order)[k] == m[k]
  {}

  lemma StepSound(l: Limits, events: seq<Event>, m: Entries, m': Entries)
    requires events != [] && Sound(m, Reference(l, events[..|events| - 1]))
    requires Step(l, m, events[|events| - 1], m')
    ensures Sound(m', Reference(l, events))
  {
    var ev := events[|events| - 1];
    if ev.op.Put? || ev.op.PutNegative? {
      var key, e := Lower(ev.op.host), StoredEntry(l, ev);
      var order :| InOrder(order, m) && m' == Store(m, key, e, ev.evictNow, l.maxEntries, order);
      forall k | k in m' && k != key ensures k in m && m'[k] == m[k] {
        if key !in m && |m| >= l.maxEntries { EvictSound(m, ev.evictNow, order, k); }
      }
    }
  }

  lemma {:induction false} HistorySound(l: Limits, events: seq<Event>, states: seq<Entries>, i: nat)
    requires History(l, events, states) && i <= |events|
    ensures Sound(states[i], Reference(l, events[..i]))
  {
    if i > 0 {
      HistorySound(l, events, states, i - 1);
      assert events[..i][..i - 1] == events[..i - 1];
      StepSound(l, events[..i], states[i - 1], states[i]);
    }
  }

  function LiveKeys(m: Entries, now: int): set<string> {
    set k | k in m && Live(m[k], now)
  }

  /** Room for the names that matter: those alive in the unbounded map plus the one being stored. */
  ghost predicate Fits(l: Limits, events: seq<Event>) {
    forall i :: 0 <= i < |events| && (events[i].op.Put? || events[i].op.PutNegative?) ==>
      |LiveKeys(Reference(l, events[..i]), events[i].evictNow) + {Lower(events[i].op.host)}| <= l.maxEntries
  }

  /** Every entry alive in the unbounded map is in the cache. */
  ghost predicate Complete(m: Entries, reference: Entries, now: int) {
    forall k :: k in reference && Live(reference[k], now) ==> k in m && m[k] == reference[k]
  }

  lemma StoreComplete(m: Entries, reference: Entries, key: string, e: Entry, now: int, maxEntries: nat,
                      order: seq<string>)
    requires Sound(m, reference) && Complete(m, reference, now) && InOrder(order, m)
    requires |LiveKeys(reference, now) + {key}| <= maxEntries
    ensures Complete(Store(m, key, e, now, maxEntries, order), reference[key := e], now)
  {
    if key !in m && Expired(m, now) == {} {
      AllLive(m, reference, key, now);
    }
  }

  /** A cache of nothing but live entries is no larger than what is alive. */
  lemma AllLive(m: Entries, reference: Entries, key: string, now: int)
    requires Sound(m, reference) && key !in m && Expired(m, now) == {}
    ensures |m| < |LiveKeys(reference, now) + {key}|
  {
    forall k | k in m.Keys ensures k in LiveKeys(reference, now) { assert k !in Expired(m, now); }
    Subset(m.Keys + {key}, LiveKeys(reference, now) + {key});
    assert |m.Keys + {key}| == |m| + 1;
  }

  lemma Subset(a: set<string>, b: set<string>)
    requires a <= b
    ensures |a| <= |b|
  {
    assert b == a + (b - a);
  }

  lemma StepComplete(l: Limits, events: seq<Event>, m: Entries, m': Entries)
    requires events != [] && Step(l, m, events[|events| - 1], m')
    requires var reference, ev := Reference(l, events[..|events| - 1]), events[|events| - 1];
      && Sound(m, reference) && Complete(m, reference, ev.now) && ev.now <= ev.evictNow
      && (ev.op.Put? || ev.op.PutNegative? ==>
            |LiveKeys(reference, ev.evictNow) + {Lower(ev.op.host)}| <= l.maxEntries)
    ensures Complete(m', Reference(l, events), events[|events| - 1].evictNow)
  {
    var ev := events[|events| - 1];
    CompleteLater(m, Reference(l, events[..|events| - 1]), ev.now, ev.evictNow);
    if ev.op.Put? || ev.op.PutNegative? {
      var key, e := Lower(ev.op.host), StoredEntry(l, ev);
      var order :| InOrder(order, m) && m' == Store(m, key, e, ev.evictNow, l.maxEntries, order);
      StoreComplete(m, Reference(l, events[..|events| - 1]), key, e, ev.evictNow, l.maxEntries, order);
    }
  }

  lemma CompleteLater(m: Entries, reference: Entries, earlier: int, now: int)
    requires Complete(m, reference, earlier) && earlier <= now
    ensures Complete(m, reference, now)
  {}

  lemma {:induction false} HistoryComplete(l: Limits, events: seq<Event>, states: seq<Entries>, i: nat, now: int)
    requires History(l, events, states) && Fits(l, events) && i <= |events|
    requires i > 0 ==> events[i - 1].evictNow <= now
    ensures Complete(states[i], Reference(l, events[..i]), now)
  {
    if i > 0 {
      if i > 1 { assert events[i - 2].evictNow <= events[i - 1].now; }
      HistoryComplete(l, events, states, i - 1, events[i - 1].now);
      HistorySound(l, events, states, i - 1);
      NextComplete(l, events, states, i - 1);
      CompleteLater(states[i], Reference(l, events[..i]), events[i - 1].evictNow, now);
    }
  }

  lemma NextComplete(l: Limits, events: seq<Event>, states: seq<Entries>, i: nat)
    requires History(l, events, states) && Fits(l, events) && i < |events|
    requires Sound(states[i], Reference(l, events[..i]))
    requires Complete(states[i], Reference(l, events[..i]), events[i].now)
    ensures Complete(states[i + 1], Reference(l, events[..i + 1]), events[i].evictNow)
  {
    assert events[..i + 1][..i] == events[..i];
    StepComplete(l, events[..i + 1], states[i], states[i + 1]);
  }

  /** Over every history: a hit is always the latest store for that name, still unexpired; and if the live
      names always fit, every Get answers exactly as the unbounded map would. */
  lemma CacheRefinesTtlMap(l: Limits, events: seq<Event>, states: seq<Entries>, i: nat)
    requires History(l, events, states) && i < |events| && events[i].op.Get?
    ensures var key, now := Lower(events[i].op.host), events[i].now;
            var reference := Reference(l, events[..i]);
      && (Hit(states[i], key, now).Some? ==> Hit(states[i], key, now) == Hit(reference, key, now))
      && (Fits(l, events) ==> Hit(states[i], key, now) == Hit(reference, key, now))
  {
    HistorySound(l, events, states, i);
    if Fits(l, events) {
      HistoryComplete(l, events, states, i, events[i].now);
    }
  }

  /** The reference is what its name says: the entry of the last store not followed by a delete. */
  lemma {:induction false} ReferenceIsLatestStore(l: Limits, events: seq<Event>, key: string, i: nat)
    requires i < |events| && (events[i].op.Put? || events[i].op.PutNegative?) && Lower(events[i].op.host) == key
    requires forall j :: i < j < |events| && !events[j].op.Get? ==> Lower(events[j].op.host) != key
    ensures key in Reference(l, events) && Reference(l, events)[key] == StoredEntry(l, events[i])
    decreases |events|
  {
    if i < |events| - 1 {
      ReferenceIsLatestStore(l, events[..|events| - 1], key, i);
    }
  }

  /* ---------- how long an entry is served ---------- */

  /** What event i stored, and for how long it is good. */
  ghost predicate Stores(l: Limits, ev: Event, key: string, e: Entry, life: int) {
    match ev.op
    case Put(host, ipv4, ipv6, ttl) =>
      Lower(host) == key && LivesFor(l, ttl, life) && e == Entry(ipv4, ipv6, ev.now + life, false)
    case PutNegative(host) =>
      Lower(host) == key && life == l.negativeTTL && e == Entry([], [], ev.now + life, true)
    case _ => false
  }

  /** Neither stored nor deleted from event i up to event j. */
  ghost predicate Untouched(events: seq<Event>, i: nat, j: nat, key: string) {
    forall x :: i <= x < j <= |events| && !events[x].op.Get? ==> Lower(events[x].op.host) != key
  }

  lemma StoredIsReferred(l: Limits, events: seq<Event>, i: nat, j: nat, key: string, e: Entry, life: int)
    requires i < j <= |events| && Stores(l, events[i], key, e, life) && Untouched(events, i + 1, j, key)
    ensures key in Reference(l, events[..j]) && Reference(l, events[..j])[key] == e
  {
    ReferenceIsLatestStore(l, events[..j], key, i);
  }

  /** While the live names fit, an entry is found, exactly as it was stored, from the moment it was stored until
      its lifetime has passed, and at no moment after that, unless it is overwritten or deleted first. */
  lemma EntryIsServedForItsLifetime(l: Limits, events: seq<Event>, states: seq<Entries>, i: nat, j: nat, key: string,
                                    e: Entry, life: int, now: int)
    requires History(l, events, states) && Fits(l, events) && i < j <= |events|
    requires Stores(l, events[i], key, e, life) && Untouched(events, i + 1, j, key)
    requires events[j - 1].evictNow <= now
    ensures Hit(states[j], key, now) == if now < events[i].now + life then Some(e) else None
  {
    HistorySound(l, events, states, j);
    HistoryComplete(l, events, states, j, now);
    StoredIsReferred(l, events, i, j, key, e, life);
  }

  /** Whether or not they fit, never for longer. */
  lemma NeverServedLonger(l: Limits, events: seq<Event>, states: seq<Entries>, i: nat, j: nat, key: string,
                          e: Entry, life: int, now: int)
    requires History(l, events, states) && i < j <= |events|
    requires Stores(l, events[i], key, e, life) && Untouched(events, i + 1, j, key)
    ensures Hit(states[j], key, now).Some? ==> Hit(states[j], key, now) == Some(e) && now < events[i].now + life
  {
    HistorySound(l, events, states, j);
    StoredIsReferred(l, events, i, j, key, e, life);
  }
}
