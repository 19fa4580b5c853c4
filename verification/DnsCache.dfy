/**
 The sharded answer cache. Each shard is a least-recently-used list, most recent
 first; entries carry an opaque payload, the monotonic second they were stored
 and their clamped TTL.
 */
module DnsCache {
  import opened Wrappers
  import opened Keys

  const U32_MAX := 4294967295

  datatype Entry<P> = Entry(payload: P, storedAt: int, ttl: nat)

  function Min(a: int, b: int): int {
    if a < b then a else b
  }

  function Max(a: int, b: int): int {
    if a < b then b else a
  }

  /** Whole seconds since the entry was stored, saturating like the 32-bit counter it is read into. */
  function Age<P>(e: Entry<P>, now: int): nat {
    Min(Max(now - e.storedAt, 0), U32_MAX)
  }

  // ---- what may be cached, and for how long ----

  datatype Authority = Soa(minimum: nat, ttl: nat) | OtherAuthority

  datatype Meta = Meta(rcode: nat, truncated: bool, answerTtls: seq<nat>, authorities: seq<Authority>)

  datatype Config = Config(enabled: bool, minTtl: nat, maxTtl: nat, staleWindow: nat)

  const NOERROR := 0
  const NXDOMAIN := 3
  const DEFAULT_NEGATIVE_TTL := 30

  /** The smallest of the SOA's minimum and TTL, but at least one second; section 5 of RFC 2308. */
  method NegativeTtl(m: Meta) returns (ttl: nat)
    ensures 1 <= ttl
    ensures (forall i :: 0 <= i < |m.authorities| ==> !m.authorities[i].Soa?) ==> ttl == DEFAULT_NEGATIVE_TTL
    ensures forall i :: 0 <= i < |m.authorities| && FirstSoa(m, i) ==>
              ttl == Max(Min(m.authorities[i].minimum, m.authorities[i].ttl), 1)
  {
    for i := 0 to |m.authorities|
      invariant forall j :: 0 <= j < i ==> !m.authorities[j].Soa?
    {
      if m.authorities[i].Soa? {
        return Max(Min(m.authorities[i].minimum, m.authorities[i].ttl), 1);
      }
    }
    return DEFAULT_NEGATIVE_TTL;
  }

  ghost predicate FirstSoa(m: Meta, i: nat) {
    i < |m.authorities| && m.authorities[i].Soa? && forall j :: 0 <= j < i ==> !m.authorities[j].Soa?
  }

  /** The unclamped lifetime: the least answer TTL, or the negative TTL when there is no answer. */
  ghost predicate IsBaseTtl(m: Meta, ttl: nat) {
    if m.answerTtls != []
    then ttl in m.answerTtls && forall i :: 0 <= i < |m.answerTtls| ==> ttl <= m.answerTtls[i]
    else if exists i: nat :: FirstSoa(m, i)
    then exists i: nat :: FirstSoa(m, i) && ttl == Max(Min(m.authorities[i].minimum, m.authorities[i].ttl), 1)
    else ttl == DEFAULT_NEGATIVE_TTL
  }

  function Clamped(base: nat, cfg: Config): nat {
    if cfg.maxTtl != 0 then Min(Max(base, cfg.minTtl), cfg.maxTtl) else Max(base, cfg.minTtl)
  }

  /** A response is cached if and only if it is a whole positive or name-error answer with a lifetime left. */
  method CacheableTtl(m: Meta, cfg: Config) returns (r: Option<nat>)
    ensures exists base :: IsBaseTtl(m, base) &&
              r == if (m.rcode == NOERROR || m.rcode == NXDOMAIN) && !m.truncated && Clamped(base, cfg) > 0
                   then Some(Clamped(base, cfg)) else None
  {
    var base: nat;
    if m.answerTtls != [] {
      base := m.answerTtls[0];
      for i := 1 to |m.answerTtls|
        invariant base in m.answerTtls && forall j :: 0 <= j < i ==> base <= m.answerTtls[j]
      {
        base := Min(base, m.answerTtls[i]);
      }
    } else {
      base := NegativeTtl(m);
      if !exists i: nat :: FirstSoa(m, i) {
        NoFirstSoa(m, |m.authorities|);
      }
    }
    assert IsBaseTtl(m, base);
    if m.rcode != NOERROR && m.rcode != NXDOMAIN {
      return None;
    }
    if m.truncated {
      return None;
    }
    var ttl := Clamped(base, cfg);
    return if ttl == 0 then None else Some(ttl);
  }

  lemma {:induction false} NoFirstSoa(m: Meta, n: nat)
    requires n <= |m.authorities| && forall i: nat :: !FirstSoa(m, i)
    ensures forall j :: 0 <= j < n ==> !m.authorities[j].Soa?
  {
    if n > 0 {
      NoFirstSoa(m, n - 1);
      assert !FirstSoa(m, n - 1);
    }
  }

  /** The base lifetime is one value, and a clamped one respects both bounds, the upper one first. */
  lemma BaseTtlIsUnique(m: Meta, a: nat, b: nat, cfg: Config)
    requires IsBaseTtl(m, a) && IsBaseTtl(m, b)
    ensures a == b
    ensures cfg.maxTtl != 0 ==> Clamped(a, cfg) <= cfg.maxTtl
    ensures cfg.maxTtl == 0 || cfg.minTtl <= cfg.maxTtl ==> Clamped(a, cfg) >= cfg.minTtl
  {
    if m.answerTtls == [] {
      if exists i: nat :: FirstSoa(m, i) {
        var i: nat :| FirstSoa(m, i) && a == Max(Min(m.authorities[i].minimum, m.authorities[i].ttl), 1);
        var j: nat :| FirstSoa(m, j) && b == Max(Min(m.authorities[j].minimum, m.authorities[j].ttl), 1);
        assert i == j;
      }
    } else {
      var i :| 0 <= i < |m.answerTtls| && m.answerTtls[i] == a;
      var j :| 0 <= j < |m.answerTtls| && m.answerTtls[j] == b;
    }
  }

  // ---- one shard ----

  type Shard<P> = seq<(QueryKey, Entry<P>)>

  function Find<P>(s: Shard<P>, key: QueryKey): (i: nat)
    ensures i <= |s|
    ensures i < |s| ==> s[i].0 == key
    ensures forall j :: 0 <= j < i ==> s[j].0 != key
  {
    if s == [] || s[0].0 == key then 0 else 1 + Find(s[1..], key)
  }

  function Lookup<P>(s: Shard<P>, key: QueryKey): Option<Entry<P>> {
    if Find(s, key) < |s| then Some(s[Find(s, key)].1) else None
  }

  function Without<P>(s: Shard<P>, key: QueryKey): Shard<P> {
    var i := Find(s, key);
    if i < |s| then s[..i] + s[i + 1..] else s
  }

  /** A read makes its key the most recent. */
  function Touch<P>(s: Shard<P>, key: QueryKey): Shard<P> {
    var i := Find(s, key);
    if i < |s| then [s[i]] + Without(s, key) else s
  }

  /** A write replaces the key's entry or evicts the least recent one of a full shard. */
  function Put<P>(s: Shard<P>, key: QueryKey, e: Entry<P>, cap: nat): Shard<P>
    requires cap >= 1
  {
    Resize([(key, e)] + Without(s, key), cap)
  }

  function Resize<P>(s: Shard<P>, cap: nat): Shard<P> {
    if |s| <= cap then s else s[..cap]
  }

  ghost predicate Distinct<P>(s: Shard<P>) {
    forall i, j :: 0 <= i < j < |s| ==> s[i].0 != s[j].0
  }

  lemma FindIs<P>(s: Shard<P>, key: QueryKey, i: nat)
    requires Distinct(s) && i < |s| && s[i].0 == key
    ensures Find(s, key) == i
  {
  }

  lemma FindAbsent<P>(s: Shard<P>, key: QueryKey)
    requires forall i :: 0 <= i < |s| ==> s[i].0 != key
    ensures Find(s, key) == |s|
  {
  }

  lemma WithoutKeeps<P>(s: Shard<P>, key: QueryKey, k: QueryKey)
    requires Distinct(s)
    ensures Distinct(Without(s, key))
    ensures Lookup(Without(s, key), k) == if k == key then None else Lookup(s, k)
  {
    var w, at := Without(s, key), Find(s, key);
    if at < |s| {
      var f := Find(s, k);
      if k == key {
        FindAbsent(w, k);
      } else if f < |s| {
        FindIs(w, k, if f < at then f else f - 1);
      } else {
        FindAbsent(w, k);
      }
    }
  }

  lemma ResizeKeeps<P>(s: Shard<P>, cap: nat, k: QueryKey)
    requires Distinct(s)
    ensures Distinct(Resize(s, cap)) && |Resize(s, cap)| <= cap
    ensures Lookup(Resize(s, cap), k) == if Find(s, k) < cap then Lookup(s, k) else None
  {
    var r := Resize(s, cap);
    if Find(s, k) < |r| {
      FindIs(r, k, Find(s, k));
    } else {
      FindAbsent(r, k);
    }
  }

  lemma FrontKeeps<P>(s: Shard<P>, key: QueryKey, e: Entry<P>, k: QueryKey)
    requires Distinct(s) && Find(s, key) == |s|
    ensures var r := [(key, e)] + s;
            Distinct(r) && Lookup(r, k) == (if k == key then Some(e) else Lookup(s, k))
            && Find(r, k) == if k == key then 0 else Find(s, k) + 1
  {
    var r := [(key, e)] + s;
    assert r[1..] == s;
    assert forall j :: 0 <= j < |s| ==> s[j].0 != key;
  }

  lemma WithoutDrops<P>(s: Shard<P>, key: QueryKey)
    requires Distinct(s)
    ensures Distinct(Without(s, key)) && Find(Without(s, key), key) == |Without(s, key)|
    ensures |Without(s, key)| == if Find(s, key) < |s| then |s| - 1 else |s|
  {
    WithoutKeeps(s, key, key);
  }

  lemma TouchKeeps<P>(s: Shard<P>, key: QueryKey, k: QueryKey)
    requires Distinct(s)
    ensures Distinct(Touch(s, key)) && |Touch(s, key)| == |s|
    ensures Lookup(Touch(s, key), k) == Lookup(s, k)
  {
    if Find(s, key) < |s| {
      WithoutDrops(s, key);
      WithoutKeeps(s, key, k);
      FrontKeeps(Without(s, key), key, s[Find(s, key)].1, k);
    }
  }

  /** A write leaves the written entry and, unless the shard was full, everything else. */
  lemma PutStores<P>(s: Shard<P>, key: QueryKey, e: Entry<P>, cap: nat, k: QueryKey)
    requires Distinct(s) && cap >= 1
    ensures Distinct(Put(s, key, e, cap)) && |Put(s, key, e, cap)| <= cap
    ensures var after := Lookup(Put(s, key, e, cap), k);
            if k == key then after == Some(e)
            else after == Lookup(s, k) || (after == None && |s| >= cap)
  {
    WithoutDrops(s, key);
    WithoutKeeps(s, key, k);
    FrontKeeps(Without(s, key), key, e, k);
    ResizeKeeps([(key, e)] + Without(s, key), cap, k);
  }

  // ---- least recently used ----

  datatype Use<P> = Read(key: QueryKey) | Write(key: QueryKey, entry: Entry<P>) | Expire(key: QueryKey)

  function ApplyUse<P>(s: Shard<P>, u: Use<P>, cap: nat): Shard<P>
    requires cap >= 1
  {
    match u
    case Read(k) => Touch(s, k)
    case Write(k, e) => Put(s, k, e, cap)
    case Expire(k) => Without(s, k)
  }

  function ApplyAll<P>(s: Shard<P>, uses: seq<Use<P>>, cap: nat): Shard<P>
    requires cap >= 1
  {
    if uses == [] then s else ApplyUse(ApplyAll(s, uses[..|uses| - 1], cap), uses[|uses| - 1], cap)
  }

  ghost function OtherKeys<P>(uses: seq<Use<P>>, key: QueryKey): set<QueryKey> {
    (set u | u in uses :: u.key) - {key}
  }

  /** `key` is held, and everything more recent is among `used`. */
  ghost predicate Behind<P>(s: Shard<P>, key: QueryKey, used: set<QueryKey>) {
    Distinct(s) && Find(s, key) < |s| && key !in used && forall j :: 0 <= j < Find(s, key) ==> s[j].0 in used
  }

  lemma {:induction false} DistinctBound<P>(s: Shard<P>, n: nat, used: set<QueryKey>)
    requires n <= |s| && Distinct(s) && forall j :: 0 <= j < n ==> s[j].0 in used
    ensures n <= |used|
    decreases n
  {
    if n > 0 {
      DistinctBound(s, n - 1, used - {s[n - 1].0});
    }
  }

  lemma RemovedBehind<P>(s: Shard<P>, key: QueryKey, k: QueryKey, used: set<QueryKey>)
    requires Behind(s, key, used) && k != key
    ensures Behind(Without(s, k), key, used)
  {
    WithoutKeeps(s, k, key);
    var at, f := Find(s, k), Find(s, key);
    if at < |s| {
      FindIs(Without(s, k), key, if f < at then f else f - 1);
    }
  }

  lemma FrontBehind<P>(s: Shard<P>, key: QueryKey, k: QueryKey, e: Entry<P>, used: set<QueryKey>)
    requires Behind(s, key, used) && k != key && Find(s, k) == |s|
    ensures Behind([(k, e)] + s, key, used + {k})
  {
    FrontKeeps(s, k, e, key);
  }

  lemma UseKeepsBehind<P>(s: Shard<P>, key: QueryKey, u: Use<P>, cap: nat, used: set<QueryKey>)
    requires Behind(s, key, used) && cap >= 1 && |used + ({u.key} - {key})| < cap && u != Expire(key)
    ensures Behind(ApplyUse(s, u, cap), key, used + ({u.key} - {key}))
  {
    var k := u.key;
    WithoutDrops(s, k);
    if k == key {
      assert used + ({k} - {key}) == used;
      FrontKeeps(Without(s, k), k, if u.Write? then u.entry else s[Find(s, k)].1, k);
    } else {
      RemovedBehind(s, key, k, used);
      assert used + {k} == used + ({k} - {key});
      if u.Read? && Find(s, k) < |s| {
        FrontBehind(Without(s, k), key, k, s[Find(s, k)].1, used);
      } else if u.Write? {
        FrontBehind(Without(s, k), key, k, u.entry, used);
        ResizeBehind([(k, u.entry)] + Without(s, k), key, cap, used + {k});
      }
    }
  }

  lemma ResizeBehind<P>(t: Shard<P>, key: QueryKey, cap: nat, used: set<QueryKey>)
    requires Behind(t, key, used) && |used| < cap
    ensures Behind(Resize(t, cap), key, used)
  {
    DistinctBound(t, Find(t, key), used);
    ResizeKeeps(t, cap, key);
    FindIs(Resize(t, cap), key, Find(t, key));
  }

  /** An unexpired entry stays while fewer distinct other keys of its shard than the shard holds are used. */
  lemma {:induction false} RecentEntriesStay<P>(s: Shard<P>, key: QueryKey, uses: seq<Use<P>>, cap: nat)
    requires Distinct(s) && s != [] && s[0].0 == key && cap >= 1
    requires |OtherKeys(uses, key)| < cap && Expire(key) !in uses
    ensures Behind(ApplyAll(s, uses, cap), key, OtherKeys(uses, key))
    ensures Lookup(ApplyAll(s, uses, cap), key).Some?
    decreases |uses|
  {
    if uses != [] {
      var front, u := uses[..|uses| - 1], uses[|uses| - 1];
      assert uses == front + [u];
      assert OtherKeys(uses, key) == OtherKeys(front, key) + ({u.key} - {key});
      DistinctSubset(OtherKeys(front, key), OtherKeys(uses, key));
      RecentEntriesStay(s, key, front, cap);
      UseKeepsBehind(ApplyAll(s, front, cap), key, u, cap, OtherKeys(front, key));
    }
  }

  lemma DistinctSubset(a: set<QueryKey>, b: set<QueryKey>)
    requires a <= b
    ensures |a| <= |b|
  {
    assert b == a + (b - a);
  }

  // ---- all shards ----

  ghost predicate ShardOk<P>(s: Shard<P>, last: map<QueryKey, Entry<P>>, shardOf: QueryKey -> nat, i: nat, cap: nat) {
    Distinct(s) && |s| <= cap
    && forall k :: Lookup(s, k).Some? ==> shardOf(k) == i && k in last && last[k] == Lookup(s, k).value
  }

  function ShardCap(total: nat, shards: nat): nat
    requires shards >= 1
  {
    Max(total / shards, 1)
  }

  ghost predicate Refines<P>(shards: seq<Shard<P>>, last: map<QueryKey, Entry<P>>, shardOf: QueryKey -> nat, cap: nat) {
    forall i :: 0 <= i < |shards| ==> ShardOk(shards[i], last, shardOf, i, cap)
  }

  /** What the cache holds under a key. */
  function Held<P>(shards: seq<Shard<P>>, shardOf: QueryKey -> nat, key: QueryKey): Option<Entry<P>> {
    if shardOf(key) < |shards| then Lookup(shards[shardOf(key)], key) else None
  }

  function Size<P>(shards: seq<Shard<P>>): nat {
    if shards == [] then 0 else |shards[0]| + Size(shards[1..])
  }

  lemma {:induction false} SizeBound<P>(shards: seq<Shard<P>>, cap: nat)
    requires forall i :: 0 <= i < |shards| ==> |shards[i]| <= cap
    ensures Size(shards) <= |shards| * cap
  {
    if shards != [] {
      SizeBound(shards[1..], cap);
      assert |shards| * cap == (|shards| - 1) * cap + cap;
    }
  }

  lemma CapBound(total: nat, n: nat)
    requires n >= 1
    ensures n * ShardCap(total, n) <= Max(total, n)
  {
    if total / n >= 1 {
      assert n * (total / n) <= total;
    }
  }

  /** The cache never holds more than the larger of its capacity and its shard count. */
  lemma SizeWithinCapacity<P>(shards: seq<Shard<P>>, last: map<QueryKey, Entry<P>>, shardOf: QueryKey -> nat, total: nat)
    requires |shards| >= 1 && Refines(shards, last, shardOf, ShardCap(total, |shards|))
    ensures Size(shards) <= Max(total, |shards|)
  {
    forall i | 0 <= i < |shards| ensures |shards[i]| <= ShardCap(total, |shards|) {
      assert ShardOk(shards[i], last, shardOf, i, ShardCap(total, |shards|));
    }
    SizeBound(shards, ShardCap(total, |shards|));
    CapBound(total, |shards|);
  }

  lemma ReplaceShard<P>(shards: seq<Shard<P>>, last: map<QueryKey, Entry<P>>, last': map<QueryKey, Entry<P>>,
                        shardOf: QueryKey -> nat, cap: nat, key: QueryKey, s: Shard<P>)
    requires Refines(shards, last, shardOf, cap) && shardOf(key) < |shards|
    requires forall k :: k != key && k in last ==> k in last' && last'[k] == last[k]
    requires ShardOk(s, last', shardOf, shardOf(key), cap)
    ensures Refines(shards[shardOf(key) := s], last', shardOf, cap)
  {
    var after := shards[shardOf(key) := s];
    forall i | 0 <= i < |after| ensures ShardOk(after[i], last', shardOf, i, cap) {
      assert ShardOk(shards[i], last, shardOf, i, cap);
    }
  }

  lemma TouchOk<P>(s: Shard<P>, last: map<QueryKey, Entry<P>>, shardOf: QueryKey -> nat, i: nat, cap: nat, key: QueryKey)
    requires ShardOk(s, last, shardOf, i, cap)
    ensures ShardOk(Touch(s, key), last, shardOf, i, cap) && ShardOk(Without(s, key), last, shardOf, i, cap)
  {
    TouchKeeps(s, key, key);
    WithoutDrops(s, key);
    forall k
      ensures Lookup(Touch(s, key), k) == Lookup(s, k)
      ensures Lookup(Without(s, key), k) == if k == key then None else Lookup(s, k)
    {
      TouchKeeps(s, key, k);
      WithoutKeeps(s, key, k);
    }
  }

  lemma PutOk<P>(s: Shard<P>, last: map<QueryKey, Entry<P>>, shardOf: QueryKey -> nat, i: nat, cap: nat, key: QueryKey, e: Entry<P>)
    requires ShardOk(s, last, shardOf, i, cap) && cap >= 1 && shardOf(key) == i
    ensures ShardOk(Put(s, key, e, cap), last[key := e], shardOf, i, cap)
  {
    PutStores(s, key, e, cap, key);
    forall k ensures Lookup(Put(s, key, e, cap), k).Some? ==> k == key || Lookup(Put(s, key, e, cap), k) == Lookup(s, k) {
      PutStores(s, key, e, cap, k);
    }
  }

  lemma ResizeOk<P>(s: Shard<P>, last: map<QueryKey, Entry<P>>, shardOf: QueryKey -> nat, i: nat, cap: nat, cap': nat)
    requires ShardOk(s, last, shardOf, i, cap)
    ensures ShardOk(Resize(s, cap'), last, shardOf, i, cap')
  {
    ResizeKeeps(s, cap', QueryKey("", 0, 0, false, false));
    forall k ensures Lookup(Resize(s, cap'), k).Some? ==> Lookup(Resize(s, cap'), k) == Lookup(s, k) {
      ResizeKeeps(s, cap', k);
    }
  }

  // ---- the cache object ----

  datatype Counters = Counters(hits: nat, misses: nat, staleHits: nat, refreshes: nat, refreshFailures: nat)

  const ZERO := Counters(0, 0, 0, 0, 0)

  /** A served entry with the TTL its records are given. */
  datatype Hit<P> = Hit(payload: P, ttl: nat, stale: bool)

  const STALE_SERVE_TTL := 1

  /** Fresh before the TTL, stale within the window after it, gone afterwards. */
  function Serve<P>(e: Entry<P>, now: int, window: nat): Option<Hit<P>> {
    var age := Age(e, now);
    if age < e.ttl then Some(Hit(e.payload, e.ttl - age, false))
    else if age - e.ttl < window then Some(Hit(e.payload, STALE_SERVE_TTL, true))
    else None
  }

  class Cache<P> {
    const shardOf: QueryKey -> nat
    const shardCount: nat
    var shards: seq<Shard<P>>
    var capacity: nat
    var cfg: Config
    var counters: Counters
    ghost var last: map<QueryKey, Entry<P>>   // the last write under each key, evictions ignored
    ghost var lookups: nat                    // enabled lookups since the counters were set
    ghost var base: Counters                  // what they were set to

    ghost predicate Valid()
      reads this
    {
      && 1 <= shardCount == |shards| && capacity >= 1
      && (forall k :: shardOf(k) < shardCount)
      && Refines(shards, last, shardOf, ShardCap(capacity, shardCount))
      && counters.hits + counters.misses == base.hits + base.misses + lookups
      && 0 <= counters.staleHits - base.staleHits <= counters.hits - base.hits
    }

    ghost function HeldUnder(key: QueryKey): Option<Entry<P>>
      reads this
    {
      Held(shards, shardOf, key)
    }

    constructor (capacity: nat, cfg: Config, shardOf: QueryKey -> nat, shardCount: nat)
      requires shardCount >= 1 && forall k :: shardOf(k) < shardCount
      ensures Valid() && last == map[] && base == ZERO && lookups == 0 && counters == ZERO
      ensures this.capacity == Max(capacity, 1) && this.cfg == cfg.(enabled := true)
      ensures this.shardOf == shardOf && this.shardCount == shardCount
    {
      this.shardOf, this.shardCount := shardOf, shardCount;
      this.capacity, this.cfg, counters := Max(capacity, 1), cfg.(enabled := true), ZERO;
      shards := seq(shardCount, i => []);
      last, lookups, base := map[], 0, ZERO;
    }

    /** A hit returns what the last write under exactly this key stored, with its remaining lifetime. */
    method Get(key: QueryKey, now: int) returns (hit: Option<Hit<P>>)
      requires Valid()
      modifies this
      ensures Valid() && last == old(last) && base == old(base) && cfg == old(cfg) && capacity == old(capacity)
      ensures !cfg.enabled ==> hit == None && shards == old(shards) && counters == old(counters) && lookups == old(lookups)
      ensures cfg.enabled ==> lookups == old(lookups) + 1
      ensures cfg.enabled ==> hit == if old(HeldUnder(key)).None? then None
                                     else Serve(old(HeldUnder(key)).value, now, cfg.staleWindow)
      ensures hit.Some? ==> key in last && hit == Serve(last[key], now, cfg.staleWindow)
      ensures cfg.enabled && hit.Some? ==>
                counters == old(counters).(hits := old(counters).hits + 1,
                                           staleHits := old(counters).staleHits + if hit.value.stale then 1 else 0)
      ensures cfg.enabled && hit.None? ==> counters == old(counters).(misses := old(counters).misses + 1)
      ensures forall k :: HeldUnder(k) == if cfg.enabled && k == key && hit.None? then None else old(HeldUnder(k))
    {
      if !cfg.enabled {
        return None;
      }
      lookups := lookups + 1;
      var found := Lookup(shards[shardOf(key)], key);
      if found.None? {
        counters := counters.(misses := counters.misses + 1);
        return None;
      }
      var e := found.value;
      assert ShardOk(shards[shardOf(key)], last, shardOf, shardOf(key), ShardCap(capacity, shardCount));
      var age := Age(e, now);
      if age < e.ttl {
        hit := Some(Hit(e.payload, Max(e.ttl - age, 1), false));
      } else if Max(age - e.ttl, 0) < cfg.staleWindow {
        counters := counters.(staleHits := counters.staleHits + 1);
        hit := Some(Hit(e.payload, STALE_SERVE_TTL, true));
      } else {
        counters := counters.(misses := counters.misses + 1);
        Pop(key);
        return None;
      }
      counters := counters.(hits := counters.hits + 1);
      Promote(key);
    }

    /** Reading an entry makes it the most recent of its shard. */
    method Promote(key: QueryKey)
      requires Valid()
      modifies this`shards
      ensures Valid() && forall k :: HeldUnder(k) == old(HeldUnder(k))
      ensures shards == old(shards)[shardOf(key) := Touch(old(shards)[shardOf(key)], key)]
    {
      var i, cap := shardOf(key), ShardCap(capacity, shardCount);
      var shard := shards[i];
      TouchOk(shard, last, shardOf, i, cap, key);
      ReplaceShard(shards, last, last, shardOf, cap, key, Touch(shard, key));
      shards := shards[i := Touch(shard, key)];
      forall k ensures HeldUnder(k) == old(HeldUnder(k)) {
        TouchKeeps(shard, key, k);
      }
    }

    method Pop(key: QueryKey)
      requires Valid()
      modifies this`shards
      ensures Valid() && forall k :: HeldUnder(k) == if k == key then None else old(HeldUnder(k))
    {
      var i, cap := shardOf(key), ShardCap(capacity, shardCount);
      var shard := shards[i];
      TouchOk(shard, last, shardOf, i, cap, key);
      ReplaceShard(shards, last, last, shardOf, cap, key, Without(shard, key));
      shards := shards[i := Without(shard, key)];
      forall k ensures HeldUnder(k) == if k == key then None else old(HeldUnder(k)) {
        WithoutKeeps(shard, key, k);
      }
    }

    /** Writes one entry; at most the least recent entry of a full shard makes room. */
    method Store(key: QueryKey, e: Entry<P>)
      requires Valid()
      modifies this`shards, this`last
      ensures Valid() && last == old(last)[key := e]
      ensures shards == old(shards)[shardOf(key) := Put(old(shards)[shardOf(key)], key, e, ShardCap(capacity, shardCount))]
      ensures HeldUnder(key) == Some(e)
      ensures forall k :: k != key ==>
                HeldUnder(k) == old(HeldUnder(k))
                || (HeldUnder(k) == None && shardOf(k) == shardOf(key)
                    && |old(shards)[shardOf(key)]| == ShardCap(capacity, shardCount))
    {
      var i, cap := shardOf(key), ShardCap(capacity, shardCount);
      var shard := shards[i];
      PutOk(shard, last, shardOf, i, cap, key, e);
      forall k
        ensures var after := Lookup(Put(shard, key, e, cap), k);
                if k == key then after == Some(e) else after == Lookup(shard, k) || (after == None && |shard| >= cap)
      {
        PutStores(shard, key, e, cap, k);
      }
      ReplaceShard(shards, last, last[key := e], shardOf, cap, key, Put(shard, key, e, cap));
      shards := shards[i := Put(shard, key, e, cap)];
      last := last[key := e];
    }

    /** Caches a response that is worth it, from now on and for its clamped TTL. */
    method Insert(key: QueryKey, payload: P, m: Meta, now: int) returns (stored: bool)
      requires Valid()
      modifies this`shards, this`last
      ensures Valid()
      ensures !stored ==> shards == old(shards) && last == old(last)
      ensures exists base :: IsBaseTtl(m, base) &&
                (stored <==> cfg.enabled && (m.rcode == NOERROR || m.rcode == NXDOMAIN) && !m.truncated && Clamped(base, cfg) > 0) &&
                (stored ==> last == old(last)[key := Entry(payload, now, Clamped(base, cfg))]
                            && HeldUnder(key) == Some(Entry(payload, now, Clamped(base, cfg))))
    {
      var ttl := CacheableTtl(m, cfg);
      stored := cfg.enabled && ttl.Some?;
      if stored {
        Store(key, Entry(payload, now, ttl.value));
      }
    }

    method Clear()
      requires Valid()
      modifies this`shards
      ensures Valid() && forall k :: HeldUnder(k) == None
    {
      for i := 0 to |shards|
        invariant |shards| == shardCount
        invariant forall j :: 0 <= j < i ==> shards[j] == []
        invariant forall j :: i <= j < |shards| ==> shards[j] == old(shards)[j]
      {
        shards := shards[i := []];
      }
    }

    /** Applies new settings: a resize drops the least recent entries, disabling drops all. */
    method Reconfigure(newCfg: Config, newCapacity: nat)
      requires Valid()
      modifies this`shards, this`cfg, this`capacity
      ensures Valid() && cfg == newCfg && capacity == Max(newCapacity, 1)
      ensures forall k :: HeldUnder(k) == old(HeldUnder(k)) || HeldUnder(k) == None
      ensures !newCfg.enabled ==> forall k :: HeldUnder(k) == None
      ensures newCfg.enabled && Max(newCapacity, 1) == old(capacity) ==> shards == old(shards)
    {
      cfg := newCfg;
      var cap := Max(newCapacity, 1);
      if cap != capacity {
        ghost var before := ShardCap(capacity, shardCount);
        capacity := cap;
        var perShard := ShardCap(cap, |shards|);
        for i := 0 to |shards|
          invariant |shards| == shardCount && capacity == cap && cfg == newCfg
          invariant forall j :: 0 <= j < i ==> shards[j] == Resize(old(shards)[j], perShard)
          invariant forall j :: i <= j < |shards| ==> shards[j] == old(shards)[j]
        {
          shards := shards[i := Resize(shards[i], perShard)];
        }
        forall i | 0 <= i < |shards| ensures ShardOk(shards[i], last, shardOf, i, perShard) {
          ResizeOk(old(shards)[i], last, shardOf, i, before, perShard);
        }
        forall k ensures HeldUnder(k) == old(HeldUnder(k)) || HeldUnder(k) == None {
          assert ShardOk(old(shards)[shardOf(k)], last, shardOf, shardOf(k), before);
          ResizeKeeps(old(shards)[shardOf(k)], perShard, k);
        }
      }
      if !newCfg.enabled {
        Clear();
      }
    }

    /** Restores counters of an earlier run; zeros reset them. */
    method SeedCounters(c: Counters)
      requires Valid()
      modifies this`counters, this`lookups, this`base
      ensures Valid() && counters == c && lookups == 0 && base == c
    {
      counters := c;
      lookups, base := 0, c;
    }

    /** The number of entries, which the capacity bounds. */
    method Len() returns (n: nat)
      requires Valid()
      ensures n == Size(shards) <= Max(capacity, shardCount)
    {
      SizeWithinCapacity(shards, last, shardOf, capacity);
      n := 0;
      for i := 0 to |shards|
        invariant n + Size(shards[i..]) == Size(shards)
      {
        n := n + |shards[i]|;
      }
    }
  }
}
