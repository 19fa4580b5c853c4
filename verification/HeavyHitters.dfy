/** The Space-Saving frequency estimator: bounded keys, inherited counts, and its error bounds. */
module HeavyHitters {

  type Counts = map<string, nat>

  function CountOf(c: Counts, key: string): nat {
    if key in c then c[key] else 0
  }

  ghost function Total(c: Counts): nat
    decreases |c|
  {
    if c == map[] then 0 else
      var k :| k in c;
      c[k] + Total(c - {k})
  }

  lemma {:induction false} TotalRemove(c: Counts, x: string)
    requires x in c
    ensures Total(c) == c[x] + Total(c - {x})
    decreases |c|
  {
    var k :| k in c && Total(c) == c[k] + Total(c - {k});
    if k != x {
      TotalRemove(c - {k}, x);
      TotalRemove(c - {x}, k);
      assert c - {k} - {x} == c - {x} - {k};
    }
  }

  lemma TotalUpdate(c: Counts, x: string, v: nat)
    ensures Total(c[x := v]) == Total(c) - CountOf(c, x) + v
  {
    var c' := c[x := v];
    TotalRemove(c', x);
    assert c' - {x} == c - {x};
    if x in c {
      TotalRemove(c, x);
    } else {
      assert c - {x} == c;
    }
  }

  ghost predicate IsMin(c: Counts, m: string) {
    m in c && forall k :: k in c ==> c[m] <= c[k]
  }

  /** Iterates over the map for a least count; equal counts leave the choice open. */
  method FindMin(c: Counts) returns (m: string)
    requires c != map[]
    ensures IsMin(c, m)
  {
    m :| m in c;
    var rest := c.Keys - {m};
    while rest != {}
      invariant rest <= c.Keys && m in c
      invariant forall k :: k in c && k !in rest ==> c[m] <= c[k]
      decreases |rest|
    {
      var k :| k in rest;
      rest := rest - {k};
      if c[k] < c[m] {
        m := k;
      }
    }
  }

  /** The counter `m` is handed to `key`, which inherits its count. */
  function TakeOver(c: Counts, m: string, key: string, amount: nat): Counts
    requires m in c
  {
    (c - {m})[key := c[m] + amount]
  }

  /** One observation: count it, admit it, or let it take over a least counter. */
  ghost predicate BumpStep(c: Counts, c': Counts, key: string, amount: nat, cap: nat) {
    if key in c then c' == c[key := c[key] + amount]
    else if |c| < cap then c' == c[key := amount]
    else if c == map[] then c' == c
    else exists m :: IsMin(c, m) && c' == TakeOver(c, m, key, amount)
  }

  method Bump(c: Counts, key: string, amount: nat, cap: nat) returns (c': Counts)
    ensures BumpStep(c, c', key, amount, cap)
  {
    if key in c {
      return c[key := c[key] + amount];
    }
    if |c| < cap {
      return c[key := amount];
    }
    if c == map[] {
      return c;
    }
    var m := FindMin(c);
    return TakeOver(c, m, key, amount);
  }

  lemma TakeOverFacts(c: Counts, m: string, key: string, amount: nat)
    requires m in c && key !in c
    ensures Total(TakeOver(c, m, key, amount)) == Total(c) + amount
    ensures |TakeOver(c, m, key, amount)| == |c|
  {
    var rest := c - {m};
    TotalRemove(c, m);
    TotalUpdate(rest, key, c[m] + amount);
    assert rest.Keys == c.Keys - {m};
    assert TakeOver(c, m, key, amount).Keys == rest.Keys + {key};
  }

  /** Whatever is evicted, an observation adds exactly its weight to the total. */
  lemma BumpAddsWeight(c: Counts, c': Counts, key: string, amount: nat, cap: nat)
    requires BumpStep(c, c', key, amount, cap) && cap >= 1
    ensures Total(c') == Total(c) + amount
  {
    if key in c {
      TotalUpdate(c, key, c[key] + amount);
    } else if |c| < cap {
      TotalUpdate(c, key, amount);
    } else {
      var m :| IsMin(c, m) && c' == TakeOver(c, m, key, amount);
      TakeOverFacts(c, m, key, amount);
    }
  }

  // ---- arithmetic: repeated addition keeps products out of the invariants ----

  function Times(x: int, n: nat): int {
    if n == 0 then 0 else x + Times(x, n - 1)
  }

  lemma {:induction false} TimesIsProduct(x: int, n: nat)
    ensures Times(x, n) == x * n
  {
    if n > 0 {
      TimesIsProduct(x, n - 1);
    }
  }

  lemma {:induction false} TimesMonotone(x: int, y: int, n: nat)
    requires x <= y
    ensures Times(x, n) <= Times(y, n)
  {
    if n > 0 {
      TimesMonotone(x, y, n - 1);
    }
  }

  lemma {:induction false} TimesAdds(x: int, y: int, n: nat)
    ensures Times(x + y, n) == Times(x, n) + Times(y, n)
  {
    if n > 0 {
      TimesAdds(x, y, n - 1);
    }
  }

  lemma TimesBoundsQuotient(x: int, cap: nat, n: nat)
    requires cap >= 1 && Times(x, cap) <= n
    ensures x <= n / cap
  {
    TimesIsProduct(x, cap);
    if x > n / cap {
      var q := n / cap;
      TimesMonotone(q + 1, x, cap);
      TimesIsProduct(q + 1, cap);
      QuotientStep(n, cap);
    }
  }

  lemma QuotientStep(n: nat, cap: nat)
    requires cap >= 1
    ensures (n / cap + 1) * cap > n
  {
  }

  lemma {:induction false} TotalAtLeast(c: Counts, v: nat)
    requires forall k :: k in c ==> v <= c[k]
    ensures Times(v, |c|) <= Total(c)
    decreases |c|
  {
    if c != map[] {
      var k :| k in c;
      TotalRemove(c, k);
      var rest := c - {k};
      assert rest.Keys == c.Keys - {k};
      assert |rest| == |c| - 1;
      TotalAtLeast(rest, v);
    }
  }

  // ---- error bounds over whole streams ----

  type Stream = seq<(string, nat)>

  function Weight(s: Stream): nat {
    if s == [] then 0 else Weight(s[..|s| - 1]) + s[|s| - 1].1
  }

  /** How much of the stream was really observed under `key`. */
  function TrueCount(s: Stream, key: string): nat {
    if s == [] then 0
    else TrueCount(s[..|s| - 1], key) + (if s[|s| - 1].0 == key then s[|s| - 1].1 else 0)
  }

  /** `c` can be the estimator's state after the stream, started from `start`, whatever its size. */
  ghost predicate Reaches(start: Counts, s: Stream, cap: nat, c: Counts)
    decreases |s|
  {
    if s == [] then c == start
    else exists c0 :: Follows(s, cap, c0, c) && Reaches(start, s[..|s| - 1], cap, c0)
  }

  /** What the start says of a key, and what the stream adds. */
  ghost function Told(start: Counts, s: Stream, key: string): nat {
    CountOf(start, key) + TrueCount(s, key)
  }

  ghost function Mass(start: Counts, s: Stream): nat {
    Total(start) + Weight(s)
  }

  function Larger(a: nat, b: nat): nat {
    if a < b then b else a
  }

  /** The last observation of the stream can lead from `c0` to `c`. */
  ghost predicate Follows(s: Stream, cap: nat, c0: Counts, c: Counts) {
    s != [] && BumpStep(c0, c, s[|s| - 1].0, s[|s| - 1].1, cap)
  }

  ghost predicate UnderAll(v: nat, c: Counts) {
    forall x :: x in c ==> v <= c[x]
  }

  /**
   A key truly observed `t` times out of `n`: its counter is never low and at most
   a share high; without a counter, it is under every counter of a full table.
   */
  ghost predicate KeyBounded(t: nat, n: nat, cap: nat, c: Counts, k: string) {
    if k in c then t <= c[k] && Times(c[k] - t, cap) <= n
    else t > 0 ==> |c| >= cap && UnderAll(t, c)
  }

  ghost predicate Bounded(start: Counts, s: Stream, cap: nat, c: Counts) {
    && |c| <= Larger(cap, |start|) && Total(c) == Mass(start, s)
    && forall k :: KeyBounded(Told(start, s, k), Mass(start, s), cap, c, k)
  }

  lemma {:induction false} TimesGrows(v: nat, m: nat, n: nat)
    requires m <= n
    ensures Times(v, m) <= Times(v, n)
    decreases n
  {
    if m < n {
      TimesGrows(v, m, n - 1);
    }
  }

  /** A value that no counter of a full table undercuts is at most a share. */
  lemma LeastIsSmall(cap: nat, c: Counts, v: nat)
    requires |c| >= cap && UnderAll(v, c)
    ensures Times(v, cap) <= Total(c)
  {
    TotalAtLeast(c, v);
    TimesGrows(v, cap, |c|);
  }

  lemma CountedKeepsBounds(t: nat, n: nat, cap: nat, c: Counts, key: string, amount: nat, k: string)
    requires KeyBounded(t, n, cap, c, k) && key in c
    ensures KeyBounded(t + (if k == key then amount else 0), n + amount, cap, c[key := c[key] + amount], k)
  {
    var c' := c[key := c[key] + amount];
    assert c'.Keys == c.Keys;
    if k == key {
      assert c'[k] - (t + amount) == c[k] - t;
    }
  }

  lemma AdmittedKeepsBounds(t: nat, n: nat, cap: nat, c: Counts, key: string, amount: nat, k: string)
    requires KeyBounded(t, n, cap, c, k) && key !in c && |c| < cap
    ensures KeyBounded(t + (if k == key then amount else 0), n + amount, cap, c[key := amount], k)
  {
    if k == key {
      assert t == 0;
      TimesIsProduct(0, cap);
    }
  }

  lemma NewcomerBounded(t: nat, n: nat, cap: nat, c: Counts, m: string, key: string, amount: nat, c': Counts)
    requires KeyBounded(t, n, cap, c, key) && key !in c && |c| >= cap && IsMin(c, m) && Total(c) == n
    requires key in c' && c'[key] == c[m] + amount
    ensures KeyBounded(t + amount, n + amount, cap, c', key)
  {
    var over: int := c[m] - t;
    LeastIsSmall(cap, c, c[m]);
    TimesMonotone(over, c[m], cap);
    assert c'[key] - (t + amount) == over;
  }

  lemma EvictedBounded(t: nat, n: nat, cap: nat, c: Counts, m: string, amount: nat, c': Counts)
    requires KeyBounded(t, n, cap, c, m) && IsMin(c, m) && m !in c' && |c'| >= cap
    requires UnderAll(c[m], c')
    ensures KeyBounded(t, n + amount, cap, c', m)
  {
  }

  lemma OthersBounded(t: nat, n: nat, cap: nat, c: Counts, m: string, amount: nat, c': Counts, k: string)
    requires KeyBounded(t, n, cap, c, k) && IsMin(c, m) && |c'| >= cap
    requires (k in c' <==> k in c) && (k in c ==> c'[k] == c[k]) && UnderAll(c[m], c')
    ensures KeyBounded(t, n + amount, cap, c', k)
  {
    if k !in c && t > 0 {
      assert UnderAll(t, c') by {
        assert t <= c[m];
      }
    }
  }

  lemma TakeOverValues(c: Counts, m: string, key: string, amount: nat, c': Counts)
    requires IsMin(c, m) && key !in c && c' == TakeOver(c, m, key, amount)
    ensures key in c' && c'[key] == c[m] + amount && m !in c' && |c'| == |c| && UnderAll(c[m], c')
  {
    TakeOverFacts(c, m, key, amount);
  }

  lemma TakeOverKeepsValue(c: Counts, m: string, key: string, amount: nat, c': Counts, k: string)
    requires m in c && c' == TakeOver(c, m, key, amount) && k != key && k != m
    ensures (k in c' <==> k in c) && (k in c ==> c'[k] == c[k])
  {
  }

  lemma EvictionKeepsBounds(t: nat, n: nat, cap: nat, c: Counts, m: string, key: string, amount: nat, k: string, c': Counts)
    requires KeyBounded(t, n, cap, c, k) && key !in c && |c| >= cap && IsMin(c, m) && Total(c) == n
    requires c' == TakeOver(c, m, key, amount)
    ensures KeyBounded(t + (if k == key then amount else 0), n + amount, cap, c', k)
  {
    TakeOverValues(c, m, key, amount, c');
    if k == key {
      NewcomerBounded(t, n, cap, c, m, key, amount, c');
    } else if k == m {
      EvictedBounded(t, n, cap, c, m, amount, c');
    } else {
      TakeOverKeepsValue(c, m, key, amount, c', k);
      OthersBounded(t, n, cap, c, m, amount, c', k);
    }
  }

  /** One observation keeps the bounds of every key; `t` and `n` count before it. */
  lemma BumpKeepsKey(t: nat, n: nat, cap: nat, c: Counts, c': Counts, key: string, amount: nat, k: string)
    ensures Sized(c, cap, n) && KeyBounded(t, n, cap, c, k) && BumpStep(c, c', key, amount, cap)
            ==> KeyBounded(t + (if k == key then amount else 0), n + amount, cap, c', k)
  {
    if Sized(c, cap, n) && KeyBounded(t, n, cap, c, k) && BumpStep(c, c', key, amount, cap) {
      if key in c {
        CountedKeepsBounds(t, n, cap, c, key, amount, k);
      } else if |c| < cap {
        AdmittedKeepsBounds(t, n, cap, c, key, amount, k);
      } else {
        var m :| IsMin(c, m) && c' == TakeOver(c, m, key, amount);
        EvictionKeepsBounds(t, n, cap, c, m, key, amount, k, c');
      }
    }
  }

  ghost predicate Sized(c: Counts, cap: nat, n: nat) {
    1 <= cap && Total(c) == n
  }

  lemma BumpKeepsSize(c: Counts, c': Counts, key: string, amount: nat, cap: nat, room: nat)
    requires BumpStep(c, c', key, amount, cap) && |c| <= room && cap <= room
    ensures |c'| <= room
  {
    if key in c {
      assert c'.Keys == c.Keys;
    } else if |c| < cap {
      assert c'.Keys == c.Keys + {key};
    } else if c != map[] {
      var m :| IsMin(c, m) && c' == TakeOver(c, m, key, amount);
      TakeOverFacts(c, m, key, amount);
    }
  }

  lemma LastObservation(start: Counts, s: Stream, k: string, p: Stream)
    requires s != [] && p == s[..|s| - 1]
    ensures Told(start, s, k) == Told(start, p, k) + (if k == s[|s| - 1].0 then s[|s| - 1].1 else 0)
    ensures Mass(start, s) == Mass(start, p) + s[|s| - 1].1
  {
  }

  lemma ObservationKeepsKey(start: Counts, s: Stream, p: Stream, cap: nat, c0: Counts, c: Counts, k: string)
    requires s != [] && p == s[..|s| - 1]
    ensures Sized(c0, cap, Mass(start, p)) && KeyBounded(Told(start, p, k), Mass(start, p), cap, c0, k) && Follows(s, cap, c0, c)
            ==> KeyBounded(Told(start, s, k), Mass(start, s), cap, c, k)
  {
    LastObservation(start, s, k, p);
    BumpKeepsKey(Told(start, p, k), Mass(start, p), cap, c0, c, s[|s| - 1].0, s[|s| - 1].1, k);
  }

  lemma ObservationKeepsSize(start: Counts, s: Stream, p: Stream, cap: nat, c0: Counts, c: Counts, room: nat)
    requires cap >= 1 && Follows(s, cap, c0, c) && p == s[..|s| - 1] && Total(c0) == Mass(start, p) && |c0| <= room && cap <= room
    ensures Total(c) == Mass(start, s) && |c| <= room
  {
    LastObservation(start, s, "", p);
    BumpAddsWeight(c0, c, s[|s| - 1].0, s[|s| - 1].1, cap);
    BumpKeepsSize(c0, c, s[|s| - 1].0, s[|s| - 1].1, cap, room);
  }

  lemma ObservationKeepsBounds(start: Counts, s: Stream, cap: nat, c0: Counts, c: Counts)
    requires cap >= 1 && Follows(s, cap, c0, c) && Bounded(start, s[..|s| - 1], cap, c0)
    ensures Bounded(start, s, cap, c)
  {
    var p := s[..|s| - 1];
    ObservationKeepsSize(start, s, p, cap, c0, c, Larger(cap, |start|));
    forall k ensures KeyBounded(Told(start, s, k), Mass(start, s), cap, c, k) {
      ObservationKeepsKey(start, s, p, cap, c0, c, k);
    }
  }

  lemma StartIsBounded(start: Counts, cap: nat)
    ensures Bounded(start, [], cap, start)
  {
    TimesIsProduct(0, cap);
  }

  /** Over every stream, from every start and for every choice of least counters. */
  lemma {:induction false} EveryRunIsBounded(start: Counts, s: Stream, cap: nat, c: Counts)
    requires cap >= 1 && Reaches(start, s, cap, c)
    ensures Bounded(start, s, cap, c)
    decreases |s|
  {
    if s == [] {
      StartIsBounded(start, cap);
    } else {
      var c0 :| Follows(s, cap, c0, c) && Reaches(start, s[..|s| - 1], cap, c0);
      EveryRunIsBounded(start, s[..|s| - 1], cap, c0);
      ObservationKeepsBounds(start, s, cap, c0, c);
    }
  }

  lemma KeyError(t: nat, n: nat, cap: nat, c: Counts, key: string)
    requires cap >= 1 && KeyBounded(t, n, cap, c, key) && Total(c) == n
    ensures key in c ==> t <= c[key] <= t + n / cap
    ensures key !in c ==> t <= n / cap
  {
    if key in c {
      TimesBoundsQuotient(c[key] - t, cap, n);
    } else if t > 0 {
      LeastIsSmall(cap, c, t);
      TimesBoundsQuotient(t, cap, n);
    }
  }

  /**
   From any counters, such as ones restored from a snapshot that hold more keys than
   `cap`: no more keys than those or `cap`, counters summing to all they stood for
   and N, each at least what start and stream say of its key and over by at most a
   share of that sum, and every key above that share tracked.
   */
  lemma SpaceSavingFrom(start: Counts, s: Stream, cap: nat, c: Counts, key: string)
    requires cap >= 1 && Reaches(start, s, cap, c)
    ensures |c| <= Larger(cap, |start|) && Total(c) == Mass(start, s)
    ensures key in c ==> Told(start, s, key) <= c[key] <= Told(start, s, key) + Mass(start, s) / cap
    ensures Told(start, s, key) > Mass(start, s) / cap ==> key in c
  {
    EveryRunIsBounded(start, s, cap, c);
    KeyError(Told(start, s, key), Mass(start, s), cap, c, key);
  }

  /**
   After any stream of total weight N: at most `cap` keys, counters summing to N,
   each overestimating by at most N / cap, and every key heavier than N / cap tracked.
   */
  lemma SpaceSaving(s: Stream, cap: nat, c: Counts, key: string)
    requires cap >= 1 && Reaches(map[], s, cap, c)
    ensures |c| <= cap && Total(c) == Weight(s)
    ensures key in c ==> TrueCount(s, key) <= c[key] <= TrueCount(s, key) + Weight(s) / cap
    ensures TrueCount(s, key) > Weight(s) / cap ==> key in c
  {
    FromNothing(s, key);
    SpaceSavingFrom(map[], s, cap, c, key);
  }

  lemma FromNothing(s: Stream, key: string)
    ensures Mass(map[], s) == Weight(s) && Told(map[], s, key) == TrueCount(s, key)
  {
    assert Total(map[]) == 0;
  }

  // ---- merging shards ----

  function Merge(a: Counts, b: Counts): Counts {
    map k | k in a.Keys + b.Keys :: CountOf(a, k) + CountOf(b, k)
  }

  lemma MergeSplit(a: Counts, b: Counts, k: string)
    requires k in b
    ensures Merge(a, b) == Merge(a, b - {k})[k := CountOf(a, k) + b[k]]
    ensures CountOf(Merge(a, b - {k}), k) == CountOf(a, k)
  {
  }

  lemma {:induction false} MergeTotal(a: Counts, b: Counts)
    ensures Total(Merge(a, b)) == Total(a) + Total(b)
    decreases |b|
  {
    if b == map[] {
      assert Merge(a, b) == a;
    } else {
      var k :| k in b;
      TotalRemove(b, k);
      MergeTotal(a, b - {k});
      MergeSplit(a, b, k);
      TotalUpdate(Merge(a, b - {k}), k, CountOf(a, k) + b[k]);
    }
  }

  function MergeAll(cs: seq<Counts>): Counts {
    if cs == [] then map[] else Merge(MergeAll(cs[..|cs| - 1]), cs[|cs| - 1])
  }

  function TotalWeight(ss: seq<Stream>): nat {
    if ss == [] then 0 else TotalWeight(ss[..|ss| - 1]) + Weight(ss[|ss| - 1])
  }

  function TotalTrue(ss: seq<Stream>, key: string): nat {
    if ss == [] then 0 else TotalTrue(ss[..|ss| - 1], key) + TrueCount(ss[|ss| - 1], key)
  }

  /** `x` is within a share of `n` of `y`, on either side. */
  ghost predicate Near(x: int, y: int, cap: nat, n: nat) {
    Times(x - y, cap) <= n && Times(y - x, cap) <= n
  }

  lemma NearAdds(x: int, y: int, m: nat, x': int, y': int, n: nat, cap: nat)
    requires Near(x, y, cap, m) && Near(x', y', cap, n)
    ensures Near(x + x', y + y', cap, m + n)
  {
    TimesAdds(x - y, x' - y', cap);
    TimesAdds(y - x, y' - x', cap);
    assert (x + x') - (y + y') == (x - y) + (x' - y');
    assert (y + y') - (x + x') == (y - x) + (y' - x');
  }

  /** One shard's counter, or its absence, is off by at most its share. */
  lemma CounterIsNear(t: nat, n: nat, cap: nat, c: Counts, key: string)
    requires cap >= 1 && KeyBounded(t, n, cap, c, key) && Total(c) == n
    ensures Near(CountOf(c, key), t, cap, n)
  {
    var x: int := t;
    TimesIsProduct(0, cap);
    if key in c {
      TimesMonotone(x - c[key], 0, cap);
    } else {
      TimesMonotone(0 - x, 0, cap);
      if t > 0 {
        LeastIsSmall(cap, c, t);
      } else {
        assert x - 0 == 0;
      }
    }
  }

  ghost predicate ShardNear(s: Stream, cap: nat, c: Counts, key: string) {
    Near(CountOf(c, key), TrueCount(s, key), cap, Weight(s)) && Total(c) == Weight(s)
  }

  lemma ShardError(s: Stream, cap: nat, c: Counts, key: string)
    requires cap >= 1 && Reaches(map[], s, cap, c)
    ensures ShardNear(s, cap, c, key)
  {
    EveryRunIsBounded(map[], s, cap, c);
    FromNothing(s, key);
    CounterIsNear(TrueCount(s, key), Weight(s), cap, c, key);
  }

  ghost predicate MergedNear(ss: seq<Stream>, cap: nat, cs: seq<Counts>, key: string) {
    && Near(CountOf(MergeAll(cs), key), TotalTrue(ss, key), cap, TotalWeight(ss))
    && Total(MergeAll(cs)) == TotalWeight(ss)
  }

  lemma NoShards(cap: nat, key: string)
    ensures MergedNear([], cap, [], key)
  {
    TimesIsProduct(0, cap);
  }

  lemma OneShardMore(ss: seq<Stream>, cap: nat, cs: seq<Counts>, key: string, s: Stream, c: Counts)
    requires |ss| == |cs| && MergedNear(ss, cap, cs, key) && ShardNear(s, cap, c, key)
    ensures MergedNear(ss + [s], cap, cs + [c], key)
  {
    assert (ss + [s])[..|ss|] == ss && (cs + [c])[..|cs|] == cs;
    MergeNear(MergeAll(cs), TotalTrue(ss, key), TotalWeight(ss), c, TrueCount(s, key), Weight(s), cap, key);
  }

  lemma {:induction false} AllShardsNear(ss: seq<Stream>, cap: nat, cs: seq<Counts>, key: string)
    requires |ss| == |cs| && forall i :: 0 <= i < |ss| ==> ShardNear(ss[i], cap, cs[i], key)
    ensures MergedNear(ss, cap, cs, key)
    decreases |ss|
  {
    if ss == [] {
      NoShards(cap, key);
    } else {
      var n := |ss| - 1;
      AllShardsNear(ss[..n], cap, cs[..n], key);
      OneShardMore(ss[..n], cap, cs[..n], key, ss[n], cs[n]);
      assert ss == ss[..n] + [ss[n]] && cs == cs[..n] + [cs[n]];
    }
  }

  /** However records fall to shards, the merged estimate is off by at most N / cap either way. */
  lemma MergedError(ss: seq<Stream>, cap: nat, cs: seq<Counts>, key: string)
    requires cap >= 1 && |ss| == |cs| && forall i :: 0 <= i < |ss| ==> Reaches(map[], ss[i], cap, cs[i])
    ensures Near(CountOf(MergeAll(cs), key), TotalTrue(ss, key), cap, TotalWeight(ss))
    ensures Total(MergeAll(cs)) == TotalWeight(ss)
  {
    forall i | 0 <= i < |ss| ensures ShardNear(ss[i], cap, cs[i], key) {
      ShardError(ss[i], cap, cs[i], key);
    }
    AllShardsNear(ss, cap, cs, key);
  }

  lemma MergeNear(a: Counts, t: nat, m: nat, b: Counts, u: nat, n: nat, cap: nat, key: string)
    requires Near(CountOf(a, key), t, cap, m) && Total(a) == m && Near(CountOf(b, key), u, cap, n) && Total(b) == n
    ensures Near(CountOf(Merge(a, b), key), t + u, cap, m + n) && Total(Merge(a, b)) == m + n
  {
    MergeTotal(a, b);
    NearAdds(CountOf(a, key), t, m, CountOf(b, key), u, n, cap);
  }

  lemma NearQuotient(x: int, y: int, cap: nat, n: nat)
    requires cap >= 1 && Near(x, y, cap, n)
    ensures y - n / cap <= x <= y + n / cap
  {
    TimesBoundsQuotient(x - y, cap, n);
    TimesBoundsQuotient(y - x, cap, n);
  }

  /** The same bound read as a quotient. */
  lemma MergedEstimate(ss: seq<Stream>, cap: nat, cs: seq<Counts>, key: string)
    requires cap >= 1 && |ss| == |cs| && forall i :: 0 <= i < |ss| ==> Reaches(map[], ss[i], cap, cs[i])
    ensures var n := TotalWeight(ss) / cap;
            TotalTrue(ss, key) - n <= CountOf(MergeAll(cs), key) <= TotalTrue(ss, key) + n
  {
    MergedError(ss, cap, cs, key);
    NearQuotient(CountOf(MergeAll(cs), key), TotalTrue(ss, key), cap, TotalWeight(ss));
  }
}
