/** Export, downtime and import end to end: what the new process holds of what the old one held. */
module Restart {
  import opened Wrappers
  import opened Keys
  import opened Wire
  import opened Snapshot
  import opened DnsCache
  import opened Persist
  import Ageing

  ghost predicate DistinctKeys(recs: seq<Rec>) {
    forall p, q :: 0 <= p < q < |recs| ==> recs[p].key != recs[q].key
  }

  // ---- what the importing cache holds ----

  /** Whether a record is restored into shard `i`. */
  predicate Arrives<M>(r: Rec, unix: nat, m: Moment, shardOf: QueryKey -> nat, i: nat) {
    Imported<M>(r, unix, m).Some? && shardOf(r.key) == i
  }

  /** The entries put into shard `i`, the last one put in front. */
  function Arrived<M>(recs: seq<Rec>, unix: nat, m: Moment, shardOf: QueryKey -> nat, i: nat): Shard<Stored<M>>
    decreases |recs|
  {
    if recs == [] then []
    else
      var n := |recs| - 1;
      var front := Arrived<M>(recs[..n], unix, m, shardOf, i);
      if Arrives<M>(recs[n], unix, m, shardOf, i) then [(recs[n].key, Imported<M>(recs[n], unix, m).value)] + front else front
  }

  /** How many records after the `p`th are restored into shard `i`. */
  function LaterArrivals<M>(recs: seq<Rec>, p: nat, unix: nat, m: Moment, shardOf: QueryKey -> nat, i: nat): nat
    requires p < |recs|
    decreases |recs|
  {
    var n := |recs| - 1;
    if p == n then 0
    else LaterArrivals<M>(recs[..n], p, unix, m, shardOf, i) + (if Arrives<M>(recs[n], unix, m, shardOf, i) then 1 else 0)
  }

  lemma {:induction false} ArrivedKeys<M>(recs: seq<Rec>, unix: nat, m: Moment, shardOf: QueryKey -> nat, i: nat, key: QueryKey)
    requires forall p :: 0 <= p < |recs| ==> recs[p].key != key
    ensures Find(Arrived<M>(recs, unix, m, shardOf, i), key) == |Arrived<M>(recs, unix, m, shardOf, i)|
    decreases |recs|
  {
    if recs != [] {
      var n := |recs| - 1;
      ArrivedKeys<M>(recs[..n], unix, m, shardOf, i, key);
      var front := Arrived<M>(recs[..n], unix, m, shardOf, i);
      if Arrives<M>(recs[n], unix, m, shardOf, i) {
        assert ([(recs[n].key, Imported<M>(recs[n], unix, m).value)] + front)[1..] == front;
      }
    }
  }

  lemma PrefixDistinct(recs: seq<Rec>, n: nat)
    requires DistinctKeys(recs) && n < |recs|
    ensures DistinctKeys(recs[..n]) && forall p :: 0 <= p < n ==> recs[..n][p].key != recs[n].key
  {
  }

  lemma {:induction false} ArrivedDistinct<M>(recs: seq<Rec>, unix: nat, m: Moment, shardOf: QueryKey -> nat, i: nat)
    requires DistinctKeys(recs)
    ensures Distinct(Arrived<M>(recs, unix, m, shardOf, i))
    decreases |recs|
  {
    if recs != [] {
      var n := |recs| - 1;
      PrefixDistinct(recs, n);
      ArrivedDistinct<M>(recs[..n], unix, m, shardOf, i);
      ArrivedKeys<M>(recs[..n], unix, m, shardOf, i, recs[n].key);
      if Arrives<M>(recs[n], unix, m, shardOf, i) {
        FrontKeeps(Arrived<M>(recs[..n], unix, m, shardOf, i), recs[n].key, Imported<M>(recs[n], unix, m).value, recs[n].key);
      }
    }
  }

  /** A restored record stands as far from the front as records were restored after it. */
  lemma {:induction false} ArrivedAt<M>(recs: seq<Rec>, p: nat, unix: nat, m: Moment, shardOf: QueryKey -> nat, i: nat)
    requires DistinctKeys(recs) && p < |recs|
    ensures var all := Arrived<M>(recs, unix, m, shardOf, i);
            if Arrives<M>(recs[p], unix, m, shardOf, i)
            then Find(all, recs[p].key) == LaterArrivals<M>(recs, p, unix, m, shardOf, i) && Lookup(all, recs[p].key) == Imported<M>(recs[p], unix, m)
            else Lookup(all, recs[p].key) == None
    decreases |recs|
  {
    var n := |recs| - 1;
    var prefix, front := recs[..n], Arrived<M>(recs[..n], unix, m, shardOf, i);
    PrefixDistinct(recs, n);
    ArrivedDistinct<M>(prefix, unix, m, shardOf, i);
    ArrivedKeys<M>(prefix, unix, m, shardOf, i, recs[n].key);
    if p < n {
      assert prefix[p] == recs[p];
      ArrivedAt<M>(prefix, p, unix, m, shardOf, i);
    }
    if Arrives<M>(recs[n], unix, m, shardOf, i) {
      FrontKeeps(front, recs[n].key, Imported<M>(recs[n], unix, m).value, recs[p].key);
    }
  }

  lemma PutOnResized<P>(a: Shard<P>, key: QueryKey, e: Entry<P>, cap: nat)
    requires cap >= 1 && Find(a, key) == |a|
    ensures Put(Resize(a, cap), key, e, cap) == Resize([(key, e)] + a, cap)
  {
    var r := Resize(a, cap);
    FindAbsent(r, key);
    assert Without(r, key) == r;
    if |a| >= cap {
      assert ([(key, e)] + a)[..cap] == [(key, e)] + a[..cap - 1];
      assert ([(key, e)] + r)[..cap] == [(key, e)] + a[..cap - 1];
    }
  }

  function EmptyShards<M>(n: nat): (r: seq<Shard<Stored<M>>>)
    ensures |r| == n && forall i :: 0 <= i < n ==> r[i] == []
  {
    if n == 0 then [] else EmptyShards(n - 1) + [[]]
  }

  function Empty<M>(n: nat): Restored<M> {
    Restored(EmptyShards(n), map[], 0)
  }

  /** After an import into an empty cache each shard holds the last arrivals it has room for, the last one in front. */
  lemma {:induction false} ShardAfterImport<M>(n: nat, recs: seq<Rec>, unix: nat, m: Moment, place: Place, i: nat)
    requires DistinctKeys(recs) && i < n && place.cap >= 1 && forall k :: place.shardOf(k) < n
    ensures var after := RestoreAll<M>(Empty(n), recs, unix, m, place).shards;
            |after| == n && after[i] == Resize(Arrived<M>(recs, unix, m, place.shardOf, i), place.cap)
    decreases |recs|
  {
    if recs != [] {
      var k := |recs| - 1;
      PrefixDistinct(recs, k);
      ShardAfterImport<M>(n, recs[..k], unix, m, place, i);
      ArrivedKeys<M>(recs[..k], unix, m, place.shardOf, i, recs[k].key);
      var e := Imported<M>(recs[k], unix, m);
      if e.Some? {
        PutOnResized(Arrived<M>(recs[..k], unix, m, place.shardOf, i), recs[k].key, e.value, place.cap);
      }
    }
  }

  /**
   A record is held after an import into an empty cache if and only if it is
   restored at all and fewer records than a shard holds are restored after it into
   the same shard.
   */
  lemma {:induction false} HeldAfterImportIff<M>(n: nat, recs: seq<Rec>, unix: nat, m: Moment, place: Place, p: nat)
    requires DistinctKeys(recs) && p < |recs| && place.cap >= 1 && forall k :: place.shardOf(k) < n
    ensures var i := place.shardOf(recs[p].key);
            Held(RestoreAll<M>(Empty(n), recs, unix, m, place).shards, place.shardOf, recs[p].key)
            == if LaterArrivals<M>(recs, p, unix, m, place.shardOf, i) < place.cap then Imported<M>(recs[p], unix, m) else None
  {
    var i := place.shardOf(recs[p].key);
    var all := Arrived<M>(recs, unix, m, place.shardOf, i);
    ShardAfterImport<M>(n, recs, unix, m, place, i);
    ArrivedDistinct<M>(recs, unix, m, place.shardOf, i);
    ArrivedAt<M>(recs, p, unix, m, place.shardOf, i);
    ResizeKeeps(all, place.cap, recs[p].key);
  }

  /** Imports into an empty cache, and says what it then holds. */
  method ImportFresh<M>(cache: Cache<Stored<M>>, lib: Lib, data: Bytes, m: Moment) returns (restored: nat)
    requires cache.Valid() && m.window == cache.cfg.staleWindow && cache.last == map[] && cache.shards == EmptyShards(cache.shardCount)
    modifies cache`shards, cache`last
    ensures cache.Valid()
    ensures match DecodeSnapshot(lib, data)
            case None => restored == 0 && forall k :: cache.HeldUnder(k) == None
            case Some(s) =>
              DistinctKeys(s.recs) ==>
                forall p: nat :: p < |s.recs| ==>
                  cache.HeldUnder(s.recs[p].key) == HeldRecord<M>(s.recs, p, s.unix, m, PlaceOf(cache))
  {
    restored := ImportSnapshot(cache, lib, data, m);
    ghost var place := PlaceOf(cache);
    ghost var s := DecodeSnapshot(lib, data);
    if s.Some? && DistinctKeys(s.value.recs) {
      forall p: nat | p < |s.value.recs|
        ensures cache.HeldUnder(s.value.recs[p].key) == HeldRecord<M>(s.value.recs, p, s.value.unix, m, place)
      {
        HeldAfterImportIff<M>(cache.shardCount, s.value.recs, s.value.unix, m, place, p);
      }
    }
  }

  /** The entry held for the `p`th record: its own, unless its shard took too many after it. */
  ghost function HeldRecord<M>(recs: seq<Rec>, p: nat, unix: nat, m: Moment, place: Place): Option<Entry<Stored<M>>>
    requires p < |recs|
  {
    if LaterArrivals<M>(recs, p, unix, m, place.shardOf, place.shardOf(recs[p].key)) < place.cap then Imported<M>(recs[p], unix, m) else None
  }

  // ---- the records of a cache have distinct keys ----

  lemma {:induction false} ShardRecordFrom<M>(s: Shard<Stored<M>>, n: nat, c: Ageing.Clocks, window: nat, p: nat) returns (j: nat)
    requires n <= |s| && p < |ShardRecords(s, n, c, window)|
    ensures j < n && s[j].0 == ShardRecords(s, n, c, window)[p].key
    decreases n
  {
    if p < |ShardRecords(s, n - 1, c, window)| {
      j := ShardRecordFrom(s, n - 1, c, window, p);
    } else {
      j := n - 1;
    }
  }

  lemma {:induction false} ShardKeysDistinct<M>(s: Shard<Stored<M>>, n: nat, c: Ageing.Clocks, window: nat)
    requires n <= |s| && Distinct(s)
    ensures DistinctKeys(ShardRecords(s, n, c, window))
    decreases n
  {
    if n > 0 {
      ShardKeysDistinct(s, n - 1, c, window);
      var front := ShardRecords(s, n - 1, c, window);
      forall p: nat | p < |front| ensures front[p].key != s[n - 1].0 {
        var j := ShardRecordFrom(s, n - 1, c, window, p);
      }
    }
  }

  ghost predicate ShardsOk<M>(shards: seq<Shard<Stored<M>>>, shardOf: QueryKey -> nat) {
    forall i, j :: 0 <= i < |shards| && 0 <= j < |shards[i]| ==> Distinct(shards[i]) && shardOf(shards[i][j].0) == i
  }

  lemma {:induction false} CacheRecordFrom<M>(shards: seq<Shard<Stored<M>>>, shardOf: QueryKey -> nat, n: nat, c: Ageing.Clocks,
                                              window: nat, p: nat)
    requires n <= |shards| && ShardsOk(shards, shardOf) && p < |CacheRecords(shards, n, c, window)|
    ensures shardOf(CacheRecords(shards, n, c, window)[p].key) < n
    decreases n
  {
    var front := CacheRecords(shards, n - 1, c, window);
    if p < |front| {
      CacheRecordFrom(shards, shardOf, n - 1, c, window, p);
    } else {
      var j := ShardRecordFrom(shards[n - 1], |shards[n - 1]|, c, window, p - |front|);
    }
  }

  lemma JoinDistinct(a: seq<Rec>, b: seq<Rec>)
    requires DistinctKeys(a) && DistinctKeys(b)
    requires forall p, q :: 0 <= p < |a| && 0 <= q < |b| ==> a[p].key != b[q].key
    ensures DistinctKeys(a + b)
  {
  }

  lemma {:induction false} CacheKeysDistinct<M>(shards: seq<Shard<Stored<M>>>, shardOf: QueryKey -> nat, n: nat, c: Ageing.Clocks, window: nat)
    requires n <= |shards| && ShardsOk(shards, shardOf)
    ensures DistinctKeys(CacheRecords(shards, n, c, window))
    decreases n
  {
    if n > 0 {
      var s := shards[n - 1];
      var front, back := CacheRecords(shards, n - 1, c, window), ShardRecords(s, |s|, c, window);
      CacheKeysDistinct(shards, shardOf, n - 1, c, window);
      if s != [] {
        assert shardOf(s[0].0) == n - 1;
        ShardKeysDistinct(s, |s|, c, window);
      }
      forall p: nat, q: nat | p < |front| && q < |back| ensures front[p].key != back[q].key {
        CacheRecordFrom(shards, shardOf, n - 1, c, window, p);
        var j := ShardRecordFrom(s, |s|, c, window, q);
      }
      JoinDistinct(front, back);
    }
  }

  // ---- and hold every servable entry ----

  lemma {:induction false} ShardRecordOf<M>(s: Shard<Stored<M>>, n: nat, c: Ageing.Clocks, window: nat, j: nat) returns (p: nat)
    requires j < n <= |s| && RecordOf(s[j], c, window).Some?
    ensures p < |ShardRecords(s, n, c, window)| && ShardRecords(s, n, c, window)[p] == RecordOf(s[j], c, window).value
    decreases n
  {
    if j == n - 1 {
      p := |ShardRecords(s, n - 1, c, window)|;
    } else {
      p := ShardRecordOf(s, n - 1, c, window, j);
    }
  }

  lemma {:induction false} CacheRecordOf<M>(shards: seq<Shard<Stored<M>>>, n: nat, c: Ageing.Clocks, window: nat, i: nat, j: nat)
    returns (p: nat)
    requires i < n <= |shards| && j < |shards[i]| && RecordOf(shards[i][j], c, window).Some?
    ensures p < |CacheRecords(shards, n, c, window)| && CacheRecords(shards, n, c, window)[p] == RecordOf(shards[i][j], c, window).value
    decreases n
  {
    if i == n - 1 {
      p := ShardRecordOf(shards[i], |shards[i]|, c, window, j);
      p := p + |CacheRecords(shards, n - 1, c, window)|;
    } else {
      p := CacheRecordOf(shards, n - 1, c, window, i, j);
    }
  }

  lemma RefinedShardsOk<M>(shards: seq<Shard<Stored<M>>>, last: map<QueryKey, Entry<Stored<M>>>, shardOf: QueryKey -> nat, cap: nat)
    requires Refines(shards, last, shardOf, cap)
    ensures ShardsOk(shards, shardOf)
  {
    forall i, j | 0 <= i < |shards| && 0 <= j < |shards[i]|
      ensures Distinct(shards[i]) && shardOf(shards[i][j].0) == i
    {
      assert ShardOk(shards[i], last, shardOf, i, cap);
      FindIs(shards[i], shards[i][j].0, j);
      assert Lookup(shards[i], shards[i][j].0).Some?;
    }
  }

  /** Entries of one shard are exported in their order of recency. */
  lemma {:induction false} ExportKeepsOrder<M>(shards: seq<Shard<Stored<M>>>, c: Ageing.Clocks, window: nat, i: nat, j: nat, k: nat)
    returns (p: nat, q: nat)
    requires i < |shards| && j < k < |shards[i]| && RecordOf(shards[i][j], c, window).Some? && RecordOf(shards[i][k], c, window).Some?
    ensures var recs := CacheRecords(shards, |shards|, c, window);
            p < q < |recs| && recs[p] == RecordOf(shards[i][j], c, window).value && recs[q] == RecordOf(shards[i][k], c, window).value
  {
    p, q := ShardOrder(shards[i], |shards[i]|, c, window, j, k);
    var at := ShardAt(shards, |shards|, c, window, i);
    p, q := at + p, at + q;
  }

  lemma {:induction false} ShardOrder<M>(s: Shard<Stored<M>>, n: nat, c: Ageing.Clocks, window: nat, j: nat, k: nat) returns (p: nat, q: nat)
    requires j < k < n <= |s| && RecordOf(s[j], c, window).Some? && RecordOf(s[k], c, window).Some?
    ensures var recs := ShardRecords(s, n, c, window);
            p < q < |recs| && recs[p] == RecordOf(s[j], c, window).value && recs[q] == RecordOf(s[k], c, window).value
    decreases n
  {
    if k == n - 1 {
      p := ShardRecordOf(s, n - 1, c, window, j);
      q := |ShardRecords(s, n - 1, c, window)|;
    } else {
      p, q := ShardOrder(s, n - 1, c, window, j, k);
    }
  }

  /** Where the records of a shard start in the export. */
  lemma {:induction false} ShardAt<M>(shards: seq<Shard<Stored<M>>>, n: nat, c: Ageing.Clocks, window: nat, i: nat) returns (at: nat)
    requires i < n <= |shards|
    ensures var recs, own := CacheRecords(shards, n, c, window), ShardRecords(shards[i], |shards[i]|, c, window);
            at + |own| <= |recs| && forall k :: 0 <= k < |own| ==> recs[at + k] == own[k]
    decreases n
  {
    var front, back := CacheRecords(shards, n - 1, c, window), ShardRecords(shards[n - 1], |shards[n - 1]|, c, window);
    assert CacheRecords(shards, n, c, window) == front + back;
    if i == n - 1 {
      at := |front|;
    } else {
      at := ShardAt(shards, n - 1, c, window, i);
    }
  }

  lemma {:induction false} LaterShrinks<M>(recs: seq<Rec>, p: nat, q: nat, unix: nat, m: Moment, shardOf: QueryKey -> nat, i: nat)
    requires p < q < |recs| && Arrives<M>(recs[q], unix, m, shardOf, i)
    ensures LaterArrivals<M>(recs, q, unix, m, shardOf, i) < LaterArrivals<M>(recs, p, unix, m, shardOf, i)
    decreases |recs|
  {
    var n := |recs| - 1;
    if q < n {
      assert recs[..n][q] == recs[q];
      LaterShrinks<M>(recs[..n], p, q, unix, m, shardOf, i);
    }
  }

  /**
   A restart reverses recency: of two entries of one old shard that share a new
   one, the less recently used, once read, has fewer arrivals after it, so it comes
   to stand in front, and the other is the first to be lost. `read` is what the
   reader gets to see of the export.
   */
  lemma {:induction false} RecencyReversed<M>(shards: seq<Shard<Stored<M>>>, shardOf: QueryKey -> nat, c: Ageing.Clocks, window: nat, i: nat, j: nat, k: nat,
                                              recs: seq<Rec>, read: seq<Rec>, m: Moment, place: Place)
    returns (p: nat, q: nat)
    requires ShardsOk(shards, shardOf) && i < |shards| && j < k < |shards[i]|
    requires RecordOf(shards[i][j], c, window).Some? && RecordOf(shards[i][k], c, window).Some?
    requires recs == CacheRecords(shards, |shards|, c, window) && read <= recs
    requires place.shardOf(shards[i][j].0) == place.shardOf(shards[i][k].0)
    ensures p < q < |recs|
    ensures recs[p] == RecordOf(shards[i][j], c, window).value && recs[q] == RecordOf(shards[i][k], c, window).value
    ensures var at := place.shardOf(recs[p].key);
            q < |read| && Imported<M>(recs[q], c.wall, m).Some? ==>
              LaterArrivals<M>(read, q, c.wall, m, place.shardOf, at) < LaterArrivals<M>(read, p, c.wall, m, place.shardOf, at)
  {
    p, q := ExportKeepsOrder(shards, c, window, i, j, k);
    if q < |read| && Imported<M>(recs[q], c.wall, m).Some? {
      assert read[q] == recs[q];
      LaterShrinks<M>(read, p, q, c.wall, m, place.shardOf, place.shardOf(recs[p].key));
    }
  }

  /** The old entry, aged by the time the wall clock counted meanwhile, unless it ran out or lies too far back. */
  ghost function Aged<M>(e: Entry<Stored<M>>, c: Ageing.Clocks, m: Moment): Option<Entry<Stored<M>>> {
    var age := Age(e, c.mono) + Max(m.clocks.wall - c.wall, 0);
    if age < e.ttl + m.window && m.representable(age) then Some(Entry(e.payload, m.clocks.mono - age, e.ttl)) else None
  }

  lemma RecordIsAged<M>(x: (QueryKey, Entry<Stored<M>>), c: Ageing.Clocks, window: nat, m: Moment)
    requires RecordOf(x, c, window).Some?
    ensures Imported<M>(RecordOf(x, c, window).value, c.wall, m) == Aged(x.1, c, m)
  {
  }

  /** A key that no record names is not held after an import into an empty cache. */
  lemma {:induction false} OnlyRecordsHeld<M>(n: nat, recs: seq<Rec>, unix: nat, m: Moment, place: Place, key: QueryKey)
    requires DistinctKeys(recs) && place.cap >= 1 && forall k :: place.shardOf(k) < n
    requires forall p :: 0 <= p < |recs| ==> recs[p].key != key
    ensures Held(RestoreAll<M>(Empty(n), recs, unix, m, place).shards, place.shardOf, key) == None
  {
    var i := place.shardOf(key);
    var all := Arrived<M>(recs, unix, m, place.shardOf, i);
    ShardAfterImport<M>(n, recs, unix, m, place, i);
    ArrivedDistinct<M>(recs, unix, m, place.shardOf, i);
    ArrivedKeys<M>(recs, unix, m, place.shardOf, i, key);
    ResizeKeeps(all, place.cap, key);
  }

  /** The records the importing process gets to read: those before the first it refuses. */
  function ReadBack(lib: Lib, recs: seq<Rec>): (r: seq<Rec>)
    ensures r <= recs
  {
    recs[..Leading(lib, recs, |EncodeAll(lib, recs)|)]
  }

  lemma ReadBackIs(lib: Lib, unix: nat, recs: seq<Rec>)
    requires Faithful(lib) && AllFit(lib, recs) && |recs| < B32 && unix < B32 * B32
    ensures DecodeSnapshot(lib, EncodeSnapshot(lib, unix, recs)) == Some(Contents(unix, ReadBack(lib, recs)))
    ensures AllRestorable(lib, recs) ==> ReadBack(lib, recs) == recs
  {
    var d := EncodeSnapshot(lib, unix, recs);
    SnapshotRoundTrip(lib, unix, recs, |d|);
    assert d[..|d|] == d;
    LeadingAllIff(lib, recs);
  }

  lemma {:induction false} PrefixHolds<M>(n: nat, recs: seq<Rec>, read: seq<Rec>, unix: nat, m: Moment, place: Place, p: nat)
    requires DistinctKeys(recs) && read <= recs && p < |recs| && place.cap >= 1 && forall k :: place.shardOf(k) < n
    ensures Held(RestoreAll<M>(Empty(n), read, unix, m, place).shards, place.shardOf, recs[p].key)
            == if p < |read| then HeldRecord<M>(read, p, unix, m, place) else None
  {
    assert read == recs[..|read|];
    assert DistinctKeys(read);
    if p < |read| {
      HeldAfterImportIff<M>(n, read, unix, m, place, p);
    } else {
      OnlyRecordsHeld<M>(n, read, unix, m, place, recs[p].key);
    }
  }

  /**
   What a restart carries over. The new process has its own shard function and
   capacity. An encoded, servable entry of the old cache is held by the new one,
   same key, same response, same lifetime, aged by the wall clock, if and only if
   it is exported before the first record the reader refuses, has not run out, and
   fewer of the records read after it than a new shard holds go to its new shard.
   */
  lemma {:induction false} RestartHoldsIff<M>(shards: seq<Shard<Stored<M>>>, shardOf: QueryKey -> nat, lib: Lib, c: Ageing.Clocks, window: nat,
                                              i: nat, j: nat, recs: seq<Rec>, read: seq<Rec>, m: Moment, n: nat, place: Place) returns (p: nat)
    requires ShardsOk(shards, shardOf) && i < |shards| && j < |shards[i]| && RecordOf(shards[i][j], c, window).Some?
    requires recs == CacheRecords(shards, |shards|, c, window) && read == ReadBack(lib, recs)
    requires Faithful(lib) && AllFit(lib, recs) && |recs| < B32 && c.wall < B32 * B32
    requires place.cap >= 1 && forall k :: place.shardOf(k) < n
    ensures DecodeSnapshot(lib, EncodeSnapshot(lib, c.wall, recs)) == Some(Contents(c.wall, read))
    ensures p < |recs| && recs[p] == RecordOf(shards[i][j], c, window).value && recs[p].key == shards[i][j].0
    ensures Held(RestoreAll<M>(Empty(n), read, c.wall, m, place).shards, place.shardOf, shards[i][j].0)
            == if p < |read| && LaterArrivals<M>(read, p, c.wall, m, place.shardOf, place.shardOf(shards[i][j].0)) < place.cap
               then Aged(shards[i][j].1, c, m) else None
  {
    ReadBackIs(lib, c.wall, recs);
    CacheKeysDistinct(shards, shardOf, |shards|, c, window);
    p := CacheRecordOf(shards, |shards|, c, window, i, j);
    RecordIsAged(shards[i][j], c, window, m);
    PrefixHolds<M>(n, recs, read, c.wall, m, place, p);
  }

  // ---- recent entries lost ----

  /**
   With room for one entry in a new shard, the more recent of two entries of one old
   shard that meet there is lost whenever the other is restored.
   */
  lemma {:induction false} RecentEntryLost<M>(shards: seq<Shard<Stored<M>>>, shardOf: QueryKey -> nat, lib: Lib, c: Ageing.Clocks, window: nat,
                                              i: nat, j: nat, k: nat, recs: seq<Rec>, m: Moment, n: nat, place: Place)
    requires ShardsOk(shards, shardOf) && i < |shards| && j < k < |shards[i]|
    requires RecordOf(shards[i][j], c, window).Some? && RecordOf(shards[i][k], c, window).Some? && Aged(shards[i][k].1, c, m).Some?
    requires recs == CacheRecords(shards, |shards|, c, window)
    requires Faithful(lib) && AllFit(lib, recs) && AllRestorable(lib, recs) && |recs| < B32 && c.wall < B32 * B32
    requires place.cap == 1 && (forall key :: place.shardOf(key) < n) && place.shardOf(shards[i][j].0) == place.shardOf(shards[i][k].0)
    ensures DecodeSnapshot(lib, EncodeSnapshot(lib, c.wall, recs)) == Some(Contents(c.wall, recs))
    ensures Held(RestoreAll<M>(Empty(n), recs, c.wall, m, place).shards, place.shardOf, shards[i][j].0) == None
  {
    ReadBackIs(lib, c.wall, recs);
    CacheKeysDistinct(shards, shardOf, |shards|, c, window);
    var p, q := RecencyReversed<M>(shards, shardOf, c, window, i, j, k, recs, recs, m, place);
    RecordIsAged(shards[i][k], c, window, m);
    HeldAfterImportIff<M>(n, recs, c.wall, m, place, p);
  }

  /** A cache of eight shards with two entries, `x` used after `y`. */
  function TwoEntries<M>(x: (QueryKey, Entry<Stored<M>>), y: (QueryKey, Entry<Stored<M>>)): seq<Shard<Stored<M>>> {
    [[x, y]] + EmptyShards<M>(7)
  }

  /** A new cache of eight shards and capacity eight, whose hash puts all keys together. */
  const SMALL := Place(key => 0, ShardCap(8, 8))

  lemma {:induction false} EmptyAddNothing<M>(s: Shard<Stored<M>>, k: nat, n: nat, c: Ageing.Clocks, window: nat)
    requires 1 <= n <= k + 1
    ensures CacheRecords([s] + EmptyShards<M>(k), n, c, window) == ShardRecords(s, |s|, c, window)
  {
    if n > 1 {
      EmptyAddNothing(s, k, n - 1, c, window);
    }
  }

  lemma TwoRecords<M>(x: (QueryKey, Entry<Stored<M>>), y: (QueryKey, Entry<Stored<M>>), c: Ageing.Clocks, window: nat)
    requires RecordOf(x, c, window).Some? && RecordOf(y, c, window).Some?
    ensures CacheRecords(TwoEntries(x, y), 8, c, window) == [RecordOf(x, c, window).value, RecordOf(y, c, window).value]
  {
    var s := [x, y];
    EmptyAddNothing(s, 7, 8, c, window);
    assert ShardRecords(s, 1, c, window) == [RecordOf(x, c, window).value];
  }

  /** Such a restart loses the entry used last, and keeps the other. */
  lemma {:induction false} LastUsedIsLost<M>(x: (QueryKey, Entry<Stored<M>>), y: (QueryKey, Entry<Stored<M>>), lib: Lib, c: Ageing.Clocks, window: nat,
                                             recs: seq<Rec>, m: Moment)
    requires x.0 != y.0 && RecordOf(x, c, window).Some? && RecordOf(y, c, window).Some? && Aged(x.1, c, m).Some? && Aged(y.1, c, m).Some?
    requires recs == CacheRecords(TwoEntries(x, y), 8, c, window)
    requires Faithful(lib) && AllFit(lib, recs) && AllRestorable(lib, recs) && c.wall < B32 * B32
    ensures DecodeSnapshot(lib, EncodeSnapshot(lib, c.wall, recs)) == Some(Contents(c.wall, recs))
    ensures Held(RestoreAll<M>(Empty(8), recs, c.wall, m, SMALL).shards, SMALL.shardOf, x.0) == None
    ensures Held(RestoreAll<M>(Empty(8), recs, c.wall, m, SMALL).shards, SMALL.shardOf, y.0) == Aged(y.1, c, m)
  {
    TwoRecords(x, y, c, window);
    ReadBackIs(lib, c.wall, recs);
    RecordIsAged(y, c, window, m);
    TwoArrivals<M>(recs[0], recs[1], recs, c.wall, m, SMALL);
    HeldAfterImportIff<M>(8, recs, c.wall, m, SMALL, 0);
    HeldAfterImportIff<M>(8, recs, c.wall, m, SMALL, 1);
  }

  lemma TwoArrivals<M>(a: Rec, b: Rec, recs: seq<Rec>, unix: nat, m: Moment, place: Place)
    requires recs == [a, b] && Imported<M>(b, unix, m).Some? && place.shardOf(a.key) == place.shardOf(b.key)
    ensures LaterArrivals<M>(recs, 0, unix, m, place.shardOf, place.shardOf(a.key)) == 1
    ensures LaterArrivals<M>(recs, 1, unix, m, place.shardOf, place.shardOf(b.key)) == 0
  {
    assert recs[..1] == [a];
    assert LaterArrivals<M>(recs[..1], 0, unix, m, place.shardOf, place.shardOf(a.key)) == 0;
  }
}
