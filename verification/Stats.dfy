/** Sharded query statistics: recording, merging shards, and restoring a merged snapshot. */
module Stats {
  import opened Wrappers
  import Domains
  import DnsCache
  import HH = HeavyHitters
  import Q = Quantile

  datatype QueryAction = Forwarded(upstream: string) | Cached | Blocked | Rewritten | Errored

  datatype LogEntry = LogEntry(timeMs: int, client: string, question: string, action: QueryAction, allowlisted: bool, elapsedMs: real)

  predicate IsBlocked(e: LogEntry) {
    e.action.Blocked? && !e.allowlisted
  }

  datatype Hour = Hour(hour: int, total: nat, blocked: nat, cached: nat)

  datatype Inner = Inner(
    total: nat, blocked: nat, cached: nat, rewritten: nat, errors: nat,
    hist: seq<nat>,
    resolvedDomains: HH.Counts, blockedDomains: HH.Counts, clients: HH.Counts,
    upstreams: HH.Counts, rttSum: map<string, real>, rttCount: HH.Counts, latency: map<string, seq<nat>>,
    series: seq<Hour>,
    counters: DnsCache.Counters)

  const EMPTY := Inner(0, 0, 0, 0, 0, [], map[], map[], map[], map[], map[], map[], map[], [], DnsCache.ZERO)

  const ZEROS: seq<nat> := [0, 0, 0, 0, 0, 0, 0, 0, 0, 0, 0]

  function Sum(s: seq<nat>): nat {
    Q.Sum(s)
  }

  // ---- recording ----

  /** A histogram has this bucket, or is yet to be made. */
  predicate HasBucket(hist: seq<nat>, i: nat) {
    i < Q.BUCKETS && (hist == [] || i < |hist|)
  }

  function BumpHist(hist: seq<nat>, i: nat): (r: seq<nat>)
    requires HasBucket(hist, i)
    ensures |r| == if hist == [] then Q.BUCKETS else |hist|
  {
    var h := if hist == [] then ZEROS else hist;
    h[i := h[i] + 1]
  }

  /** The first eleven buckets, made up with zeros: what is seen of a loaded histogram of any length. */
  function Resized(hist: seq<nat>): (r: seq<nat>)
    ensures |r| == Q.BUCKETS && forall i :: 0 <= i < Q.BUCKETS ==> r[i] == if i < |hist| then hist[i] else 0
  {
    if |hist| >= Q.BUCKETS then hist[..Q.BUCKETS] else hist + ZEROS[|hist|..]
  }

  /** Division toward zero, as on 64-bit integers. */
  function TruncDiv(a: int, b: nat): int
    requires b > 0
  {
    if a >= 0 then a / b else -((-a) / b)
  }

  function HourOf(e: LogEntry): int {
    TruncDiv(TruncDiv(e.timeMs, 1000), 3600)
  }

  /** Old hours leave from the front. */
  function Trim(s: seq<Hour>, max: nat): (r: seq<Hour>)
    ensures |r| <= max || r == s
  {
    if |s| > max then s[|s| - max..] else s
  }

  function AddToSeries(s: seq<Hour>, e: LogEntry, max: nat): seq<Hour> {
    var h, b, c := HourOf(e), (if IsBlocked(e) then 1 else 0), (if e.action.Cached? then 1 else 0);
    if s != [] && s[|s| - 1].hour == h then
      var l := s[|s| - 1];
      s[..|s| - 1] + [Hour(h, l.total + 1, l.blocked + b, l.cached + c)]
    else Trim(s + [Hour(h, 1, b, c)], max)
  }

  function CappedBump(m: HH.Counts, key: string, cap: nat): HH.Counts {
    if key in m then m[key := m[key] + 1] else if |m| < cap then m[key := 1] else m
  }

  /** The exact per-upstream maps, which only a forwarded query touches. */
  ghost predicate UpstreamRecorded(s: Inner, s': Inner, e: LogEntry, ms: real, cap: nat) {
    if e.action.Forwarded? then
      var up := e.action.upstream;
      && s'.upstreams == CappedBump(s.upstreams, up, cap)
      && s'.rttSum == s.rttSum[up := (if up in s.rttSum then s.rttSum[up] else 0.0) + ms]
      && s'.rttCount == s.rttCount[up := HH.CountOf(s.rttCount, up) + 1]
      && up in s'.latency && s'.latency == s.latency[up := s'.latency[up]]
      && var h := if up in s.latency then s.latency[up] else ZEROS;
      && Q.HistIndex(ms) < |h| && s'.latency[up] == h[Q.HistIndex(ms) := h[Q.HistIndex(ms)] + 1]
    else
      s'.upstreams == s.upstreams && s'.rttSum == s.rttSum && s'.rttCount == s.rttCount && s'.latency == s.latency
  }

  /** The exact part of a record: counters, latency histogram and hourly series. */
  function Tally(s: Inner, e: LogEntry, max: nat): Inner
    requires e.action.Errored? || HasBucket(s.hist, Q.HistIndex(e.elapsedMs))
  {
    s.(total := s.total + 1,
       cached := s.cached + (if e.action.Cached? then 1 else 0),
       rewritten := s.rewritten + (if e.action.Rewritten? then 1 else 0),
       errors := s.errors + (if e.action.Errored? then 1 else 0),
       blocked := s.blocked + (if IsBlocked(e) then 1 else 0),
       hist := if e.action.Errored? then s.hist else BumpHist(s.hist, Q.HistIndex(e.elapsedMs)),
       series := AddToSeries(s.series, e, max))
  }

  /** The estimated part: the name goes to one of two estimators, the client to a third. */
  ghost predicate Estimated(s: Inner, s': Inner, e: LogEntry, domain: string, cap: nat, anonymize: bool) {
    && (if IsBlocked(e)
        then HH.BumpStep(s.blockedDomains, s'.blockedDomains, domain, 1, cap) && s'.resolvedDomains == s.resolvedDomains
        else HH.BumpStep(s.resolvedDomains, s'.resolvedDomains, domain, 1, cap) && s'.blockedDomains == s.blockedDomains)
    && (if anonymize then s'.clients == s.clients else HH.BumpStep(s.clients, s'.clients, e.client, 1, cap))
  }

  /** One query recorded in one shard; a tie in an eviction leaves the victim open. */
  ghost predicate Recorded(s: Inner, s': Inner, e: LogEntry, domain: string, ms: real, cap: nat, anonymize: bool, max: nat) {
    && (e.action.Errored? || HasBucket(s.hist, Q.HistIndex(e.elapsedMs)))
    && Estimated(s, s', e, domain, cap, anonymize)
    && UpstreamRecorded(s, s', e, ms, cap)
    && s' == Tally(s, e, max).(resolvedDomains := s'.resolvedDomains, blockedDomains := s'.blockedDomains, clients := s'.clients,
                               upstreams := s'.upstreams, rttSum := s'.rttSum, rttCount := s'.rttCount, latency := s'.latency)
  }

  predicate ValidHist(h: seq<nat>) {
    h == [] || |h| == Q.BUCKETS
  }

  /** Histograms as the collector itself makes them. */
  ghost predicate ValidShape(s: Inner) {
    ValidHist(s.hist) && forall k :: k in s.latency ==> |s.latency[k]| == Q.BUCKETS
  }

  /** The ledger of a shard balances. */
  ghost predicate Conserved(s: Inner) {
    && HH.Total(s.resolvedDomains) + HH.Total(s.blockedDomains) == s.total
    && HH.Total(s.blockedDomains) == s.blocked
    && Sum(Resized(s.hist)) + s.errors == s.total
  }

  lemma {:induction false} SumUpdate(s: seq<nat>, i: nat, v: nat)
    requires i < |s|
    ensures Sum(s[i := v]) == Sum(s) - s[i] + v
    decreases |s|
  {
    var n := |s| - 1;
    if i < n {
      SumUpdate(s[..n], i, v);
      assert s[i := v][..n] == s[..n][i := v];
    } else {
      assert s[i := v][..n] == s[..n];
    }
  }

  lemma {:induction false} SumZeros(n: nat)
    requires n <= Q.BUCKETS
    ensures Sum(ZEROS[..n]) == 0
  {
    if n > 0 {
      SumZeros(n - 1);
      assert ZEROS[..n][..n - 1] == ZEROS[..n - 1];
    }
  }

  lemma BumpHistSum(hist: seq<nat>, i: nat)
    requires HasBucket(hist, i)
    ensures Sum(Resized(BumpHist(hist, i))) == Sum(Resized(hist)) + 1
  {
    var h := Resized(hist);
    SumUpdate(h, i, h[i] + 1);
    assert Resized(BumpHist(hist, i)) == h[i := h[i] + 1];
  }

  lemma RecordingConserves(s: Inner, s': Inner, e: LogEntry, domain: string, ms: real, cap: nat, anonymize: bool, max: nat)
    requires Recorded(s, s', e, domain, ms, cap, anonymize, max) && cap >= 1 && Conserved(s)
    ensures Conserved(s')
  {
    if IsBlocked(e) {
      HH.BumpAddsWeight(s.blockedDomains, s'.blockedDomains, domain, 1, cap);
    } else {
      HH.BumpAddsWeight(s.resolvedDomains, s'.resolvedDomains, domain, 1, cap);
    }
    if !e.action.Errored? {
      BumpHistSum(s.hist, Q.HistIndex(e.elapsedMs));
    }
  }

  // ---- merging ----

  function AddHists(a: seq<nat>, b: seq<nat>): (r: seq<nat>)
    requires |a| == |b|
    ensures |r| == |a| && forall i :: 0 <= i < |a| ==> r[i] == a[i] + b[i]
  {
    if a == [] then [] else AddHists(a[..|a| - 1], b[..|b| - 1]) + [a[|a| - 1] + b[|b| - 1]]
  }

  function MergeHist(a: seq<nat>, b: seq<nat>): (r: seq<nat>)
    ensures r == a || |r| == Q.BUCKETS
  {
    if b == [] then a else AddHists(Resized(a), Resized(b))
  }

  function MergeRtt(a: map<string, real>, b: map<string, real>): map<string, real> {
    map k | k in a.Keys + b.Keys :: (if k in a then a[k] else 0.0) + (if k in b then b[k] else 0.0)
  }

  function MergeLatency(a: map<string, seq<nat>>, b: map<string, seq<nat>>): map<string, seq<nat>> {
    map k | k in a.Keys + b.Keys ::
      var dst := if k in a then a[k] else ZEROS;
      if k in b && |dst| == |b[k]| then AddHists(dst, b[k]) else dst
  }

  /** Adds one hour to the entry with that hour, or appends it. */
  function MergeHour(acc: seq<Hour>, x: Hour): seq<Hour> {
    if acc == [] then [x]
    else if acc[0].hour == x.hour then
      [Hour(x.hour, acc[0].total + x.total, acc[0].blocked + x.blocked, acc[0].cached + x.cached)] + acc[1..]
    else [acc[0]] + MergeHour(acc[1..], x)
  }

  lemma {:induction false} MergeHourHas(acc: seq<Hour>, x: Hour)
    ensures forall h :: HasHour(MergeHour(acc, x), h) <==> HasHour(acc, h) || h == x.hour
  {
    var r := MergeHour(acc, x);
    HasHourCons(r);
    if acc != [] {
      HasHourCons(acc);
      if acc[0].hour == x.hour {
        assert r[1..] == acc[1..];
      } else {
        MergeHourHas(acc[1..], x);
        assert r[1..] == MergeHour(acc[1..], x);
      }
    }
  }

  predicate HasHour(s: seq<Hour>, h: int) {
    exists i :: 0 <= i < |s| && s[i].hour == h
  }

  lemma HasHourCons(s: seq<Hour>)
    requires s != []
    ensures forall h :: HasHour(s, h) <==> s[0].hour == h || HasHour(s[1..], h)
  {
    forall h ensures HasHour(s, h) <==> s[0].hour == h || HasHour(s[1..], h) {
      if i :| 0 <= i < |s| && s[i].hour == h && i > 0 {
        assert s[1..][i - 1].hour == h;
      }
      if i :| 0 <= i < |s[1..]| && s[1..][i].hour == h {
        assert s[i + 1].hour == h;
      }
    }
  }

  function MergeSeries(acc: seq<Hour>, s: seq<Hour>): seq<Hour> {
    if s == [] then acc else MergeHour(MergeSeries(acc, s[..|s| - 1]), s[|s| - 1])
  }

  function MergeInto(a: Inner, b: Inner): Inner {
    Inner(a.total + b.total, a.blocked + b.blocked, a.cached + b.cached, a.rewritten + b.rewritten, a.errors + b.errors,
          MergeHist(a.hist, b.hist),
          HH.Merge(a.resolvedDomains, b.resolvedDomains), HH.Merge(a.blockedDomains, b.blockedDomains), HH.Merge(a.clients, b.clients),
          HH.Merge(a.upstreams, b.upstreams), MergeRtt(a.rttSum, b.rttSum), HH.Merge(a.rttCount, b.rttCount),
          MergeLatency(a.latency, b.latency), MergeSeries(a.series, b.series), a.counters)
  }

  function MergeShards(shards: seq<Inner>): (r: Inner)
    ensures ValidHist(r.hist)
  {
    if shards == [] then EMPTY else MergeInto(MergeShards(shards[..|shards| - 1]), shards[|shards| - 1])
  }

  function InsertHour(s: seq<Hour>, x: Hour): seq<Hour> {
    if s == [] || x.hour < s[0].hour then [x] + s else [s[0]] + InsertHour(s[1..], x)
  }

  /** A stable sort by hour. */
  function SortHours(s: seq<Hour>): seq<Hour> {
    if s == [] then [] else InsertHour(SortHours(s[..|s| - 1]), s[|s| - 1])
  }

  function WithSeries(m: Inner, series: seq<Hour>): Inner {
    m.(series := series)
  }

  /** What a snapshot shows: all shards added up, hours in order, the newest `max` kept. */
  function MergedOf(shards: seq<Inner>, max: nat): Inner {
    WithSeries(MergeShards(shards), Trim(SortHours(MergeShards(shards).series), max))
  }

  function Totals(shards: seq<Inner>): nat {
    if shards == [] then 0 else Totals(shards[..|shards| - 1]) + shards[|shards| - 1].total
  }

  // ---- conservation ----

  lemma {:induction false} AddHistsSum(a: seq<nat>, b: seq<nat>)
    requires |a| == |b|
    ensures Sum(AddHists(a, b)) == Sum(a) + Sum(b)
    decreases |a|
  {
    if a != [] {
      var n := |a| - 1;
      AddHistsSum(a[..n], b[..n]);
      assert AddHists(a, b)[..n] == AddHists(a[..n], b[..n]);
    }
  }

  lemma MergeHistSum(a: seq<nat>, b: seq<nat>)
    ensures Sum(Resized(MergeHist(a, b))) == Sum(Resized(a)) + Sum(Resized(b))
  {
    if b != [] {
      AddHistsSum(Resized(a), Resized(b));
      ResizedStays(MergeHist(a, b));
    } else {
      ResizedEmpty();
    }
  }

  lemma ResizedStays(hist: seq<nat>)
    requires |hist| == Q.BUCKETS
    ensures Resized(hist) == hist
  {
  }

  lemma ResizedEmpty()
    ensures Resized([]) == ZEROS && Sum(ZEROS) == 0
  {
    SumZeros(Q.BUCKETS);
    assert ZEROS[..Q.BUCKETS] == ZEROS;
  }

  lemma MergingConserves(a: Inner, b: Inner)
    requires Conserved(a) && Conserved(b)
    ensures Conserved(MergeInto(a, b))
  {
    HH.MergeTotal(a.resolvedDomains, b.resolvedDomains);
    HH.MergeTotal(a.blockedDomains, b.blockedDomains);
    MergeHistSum(a.hist, b.hist);
  }

  lemma SameConserved(a: Inner, b: Inner)
    requires a == b && Conserved(b)
    ensures Conserved(a)
  {
  }

  /** Nothing recorded is balanced. */
  lemma BlankConserved(s: Inner)
    requires s.total == 0 && s.blocked == 0 && s.errors == 0 && s.hist == [] && s.resolvedDomains == map[] && s.blockedDomains == map[]
    ensures Conserved(s)
  {
    ResizedEmpty();
    assert HH.Total(map[]) == 0;
  }

  lemma MergedOneMore(front: seq<Inner>, s: Inner, all: seq<Inner>)
    requires all == front + [s] && Conserved(MergeShards(front)) && Conserved(s)
    ensures Conserved(MergeShards(all))
  {
    MergedLast(front, s, all);
    MergingConserves(MergeShards(front), s);
    SameConserved(MergeShards(all), MergeInto(MergeShards(front), s));
  }

  lemma {:induction false} MergedTotal(shards: seq<Inner>)
    ensures MergeShards(shards).total == Totals(shards)
    decreases |shards|
  {
    if shards != [] {
      MergedTotal(shards[..|shards| - 1]);
    }
  }

  lemma MergedNone(shards: seq<Inner>)
    requires shards == []
    ensures Conserved(MergeShards(shards))
  {
    BlankConserved(MergeShards(shards));
  }

  lemma {:induction false} MergedAll(shards: seq<Inner>)
    requires AllConserved(shards)
    ensures Conserved(MergeShards(shards))
    decreases |shards|
  {
    if shards == [] {
      MergedNone(shards);
    } else {
      var n := |shards| - 1;
      var front, s := shards[..n], shards[n];
      MergedAll(front);
      assert shards == front + [s];
      MergedOneMore(front, s, shards);
    }
  }

  /** Shards that balance add up to one that does, and to the total of all. */
  lemma ShardsConserve(shards: seq<Inner>)
    requires AllConserved(shards)
    ensures Conserved(MergeShards(shards)) && MergeShards(shards).total == Totals(shards)
  {
    MergedTotal(shards);
    MergedAll(shards);
  }

  ghost predicate UniqueHours(s: seq<Hour>) {
    forall i, j :: 0 <= i < j < |s| ==> s[i].hour != s[j].hour
  }

  ghost predicate StrictHours(s: seq<Hour>) {
    forall i, j :: 0 <= i < j < |s| ==> s[i].hour < s[j].hour
  }

  lemma {:induction false} MergeHourUnique(acc: seq<Hour>, x: Hour)
    requires UniqueHours(acc)
    ensures UniqueHours(MergeHour(acc, x))
  {
    if acc != [] {
      MergeHourUnique(acc[1..], x);
      if acc[0].hour != x.hour {
        var r := MergeHour(acc[1..], x);
        MergeHourHas(acc[1..], x);
        forall j | 0 <= j < |r| ensures r[j].hour != acc[0].hour {
          assert HasHour(r, r[j].hour);
          if i :| 0 <= i < |acc[1..]| && acc[1..][i].hour == r[j].hour {
            assert acc[i + 1].hour == r[j].hour;
          }
        }
      }
    }
  }

  lemma {:induction false} MergeSeriesUnique(acc: seq<Hour>, s: seq<Hour>)
    requires UniqueHours(acc)
    ensures UniqueHours(MergeSeries(acc, s))
    decreases |s|
  {
    if s != [] {
      MergeSeriesUnique(acc, s[..|s| - 1]);
      MergeHourUnique(MergeSeries(acc, s[..|s| - 1]), s[|s| - 1]);
    }
  }

  /** Even when a clock step left repeated hours in a shard, merging joins them. */
  lemma {:induction false} MergedHoursUnique(shards: seq<Inner>)
    ensures UniqueHours(MergeShards(shards).series)
    decreases |shards|
  {
    if shards != [] {
      var n := |shards| - 1;
      MergedHoursUnique(shards[..n]);
      MergeSeriesUnique(MergeShards(shards[..n]).series, shards[n].series);
    }
  }

  lemma {:induction false} InsertHourStrict(s: seq<Hour>, x: Hour)
    requires StrictHours(s) && !HasHour(s, x.hour)
    ensures StrictHours(InsertHour(s, x))
    ensures forall h :: HasHour(InsertHour(s, x), h) <==> HasHour(s, h) || h == x.hour
    decreases |s|
  {
    var r := InsertHour(s, x);
    HasHourCons(r);
    if s == [] || x.hour < s[0].hour {
      assert r[1..] == s;
    } else {
      HasHourCons(s);
      assert s[0].hour != x.hour;
      InsertHourStrict(s[1..], x);
      assert r[1..] == InsertHour(s[1..], x);
      forall j | 0 <= j < |r[1..]| ensures s[0].hour < r[1..][j].hour {
        assert HasHour(r[1..], r[1..][j].hour);
      }
      PrependStrict(s[0], r[1..], r);
    }
  }

  lemma PrependStrict(x: Hour, s: seq<Hour>, r: seq<Hour>)
    requires StrictHours(s) && r == [x] + s && forall j :: 0 <= j < |s| ==> x.hour < s[j].hour
    ensures StrictHours(r)
  {
  }

  lemma {:induction false} SortHoursStrict(s: seq<Hour>)
    requires UniqueHours(s)
    ensures StrictHours(SortHours(s)) && forall h :: HasHour(SortHours(s), h) <==> HasHour(s, h)
    decreases |s|
  {
    if s != [] {
      var n := |s| - 1;
      SortHoursStrict(s[..n]);
      assert !HasHour(s[..n], s[n].hour);
      InsertHourStrict(SortHours(s[..n]), s[n]);
      forall h ensures HasHour(s, h) <==> HasHour(s[..n], h) || h == s[n].hour {
        if i :| 0 <= i < |s| && s[i].hour == h && i < n {
          assert s[..n][i].hour == h;
        }
        if i :| 0 <= i < |s[..n]| && s[..n][i].hour == h {
          assert s[i].hour == h;
        }
      }
    }
  }

  lemma TrimStrict(s: seq<Hour>, max: nat)
    requires StrictHours(s)
    ensures StrictHours(Trim(s, max)) && |Trim(s, max)| <= max
  {
  }

  lemma ConservedWithSeries(m: Inner, series: seq<Hour>)
    requires Conserved(m)
    ensures Conserved(WithSeries(m, series))
  {
  }

  /** Whatever the shards recorded, the merged hours strictly increase. */
  lemma MergedSeriesStrict(shards: seq<Inner>, max: nat)
    ensures StrictHours(MergedOf(shards, max).series) && |MergedOf(shards, max).series| <= max
  {
    MergedHoursUnique(shards);
    SortHoursStrict(MergeShards(shards).series);
    TrimStrict(SortHours(MergeShards(shards).series), max);
  }

  /** The merged ledger balances, and accounts for every record of every shard. */
  lemma MergedConserves(shards: seq<Inner>, max: nat)
    requires AllConserved(shards)
    ensures MergedOf(shards, max).total == Totals(shards) && Conserved(MergedOf(shards, max))
  {
    var m := MergeShards(shards);
    ShardsConserve(shards);
    ConservedWithSeries(m, Trim(SortHours(m.series), max));
  }

  function HourTotal(s: seq<Hour>, h: int): nat {
    if s == [] then 0 else HourTotal(s[1..], h) + (if s[0].hour == h then s[0].total else 0)
  }

  function HourTotals(shards: seq<Inner>, h: int): nat {
    if shards == [] then 0 else HourTotals(shards[..|shards| - 1], h) + HourTotal(shards[|shards| - 1].series, h)
  }

  lemma {:induction false} MergeHourAdds(acc: seq<Hour>, x: Hour, h: int)
    ensures HourTotal(MergeHour(acc, x), h) == HourTotal(acc, h) + (if x.hour == h then x.total else 0)
  {
    if acc != [] && acc[0].hour != x.hour {
      MergeHourAdds(acc[1..], x, h);
    }
  }

  lemma {:induction false} HourTotalSnoc(s: seq<Hour>, h: int)
    requires s != []
    ensures HourTotal(s, h) == HourTotal(s[..|s| - 1], h) + (if s[|s| - 1].hour == h then s[|s| - 1].total else 0)
    decreases |s|
  {
    if |s| > 1 {
      HourTotalSnoc(s[1..], h);
      assert s[1..][..|s| - 2] == s[..|s| - 1][1..];
    }
  }

  lemma {:induction false} MergeSeriesAdds(acc: seq<Hour>, s: seq<Hour>, h: int)
    ensures HourTotal(MergeSeries(acc, s), h) == HourTotal(acc, h) + HourTotal(s, h)
    decreases |s|
  {
    if s != [] {
      MergeSeriesAdds(acc, s[..|s| - 1], h);
      MergeHourAdds(MergeSeries(acc, s[..|s| - 1]), s[|s| - 1], h);
      HourTotalSnoc(s, h);
    }
  }

  /** Before trimming, each hour's total is the sum of that hour over all shards. */
  lemma {:induction false} MergedHourTotals(shards: seq<Inner>, h: int)
    ensures HourTotal(MergeShards(shards).series, h) == HourTotals(shards, h)
    decreases |shards|
  {
    if shards != [] {
      var n := |shards| - 1;
      MergedHourTotals(shards[..n], h);
      MergeSeriesAdds(MergeShards(shards[..n]).series, shards[n].series, h);
    }
  }

  // ---- restoring a snapshot ----

  function ImportedShards(loaded: Inner, n: nat): seq<Inner>
    requires n >= 1
  {
    [loaded] + Copies(EMPTY, n - 1)
  }

  lemma MergeEmptyCounts(c: HH.Counts)
    ensures HH.Merge(c, map[]) == c && HH.Merge(map[], c) == c
  {
  }

  lemma MergeEmptyRtt(r: map<string, real>)
    ensures MergeRtt(r, map[]) == r && MergeRtt(map[], r) == r
  {
  }

  lemma MergeEmptyLatency(l: map<string, seq<nat>>)
    ensures MergeLatency(l, map[]) == l
  {
  }

  lemma MergeEmptyMaps(a: Inner)
    ensures HH.Merge(a.resolvedDomains, map[]) == a.resolvedDomains && HH.Merge(map[], a.resolvedDomains) == a.resolvedDomains
    ensures HH.Merge(a.blockedDomains, map[]) == a.blockedDomains && HH.Merge(map[], a.blockedDomains) == a.blockedDomains
    ensures HH.Merge(a.clients, map[]) == a.clients && HH.Merge(map[], a.clients) == a.clients
    ensures HH.Merge(a.upstreams, map[]) == a.upstreams && HH.Merge(map[], a.upstreams) == a.upstreams
    ensures HH.Merge(a.rttCount, map[]) == a.rttCount && HH.Merge(map[], a.rttCount) == a.rttCount
    ensures MergeRtt(a.rttSum, map[]) == a.rttSum && MergeRtt(map[], a.rttSum) == a.rttSum
  {
    MergeEmptyCounts(a.resolvedDomains);
    MergeEmptyCounts(a.blockedDomains);
    MergeEmptyCounts(a.clients);
    MergeEmptyCounts(a.upstreams);
    MergeEmptyCounts(a.rttCount);
    MergeEmptyRtt(a.rttSum);
  }

  lemma MergeWithEmpty(a: Inner)
    ensures MergeInto(a, EMPTY) == a
  {
    MergeEmptyMaps(a);
    MergeEmptyLatency(a.latency);
  }

  lemma EmptyMergeLatency(b: map<string, seq<nat>>)
    requires forall k :: k in b ==> |b[k]| == Q.BUCKETS
    ensures MergeLatency(map[], b) == b
  {
    forall k | k in b ensures MergeLatency(map[], b)[k] == b[k] {
      assert AddHists(ZEROS, b[k]) == b[k];
    }
  }

  lemma EmptyMergeHist(b: seq<nat>)
    requires ValidHist(b)
    ensures MergeHist([], b) == b
  {
    if b != [] {
      ResizedEmpty();
      ResizedStays(b);
      assert AddHists(ZEROS, b) == b;
    }
  }

  lemma {:induction false} MergeFreshHour(acc: seq<Hour>, x: Hour)
    requires !HasHour(acc, x.hour)
    ensures MergeHour(acc, x) == acc + [x]
  {
    if acc != [] {
      HasHourCons(acc);
      MergeFreshHour(acc[1..], x);
    }
  }

  lemma {:induction false} EmptyMergeSeries(s: seq<Hour>)
    requires StrictHours(s)
    ensures MergeSeries([], s) == s
    decreases |s|
  {
    if s != [] {
      var n := |s| - 1;
      EmptyMergeSeries(s[..n]);
      assert !HasHour(s[..n], s[n].hour);
      MergeFreshHour(s[..n], s[n]);
    }
  }

  lemma MergeIntoEmpty(b: Inner)
    requires ValidShape(b) && StrictHours(b.series)
    ensures MergeInto(EMPTY, b) == b.(counters := DnsCache.ZERO)
  {
    MergeEmptyMaps(b);
    EmptyMergeLatency(b.latency);
    EmptyMergeHist(b.hist);
    EmptyMergeSeries(b.series);
  }

  lemma {:induction false} ImportedMerge(loaded: Inner, n: nat)
    requires n >= 1 && ValidShape(loaded) && StrictHours(loaded.series)
    ensures MergeShards(ImportedShards(loaded, n)) == loaded.(counters := DnsCache.ZERO)
    decreases n
  {
    if n == 1 {
      MergeIntoEmpty(loaded);
      MergedLast([], loaded, ImportedShards(loaded, 1));
    } else {
      ImportedMerge(loaded, n - 1);
      ImportedLast(loaded, n);
      EmptyLast(ImportedShards(loaded, n - 1), ImportedShards(loaded, n), loaded.(counters := DnsCache.ZERO));
    }
  }

  lemma ImportedLast(loaded: Inner, n: nat)
    requires n > 1
    ensures ImportedShards(loaded, n) == ImportedShards(loaded, n - 1) + [EMPTY]
  {
    assert Copies(EMPTY, n - 1) == Copies(EMPTY, n - 2) + [EMPTY];
  }

  lemma EmptyLast(front: seq<Inner>, all: seq<Inner>, merged: Inner)
    requires all == front + [EMPTY] && MergeShards(front) == merged
    ensures MergeShards(all) == merged
  {
    MergedLast(front, EMPTY, all);
    MergeWithEmpty(merged);
  }

  lemma MergedLast(front: seq<Inner>, s: Inner, all: seq<Inner>)
    requires all == front + [s]
    ensures MergeShards(all) == MergeInto(MergeShards(front), s)
  {
    assert all[..|front|] == front;
  }

  lemma {:induction false} InsertLast(s: seq<Hour>, x: Hour)
    requires forall i :: 0 <= i < |s| ==> s[i].hour < x.hour
    ensures InsertHour(s, x) == s + [x]
  {
    if s != [] {
      assert s[0].hour < x.hour;
      InsertLast(s[1..], x);
    }
  }

  lemma {:induction false} SortedStays(s: seq<Hour>)
    requires StrictHours(s)
    ensures SortHours(s) == s
    decreases |s|
  {
    if s != [] {
      SortedStays(s[..|s| - 1]);
      InsertLast(s[..|s| - 1], s[|s| - 1]);
    }
  }

  /** Whatever was loaded, merged histograms have the collector's own shape. */
  lemma {:induction false} MergedShape(shards: seq<Inner>)
    ensures ValidShape(MergeShards(shards)) && MergeShards(shards).counters == DnsCache.ZERO
    decreases |shards|
  {
    if shards != [] {
      MergedShape(shards[..|shards| - 1]);
    }
  }

  /** Importing an exported snapshot into any number of shards shows the same snapshot again. */
  lemma ImportReproduces(shards: seq<Inner>, max: nat, n: nat, c: DnsCache.Counters)
    requires n >= 1
    ensures MergedOf(ImportedShards(MergedOf(shards, max).(counters := c), n), max) == MergedOf(shards, max)
  {
    var m := MergedOf(shards, max);
    MergedHoursUnique(shards);
    SortHoursStrict(MergeShards(shards).series);
    MergedShape(shards);
    ImportedMerge(m.(counters := c), n);
    SortedStays(m.series);
  }

  // ---- the shared object ----

  class Collector {
    var shards: seq<Inner>
    const keyCap: nat
    var enabled: bool
    var anonymize: bool
    var maxBuckets: nat
    /** Queries recorded, or restored, since the last reset. */
    ghost var taken: nat

    ghost predicate Valid()
      reads this
    {
      keyCap >= 1 && |shards| >= 1
    }

    /** No histogram is too short for any record. */
    ghost predicate Roomy()
      reads this
    {
      AllLongEnough(shards)
    }

    /** The books of every shard balance, and together they account for each query taken. */
    ghost predicate Balanced()
      reads this
    {
      Valid() && AllConserved(shards) && Totals(shards) == taken
    }

    constructor (n: nat, cap: nat, enabled: bool, hoursKept: nat, anonymize: bool)
      requires n >= 1 && cap >= 1
      ensures Balanced() && Roomy() && taken == 0 && |shards| == n && keyCap == cap
      ensures this.enabled == enabled && this.anonymize == anonymize
      ensures maxBuckets == hoursKept
    {
      var blank := FreshShards(n);
      shards := blank;
      keyCap := cap;
      this.enabled, this.anonymize := enabled, anonymize;
      maxBuckets := hoursKept;
      taken := 0;
    }

    /** Records a query in the shard of the calling thread, whose histograms must have its buckets. */
    method Record(slot: nat, e: LogEntry, rtt: Option<real>)
      requires Valid() && slot < |shards| && (enabled ==> InRange(shards[slot], e, if rtt.Some? then rtt.value else e.elapsedMs))
      modifies this`shards, this`taken
      ensures Valid() && |shards| == old(|shards|) && (old(Balanced()) ==> Balanced()) && (old(Roomy()) ==> Roomy())
      ensures !enabled ==> shards == old(shards) && taken == old(taken)
      ensures enabled ==> taken == old(taken) + 1
      ensures forall i :: 0 <= i < |shards| && i != slot ==> shards[i] == old(shards[i])
      ensures enabled ==>
                Recorded(old(shards[slot]), shards[slot], e, Domains.TrimTrailingDots(e.question),
                         if rtt.Some? then rtt.value else e.elapsedMs, keyCap, anonymize, maxBuckets)
    {
      if !enabled {
        return;
      }
      var ms := if rtt.Some? then rtt.value else e.elapsedMs;
      var s' := RecordIn(shards[slot], e, Domains.TrimTrailingDots(e.question), ms, keyCap, anonymize, maxBuckets);
      OneShardRecorded(shards, slot, s', e, Domains.TrimTrailingDots(e.question), ms, keyCap, anonymize, maxBuckets);
      shards := shards[slot := s'];
      taken := taken + 1;
    }

    method Reset()
      requires Valid()
      modifies this`shards, this`taken
      ensures Balanced() && Roomy() && taken == 0 && shards == Copies(EMPTY, old(|shards|))
    {
      shards := Copies(EMPTY, |shards|);
      taken := 0;
      EmptyTotals(|shards|);
    }

    method Merged() returns (m: Inner)
      requires Valid()
      ensures m == MergedOf(shards, maxBuckets)
      ensures Balanced() ==> m.total == taken && Conserved(m) && Sum(m.hist) + m.errors == m.total
      ensures ValidShape(m)
      ensures StrictHours(m.series) && |m.series| <= maxBuckets
    {
      var acc := EMPTY;
      var i := 0;
      while i < |shards|
        invariant 0 <= i <= |shards|
        invariant acc == MergeShards(shards[..i])
      {
        assert shards[..i + 1][..i] == shards[..i];
        acc := MergeInto(acc, shards[i]);
        i := i + 1;
      }
      assert shards[..i] == shards;
      MergedSeriesStrict(shards, maxBuckets);
      MergedShape(shards);
      if AllConserved(shards) {
        MergedConserves(shards, maxBuckets);
        OwnShapeSum(MergeShards(shards).hist);
      }
      m := WithSeries(acc, Trim(SortHours(acc.series), maxBuckets));
    }

    method Export(c: DnsCache.Counters) returns (m: Inner)
      requires Valid()
      ensures m == MergedOf(shards, maxBuckets).(counters := c)
    {
      m := Merged();
      m := m.(counters := c);
    }

    /**
     Restores a snapshot, or leaves everything alone when it does not parse. Its
     histograms are taken as they come; all later records find their buckets if
     and only if these are long enough.
     */
    method Import(loaded: Option<Inner>) returns (c: DnsCache.Counters)
      requires Valid()
      modifies this`shards, this`taken
      ensures Valid() && (loaded.Some? ==> (Roomy() <==> LongEnough(loaded.value)))
      ensures loaded.Some? && Conserved(loaded.value) ==> Balanced()
      ensures loaded.None? ==> shards == old(shards) && c == DnsCache.ZERO
      ensures loaded.Some? ==> shards == ImportedShards(loaded.value, old(|shards|)) && c == loaded.value.counters
      ensures loaded.Some? ==> taken == loaded.value.total
    {
      if loaded.None? {
        return DnsCache.ZERO;
      }
      var n := |shards|;
      shards := ImportedShards(loaded.value, n);
      taken := loaded.value.total;
      ImportedTotals(loaded.value, n);
      ImportedShapes(loaded.value, n);
      return loaded.value.counters;
    }
  }

  lemma OneShardRecorded(shards: seq<Inner>, slot: nat, s': Inner, e: LogEntry, domain: string, ms: real, cap: nat, anonymize: bool, max: nat)
    requires slot < |shards| && cap >= 1
    requires Recorded(shards[slot], s', e, domain, ms, cap, anonymize, max)
    ensures Totals(shards[slot := s']) == Totals(shards) + 1
    ensures AllConserved(shards) ==> AllConserved(shards[slot := s'])
    ensures AllLongEnough(shards) ==> AllLongEnough(shards[slot := s'])
  {
    if AllLongEnough(shards) {
      RecordedLongEnough(shards[slot], s', e, domain, ms, cap, anonymize, max);
    }
    TotalsUpdate(shards, slot, s');
    if AllConserved(shards) {
      RecordingConserves(shards[slot], s', e, domain, ms, cap, anonymize, max);
    }
  }

  lemma EmptyConserved()
    ensures Conserved(EMPTY) && LongEnough(EMPTY)
  {
    BlankConserved(EMPTY);
  }

  ghost predicate AllLongEnough(shards: seq<Inner>) {
    forall i :: 0 <= i < |shards| ==> LongEnough(shards[i])
  }

  ghost predicate AllConserved(shards: seq<Inner>) {
    forall i :: 0 <= i < |shards| ==> Conserved(shards[i])
  }

  lemma OneMoreShard(shards: seq<Inner>, s: Inner)
    requires AllConserved(shards) && AllLongEnough(shards) && Conserved(s) && LongEnough(s)
    ensures AllConserved(shards + [s]) && AllLongEnough(shards + [s])
    ensures Totals(shards + [s]) == Totals(shards) + s.total
  {
    assert (shards + [s])[..|shards|] == shards;
  }

  function Copies(s: Inner, n: nat): (r: seq<Inner>)
    ensures |r| == n
  {
    if n == 0 then [] else Copies(s, n - 1) + [s]
  }

  lemma {:induction false} CopiesConserve(s: Inner, n: nat)
    requires Conserved(s) && LongEnough(s) && s.total == 0
    ensures Totals(Copies(s, n)) == 0 && AllLongEnough(Copies(s, n)) && AllConserved(Copies(s, n))
    decreases n
  {
    if n > 0 {
      CopiesConserve(s, n - 1);
      OneMoreShard(Copies(s, n - 1), s);
    }
  }

  method FreshShards(n: nat) returns (r: seq<Inner>)
    ensures |r| == n
    ensures Totals(r) == 0 && AllLongEnough(r) && AllConserved(r)
  {
    EmptyTotals(n);
    r := Copies(EMPTY, n);
  }

  lemma EmptyTotals(n: nat)
    ensures Totals(Copies(EMPTY, n)) == 0 && AllLongEnough(Copies(EMPTY, n)) && AllConserved(Copies(EMPTY, n))
  {
    EmptyConserved();
    CopiesConserve(EMPTY, n);
  }

  lemma {:induction false} TotalsUpdate(shards: seq<Inner>, i: nat, s: Inner)
    requires i < |shards|
    ensures Totals(shards[i := s]) == Totals(shards) - shards[i].total + s.total
    decreases |shards|
  {
    var n := |shards| - 1;
    if i < n {
      TotalsUpdate(shards[..n], i, s);
      assert shards[i := s][..n] == shards[..n][i := s];
    } else {
      assert shards[i := s][..n] == shards[..n];
    }
  }

  lemma {:induction false} ImportedTotals(loaded: Inner, n: nat)
    requires n >= 1
    ensures Totals(ImportedShards(loaded, n)) == loaded.total
    decreases n
  {
    var shards := ImportedShards(loaded, n);
    if n > 1 {
      ImportedTotals(loaded, n - 1);
      assert shards[..n - 1] == ImportedShards(loaded, n - 1);
    } else {
      assert shards[..0] == [];
    }
  }

  lemma FirstDecides(loaded: Inner, rest: seq<Inner>)
    requires AllLongEnough(rest) && AllConserved(rest)
    ensures AllLongEnough([loaded] + rest) <==> LongEnough(loaded)
    ensures Conserved(loaded) ==> AllConserved([loaded] + rest)
  {
    assert ([loaded] + rest)[0] == loaded;
  }

  lemma ImportedShapes(loaded: Inner, n: nat)
    requires n >= 1
    ensures AllLongEnough(ImportedShards(loaded, n)) <==> LongEnough(loaded)
    ensures Conserved(loaded) ==> AllConserved(ImportedShards(loaded, n))
  {
    EmptyTotals(n - 1);
    FirstDecides(loaded, Copies(EMPTY, n - 1));
  }

  lemma OwnShapeSum(hist: seq<nat>)
    requires ValidHist(hist)
    ensures Sum(Resized(hist)) == Sum(hist)
  {
    if hist == [] {
      ResizedEmpty();
    } else {
      ResizedStays(hist);
    }
  }

  /** The buckets a record adds to exist in the shard's histograms. */
  predicate InRange(s: Inner, e: LogEntry, ms: real) {
    && (e.action.Errored? || HasBucket(s.hist, Q.HistIndex(e.elapsedMs)))
    && (e.action.Forwarded? && e.action.upstream in s.latency ==> Q.HistIndex(ms) < |s.latency[e.action.upstream]|)
  }

  ghost predicate LongEnough(s: Inner) {
    (s.hist == [] || |s.hist| >= Q.BUCKETS) && forall k :: k in s.latency ==> |s.latency[k]| >= Q.BUCKETS
  }

  /** Every record finds its buckets if and only if no histogram of the shard is too short. */
  lemma RecordsInRangeIff(s: Inner)
    ensures (forall e, ms :: InRange(s, e, ms)) <==> LongEnough(s)
  {
    assert Q.HistIndex(2000.0) == 10;
    if forall e, ms :: InRange(s, e, ms) {
      assert InRange(s, LogEntry(0, "", "", Cached, false, 2000.0), 0.0);
      forall k | k in s.latency ensures |s.latency[k]| >= Q.BUCKETS {
        assert InRange(s, LogEntry(0, "", "", Forwarded(k), false, 0.0), 2000.0);
      }
    } else {
      var e, ms :| !InRange(s, e, ms);
    }
  }

  /** A loaded histogram of one bucket has none for a slow answer. */
  lemma ShortHistogramFails()
    ensures !InRange(EMPTY.(hist := [0]), LogEntry(0, "", "", Cached, false, 2000.0), 0.0)
  {
    assert Q.HistIndex(2000.0) == 10;
  }

  /** Recording shortens no histogram. */
  lemma RecordedLongEnough(s: Inner, s': Inner, e: LogEntry, domain: string, ms: real, cap: nat, anonymize: bool, max: nat)
    requires LongEnough(s) && Recorded(s, s', e, domain, ms, cap, anonymize, max)
    ensures LongEnough(s')
  {
  }

  method Estimate(s: Inner, e: LogEntry, domain: string, cap: nat, anonymize: bool) returns (s': Inner)
    ensures Estimated(s, s', e, domain, cap, anonymize)
    ensures s' == s.(resolvedDomains := s'.resolvedDomains, blockedDomains := s'.blockedDomains, clients := s'.clients)
  {
    s' := s;
    if IsBlocked(e) {
      var d := HH.Bump(s.blockedDomains, domain, 1, cap);
      s' := s'.(blockedDomains := d);
    } else {
      var d := HH.Bump(s.resolvedDomains, domain, 1, cap);
      s' := s'.(resolvedDomains := d);
    }
    if !anonymize {
      var c := HH.Bump(s.clients, e.client, 1, cap);
      s' := s'.(clients := c);
    }
  }

  method RecordUpstream(s: Inner, e: LogEntry, ms: real, cap: nat) returns (s': Inner)
    requires e.action.Forwarded? && e.action.upstream in s.latency ==> Q.HistIndex(ms) < |s.latency[e.action.upstream]|
    ensures UpstreamRecorded(s, s', e, ms, cap)
    ensures s' == s.(upstreams := s'.upstreams, rttSum := s'.rttSum, rttCount := s'.rttCount, latency := s'.latency)
  {
    s' := s;
    if e.action.Forwarded? {
      var up := e.action.upstream;
      var h := if up in s.latency then s.latency[up] else ZEROS;
      var i := Q.HistIndex(ms);
      s' := s.(upstreams := CappedBump(s.upstreams, up, cap),
               rttSum := s.rttSum[up := (if up in s.rttSum then s.rttSum[up] else 0.0) + ms],
               rttCount := s.rttCount[up := HH.CountOf(s.rttCount, up) + 1],
               latency := s.latency[up := h[i := h[i] + 1]]);
    }
  }

  /** The body of `record` under the shard lock. */
  method RecordIn(s: Inner, e: LogEntry, domain: string, ms: real, cap: nat, anonymize: bool, max: nat) returns (s': Inner)
    requires InRange(s, e, ms)
    ensures Recorded(s, s', e, domain, ms, cap, anonymize, max)
  {
    var est := Estimate(s, e, domain, cap, anonymize);
    var up := RecordUpstream(s, e, ms, cap);
    s' := Tally(s, e, max).(resolvedDomains := est.resolvedDomains, blockedDomains := est.blockedDomains, clients := est.clients,
                            upstreams := up.upstreams, rttSum := up.rttSum, rttCount := up.rttCount, latency := up.latency);
  }
}
