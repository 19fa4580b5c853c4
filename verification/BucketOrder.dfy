/**
 The hash-bucketed domain index as a layout of (hash, rule) pairs: sorted by hash,
 each pair once, equal hashes in any order. Every such layout is one the unstable
 sort may produce, and every order of the rules gives one.
 */
module BucketOrder {
  import opened Rules
  import opened FilterEngine

  type Pairs = seq<(int, nat)>

  // ---- layouts ----

  ghost predicate SortedByHash(s: Pairs) {
    forall i, j :: 0 <= i < j < |s| ==> s[i].0 <= s[j].0
  }

  /** `ranges` cuts the first `n` sorted pairs into maximal blocks of one hash each. */
  ghost predicate RangesOf(ranges: map<int, (nat, nat)>, sorted: Pairs, n: nat)
    requires n <= |sorted|
  {
    && (forall h :: h in ranges ==> ranges[h].0 < ranges[h].0 + ranges[h].1 <= n)
    && (forall h, k :: h in ranges && 0 <= k < n ==> (ranges[h].0 <= k < ranges[h].0 + ranges[h].1 <==> sorted[k].0 == h))
    && (forall k :: 0 <= k < n ==> sorted[k].0 in ranges)
  }

  /** The index reads off these sorted pairs. */
  ghost predicate IndexOf(ix: DomainIndex, sorted: Pairs) {
    && |ix.hits| == |sorted| && (forall k :: 0 <= k < |sorted| ==> ix.hits[k] == sorted[k].1)
    && SortedByHash(sorted) && RangesOf(ix.ranges, sorted, |sorted|)
  }

  /** The index holds exactly these pairs, each as often as it was given, sorted by hash. */
  ghost predicate LaidOut(ix: DomainIndex, pairs: Pairs) {
    exists sorted :: IndexOf(ix, sorted) && multiset(sorted) == multiset(pairs)
  }

  lemma RangesGrow(ranges: map<int, (nat, nat)>, sorted: Pairs, i: nat, j: nat)
    requires i < j <= |sorted| && RangesOf(ranges, sorted, i)
    requires forall k :: 0 <= k < i ==> sorted[k].0 < sorted[i].0
    requires forall k :: i <= k < j ==> sorted[k].0 == sorted[i].0
    ensures RangesOf(ranges[sorted[i].0 := (i, j - i)], sorted, j)
  {
    forall h | h in ranges ensures h != sorted[i].0 && ranges[h].0 + ranges[h].1 <= i {
      assert sorted[ranges[h].0].0 == h;
    }
  }

  lemma IndexOfIsValid(ix: DomainIndex, sorted: Pairs)
    requires IndexOf(ix, sorted)
    ensures ValidIndex(ix)
  {
  }

  /** A bucket has a rule as often as the pairs have it under that hash. */
  lemma BucketCounts(ix: DomainIndex, pairs: Pairs, h: int, id: nat)
    requires LaidOut(ix, pairs)
    ensures ValidIndex(ix) && multiset(Bucket(ix, h))[id] == multiset(pairs)[(h, id)]
  {
    var sorted: Pairs :| IndexOf(ix, sorted) && multiset(sorted) == multiset(pairs);
    IndexOfIsValid(ix, sorted);
    if h in ix.ranges {
      var (at, len) := ix.ranges[h];
      BlockCounts(sorted, Bucket(ix, h), at, h, id);
    } else {
      NotUnder(sorted, h, id);
    }
  }

  lemma CountAppend<T>(a: seq<T>, b: seq<T>, x: T)
    ensures multiset(a + b)[x] == multiset(a)[x] + multiset(b)[x]
  {
  }

  lemma BlockCounts(sorted: Pairs, ids: seq<nat>, at: nat, h: int, id: nat)
    requires at + |ids| <= |sorted| && forall k :: 0 <= k < |ids| ==> sorted[at + k].1 == ids[k]
    requires forall k :: 0 <= k < |sorted| ==> (at <= k < at + |ids| <==> sorted[k].0 == h)
    ensures multiset(sorted)[(h, id)] == multiset(ids)[id]
  {
    var front, mid, back := sorted[..at], sorted[at..at + |ids|], sorted[at + |ids|..];
    assert sorted == front + mid + back;
    CountAppend(front + mid, back, (h, id));
    CountAppend(front, mid, (h, id));
    NotUnder(front, h, id);
    NotUnder(back, h, id);
    UnderOne(mid, ids, h, id);
  }

  lemma {:induction false} NotUnder(s: Pairs, h: int, id: nat)
    requires forall k :: 0 <= k < |s| ==> s[k].0 != h
    ensures multiset(s)[(h, id)] == 0
  {
    assert (h, id) !in s;
  }

  lemma {:induction false} UnderOne(s: Pairs, ids: seq<nat>, h: int, id: nat)
    requires |ids| == |s| && forall k :: 0 <= k < |s| ==> s[k] == (h, ids[k])
    ensures multiset(s)[(h, id)] == multiset(ids)[id]
    decreases |s|
  {
    if s != [] {
      var n := |s| - 1;
      UnderOne(s[..n], ids[..n], h, id);
      assert s == s[..n] + [s[n]] && ids == ids[..n] + [ids[n]];
    }
  }

  // ---- the pairs of a rule list ----

  predicate OfKind(p: Pattern, exact: bool) {
    if exact then p.Exact? else p.Subdomain?
  }

  predicate Picked(rules: seq<BuildRule>, hash: string -> int, h: int, exact: bool, id: nat) {
    id < |rules| && OfKind(rules[id].rule.pattern, exact) && hash(rules[id].rule.pattern.domain) == h
  }

  /** The pair a rule adds to those of one kind, if it is of that kind. */
  function OwnPair(p: Pattern, hash: string -> int, exact: bool, id: nat): Pairs {
    if OfKind(p, exact) then [(hash(p.domain), id)] else []
  }

  function OwnPairs(rules: seq<BuildRule>, hash: string -> int, exact: bool): nat -> Pairs {
    (id: nat) => if id < |rules| then OwnPair(rules[id].rule.pattern, hash, exact, id) else []
  }

  function Joined(own: nat -> Pairs, n: nat): Pairs {
    if n == 0 then [] else Joined(own, n - 1) + own(n - 1)
  }

  /** The pairs of the first `n` rules. */
  function PairsFirst(rules: seq<BuildRule>, hash: string -> int, exact: bool, n: nat): Pairs {
    Joined(OwnPairs(rules, hash, exact), n)
  }

  function PairsOf(rules: seq<BuildRule>, hash: string -> int, exact: bool): Pairs {
    PairsFirst(rules, hash, exact, |rules|)
  }

  lemma {:induction false} JoinedCount(own: nat -> Pairs, n: nat, x: (int, nat))
    requires forall i: nat :: i != x.1 ==> multiset(own(i))[x] == 0
    ensures multiset(Joined(own, n))[x] == if x.1 < n then multiset(own(x.1))[x] else 0
  {
    if n > 0 {
      JoinedCount(own, n - 1, x);
      CountAppend(Joined(own, n - 1), own(n - 1), x);
    }
  }

  lemma OwnCount(p: Pattern, hash: string -> int, exact: bool, id: nat, x: (int, nat))
    ensures multiset(OwnPair(p, hash, exact, id))[x] == if OfKind(p, exact) && x == (hash(p.domain), id) then 1 else 0
  {
  }

  lemma PairsCount(rules: seq<BuildRule>, hash: string -> int, exact: bool, h: int, id: nat)
    ensures multiset(PairsOf(rules, hash, exact))[(h, id)] == if Picked(rules, hash, h, exact, id) then 1 else 0
  {
    var own := OwnPairs(rules, hash, exact);
    forall i: nat ensures multiset(own(i))[(h, id)] == if i == id && Picked(rules, hash, h, exact, id) then 1 else 0 {
      if i < |rules| {
        OwnCount(rules[i].rule.pattern, hash, exact, i, (h, id));
      }
    }
    JoinedCount(own, |rules|, (h, id));
  }

  /** Buckets hold the rules of their kind and hash, and nothing else is indexed. */
  ghost predicate Holds(ix: DomainIndex, rules: seq<BuildRule>, hash: string -> int, exact: bool) {
    && ValidIndex(ix) && HitsBelow(ix, |rules|)
    && forall h: int, id: nat :: id in Bucket(ix, h) <==> Picked(rules, hash, h, exact, id)
  }

  lemma LaidOutHolds(ix: DomainIndex, rules: seq<BuildRule>, hash: string -> int, exact: bool)
    requires LaidOut(ix, PairsOf(rules, hash, exact))
    ensures Holds(ix, rules, hash, exact)
  {
    var pairs := PairsOf(rules, hash, exact);
    var sorted: Pairs :| IndexOf(ix, sorted) && multiset(sorted) == multiset(pairs);
    IndexOfIsValid(ix, sorted);
    forall h: int, id: nat ensures id in Bucket(ix, h) <==> Picked(rules, hash, h, exact, id) {
      BucketCounts(ix, pairs, h, id);
      PairsCount(rules, hash, exact, h, id);
      assert id in Bucket(ix, h) <==> multiset(Bucket(ix, h))[id] > 0;
    }
    forall k | 0 <= k < |ix.hits| ensures ix.hits[k] < |rules| {
      assert sorted[k] in multiset(sorted);
      PairsCount(rules, hash, exact, sorted[k].0, sorted[k].1);
    }
  }

  /** No bucket of a list's index has a rule twice. */
  lemma BucketsRepeatNothing(ix: DomainIndex, rules: seq<BuildRule>, hash: string -> int, exact: bool, h: int, id: nat)
    requires LaidOut(ix, PairsOf(rules, hash, exact))
    ensures ValidIndex(ix) && multiset(Bucket(ix, h))[id] == if Picked(rules, hash, h, exact, id) then 1 else 0
  {
    BucketCounts(ix, PairsOf(rules, hash, exact), h, id);
    PairsCount(rules, hash, exact, h, id);
  }

  predicate HitsBelow(ix: DomainIndex, n: nat) {
    forall k :: 0 <= k < |ix.hits| ==> ix.hits[k] < n
  }

  // ---- a layout for every order ----

  /** Every rule is listed, and once. */
  ghost predicate Permutes(ids: seq<nat>, n: nat) {
    forall id: nat :: multiset(ids)[id] == if id < n then 1 else 0
  }

  /** The listed rules of one kind and one hash, in the order listed. */
  function Pick(rules: seq<BuildRule>, hash: string -> int, h: int, exact: bool, ids: seq<nat>): (r: seq<nat>)
    ensures forall id: nat :: id in r <==> id in ids && Picked(rules, hash, h, exact, id)
  {
    if ids == [] then []
    else (if Picked(rules, hash, h, exact, ids[0]) then [ids[0]] else []) + Pick(rules, hash, h, exact, ids[1..])
  }

  lemma PickAppend(rules: seq<BuildRule>, hash: string -> int, h: int, exact: bool, a: seq<nat>, b: seq<nat>)
    ensures Pick(rules, hash, h, exact, a + b) == Pick(rules, hash, h, exact, a) + Pick(rules, hash, h, exact, b)
  {
    if a == [] {
      assert a + b == b;
    } else {
      assert (a + b)[1..] == a[1..] + b;
      PickAppend(rules, hash, h, exact, a[1..], b);
    }
  }

  lemma {:induction false} PickCount(rules: seq<BuildRule>, hash: string -> int, h: int, exact: bool, ids: seq<nat>, id: nat)
    ensures multiset(Pick(rules, hash, h, exact, ids))[id] == if Picked(rules, hash, h, exact, id) then multiset(ids)[id] else 0
    decreases |ids|
  {
    if ids != [] {
      PickCount(rules, hash, h, exact, ids[1..], id);
      assert ids == [ids[0]] + ids[1..];
    }
  }

  function Under(h: int, ids: seq<nat>): (r: Pairs)
    ensures |r| == |ids| && forall k :: 0 <= k < |ids| ==> r[k] == (h, ids[k])
  {
    seq(|ids|, k requires 0 <= k < |ids| => (h, ids[k]))
  }

  /** The pairs of the buckets below `n`, side by side. */
  function PairsBelow(bucket: int -> seq<nat>, n: nat): Pairs {
    if n == 0 then [] else PairsBelow(bucket, n - 1) + Under(n - 1, bucket(n - 1))
  }

  /** Their index. */
  function IndexBelow(bucket: int -> seq<nat>, n: nat): DomainIndex {
    if n == 0 then DomainIndex(map[], []) else AddBucket(IndexBelow(bucket, n - 1), n - 1, bucket(n - 1))
  }

  function AddBucket(ix: DomainIndex, h: int, b: seq<nat>): DomainIndex {
    if b == [] then ix else DomainIndex(ix.ranges[h := (|ix.hits|, |b|)], ix.hits + b)
  }

  /** Sorted pairs, all of a hash below `n`. */
  ghost predicate Below(s: Pairs, n: int) {
    forall k :: 0 <= k < |s| ==> s[k].0 < n
  }

  lemma AddBucketIndexes(ix: DomainIndex, sorted: Pairs, h: int, b: seq<nat>)
    requires IndexOf(ix, sorted) && Below(sorted, h)
    ensures IndexOf(AddBucket(ix, h, b), sorted + Under(h, b)) && Below(sorted + Under(h, b), h + 1)
  {
    var all := sorted + Under(h, b);
    if b == [] {
      assert all == sorted;
    } else {
      assert RangesOf(ix.ranges, all, |sorted|);
      assert all[|sorted|] == (h, b[0]);
      RangesGrow(ix.ranges, all, |sorted|, |all|);
    }
  }

  lemma AddBucketBuckets(ix: DomainIndex, sorted: Pairs, h: int, b: seq<nat>, h': int)
    requires IndexOf(ix, sorted) && Below(sorted, h)
    ensures ValidIndex(ix) && ValidIndex(AddBucket(ix, h, b))
    ensures Bucket(AddBucket(ix, h, b), h') == if h' == h then b else Bucket(ix, h')
  {
    forall g | g in ix.ranges ensures g != h {
      assert sorted[ix.ranges[g].0].0 == g;
    }
    var hits := ix.hits + b;
    if h' == h {
      assert hits[|ix.hits|..|ix.hits| + |b|] == b;
    } else if h' in ix.ranges {
      var (at, len) := ix.ranges[h'];
      assert hits[at..at + len] == ix.hits[at..at + len];
    }
  }

  ghost predicate IndexedBelow(ix: DomainIndex, sorted: Pairs, n: int) {
    IndexOf(ix, sorted) && Below(sorted, n)
  }

  lemma BucketIndexed(ix: DomainIndex, sorted: Pairs, n: int, b: seq<nat>)
    ensures IndexedBelow(ix, sorted, n) ==> IndexedBelow(AddBucket(ix, n, b), sorted + Under(n, b), n + 1)
  {
    if IndexedBelow(ix, sorted, n) {
      AddBucketIndexes(ix, sorted, n, b);
    }
  }

  lemma {:induction false} IndexBelowIndexes(bucket: int -> seq<nat>, n: nat)
    ensures IndexedBelow(IndexBelow(bucket, n), PairsBelow(bucket, n), n)
  {
    if n > 0 {
      IndexBelowIndexes(bucket, n - 1);
      BucketIndexed(IndexBelow(bucket, n - 1), PairsBelow(bucket, n - 1), n - 1, bucket(n - 1));
    }
  }

  ghost predicate BucketIs(ix: DomainIndex, h: int, b: seq<nat>) {
    ValidIndex(ix) && Bucket(ix, h) == b
  }

  lemma {:induction false} IndexBelowBuckets(bucket: int -> seq<nat>, n: nat, h: int)
    ensures BucketIs(IndexBelow(bucket, n), h, if 0 <= h < n then bucket(h) else [])
    decreases n
  {
    if n > 0 {
      IndexBelowBuckets(bucket, n - 1, h);
      IndexBelowIndexes(bucket, n - 1);
      AddBucketBuckets(IndexBelow(bucket, n - 1), PairsBelow(bucket, n - 1), n - 1, bucket(n - 1), h);
    }
  }

  lemma {:induction false} BelowCount(bucket: int -> seq<nat>, n: nat, h: int, id: nat)
    ensures multiset(PairsBelow(bucket, n))[(h, id)] == if 0 <= h < n then multiset(bucket(h))[id] else 0
    decreases n
  {
    if n > 0 {
      BelowCount(bucket, n - 1, h, id);
      BlockAdded(PairsBelow(bucket, n - 1), n - 1, bucket(n - 1), h, id);
    }
  }

  lemma BlockAdded(front: Pairs, n: int, b: seq<nat>, h: int, id: nat)
    ensures multiset(front + Under(n, b))[(h, id)] == multiset(front)[(h, id)] + if h == n then multiset(b)[id] else 0
  {
    CountAppend(front, Under(n, b), (h, id));
    UnderCount(n, b, h, id);
  }

  lemma UnderCount(n: int, b: seq<nat>, h: int, id: nat)
    ensures multiset(Under(n, b))[(h, id)] == if h == n then multiset(b)[id] else 0
  {
    if h == n {
      UnderOne(Under(h, b), b, h, id);
    } else {
      NotUnder(Under(n, b), h, id);
    }
  }

  /** The buckets of a rule list, each in the order listed. */
  function BucketsOf(rules: seq<BuildRule>, hash: string -> int, exact: bool, ids: seq<nat>): int -> seq<nat> {
    h => Pick(rules, hash, h, exact, ids)
  }

  /** However the rules are ordered, each bucket in that order makes a layout of the list's pairs. */
  lemma OrderIsLaidOut(rules: seq<BuildRule>, hash: string -> int, exact: bool, ids: seq<nat>, n: nat)
    requires Permutes(ids, |rules|) && forall s :: 0 <= hash(s) < n
    ensures LaidOut(IndexBelow(BucketsOf(rules, hash, exact, ids), n), PairsOf(rules, hash, exact))
  {
    var bucket := BucketsOf(rules, hash, exact, ids);
    var sorted, pairs := PairsBelow(bucket, n), PairsOf(rules, hash, exact);
    IndexBelowIndexes(bucket, n);
    forall p: (int, nat) ensures multiset(sorted)[p] == multiset(pairs)[p] {
      BelowCount(bucket, n, p.0, p.1);
      PickCount(rules, hash, p.0, exact, ids, p.1);
      PairsCount(rules, hash, exact, p.0, p.1);
    }
    assert multiset(sorted) == multiset(pairs);
  }

  // ---- orders ----

  /** The ids below `n` for which `p` holds, or does not. */
  function Those(p: nat -> bool, holds: bool, n: nat): (ids: seq<nat>)
    ensures forall id: nat :: id in ids <==> id < n && p(id) == holds
  {
    if n == 0 then [] else Those(p, holds, n - 1) + (if p(n - 1) == holds then [n - 1] else [])
  }

  /** All ids, those with `p` first. */
  function FirstThose(p: nat -> bool, n: nat): seq<nat> {
    Those(p, true, n) + Those(p, false, n)
  }

  lemma {:induction false} ThoseCount(p: nat -> bool, holds: bool, n: nat, id: nat)
    ensures multiset(Those(p, holds, n))[id] == if id < n && p(id) == holds then 1 else 0
  {
    if n > 0 {
      ThoseCount(p, holds, n - 1, id);
      CountAppend(Those(p, holds, n - 1), if p(n - 1) == holds then [n - 1] else [], id);
    }
  }

  lemma FirstThosePermutes(p: nat -> bool, n: nat)
    ensures Permutes(FirstThose(p, n), n)
  {
    forall id: nat ensures multiset(FirstThose(p, n))[id] == if id < n then 1 else 0 {
      ThoseCount(p, true, n, id);
      ThoseCount(p, false, n, id);
    }
  }
}
