/** Order in which upstreams are tried: a stable sort by health, then hysteresis for the current leader. */
module Ranking {
  import opened Wrappers
  import Health

  /** Compared field by field, `false` before `true`. */
  datatype Key = Key(down: bool, unsampled: bool, failing: bool, latency: nat)

  function Rounded(ms: real): nat {
    if ms < 0.0 then 0 else (ms + 0.5).Floor
  }

  function SortKey(h: Health.State): Key {
    Key(!h.up, h.probeSamples == 0, h.consecutiveFailures > 0,
        if h.probeSamples > 0 then Rounded(h.probeEwma) else 0)
  }

  predicate Less(a: Key, b: Key) {
    if a.down != b.down then b.down
    else if a.unsampled != b.unsampled then b.unsampled
    else if a.failing != b.failing then b.failing
    else a.latency < b.latency
  }

  /** The latency that counts towards the lead, for a clean sampled upstream only. */
  function EligibleLatency(h: Health.State): Option<real> {
    if h.up && h.consecutiveFailures == 0 && h.probeSamples > 0 then Some(h.probeEwma) else None
  }

  function SwitchMargin(ms: real): real {
    if ms * 0.15 < 5.0 then 5.0 else ms * 0.15
  }

  // ---- stable sort ----

  /** Strict order of a stable sort: by key, then by position in the configuration. */
  predicate Before(hs: seq<Health.State>, i: nat, j: nat)
    requires i < |hs| && j < |hs|
  {
    Less(SortKey(hs[i]), SortKey(hs[j])) || (SortKey(hs[i]) == SortKey(hs[j]) && i < j)
  }

  ghost predicate Within(order: seq<nat>, n: nat) {
    forall p :: 0 <= p < |order| ==> order[p] < n
  }

  ghost predicate Sorted(hs: seq<Health.State>, order: seq<nat>)
    requires Within(order, |hs|)
  {
    forall p, q :: 0 <= p < q < |order| ==> Before(hs, order[p], order[q])
  }

  /** Every one of the `n` upstreams once. */
  ghost predicate IsPermutation(order: seq<nat>, n: nat) {
    && |order| == n
    && Within(order, n)
    && (forall p, q :: 0 <= p < q < n ==> order[p] != order[q])
    && (forall i: nat :: i < n ==> i in order)
  }

  function Insert(hs: seq<Health.State>, order: seq<nat>, i: nat): (r: seq<nat>)
    requires i < |hs| && Within(order, |hs|)
    ensures Within(r, |hs|) && |r| == |order| + 1
    ensures forall x :: x in r <==> x in order || x == i
  {
    if order == [] then [i]
    else
      var last := order[|order| - 1];
      assert order == order[..|order| - 1] + [last];
      if Less(SortKey(hs[i]), SortKey(hs[last]))
      then Insert(hs, order[..|order| - 1], i) + [last]
      else order + [i]
  }

  function SortFirst(hs: seq<Health.State>, n: nat): (r: seq<nat>)
    requires n <= |hs|
    ensures Within(r, |hs|) && |r| == n
  {
    if n == 0 then [] else Insert(hs, SortFirst(hs, n - 1), n - 1)
  }

  function SortByKey(hs: seq<Health.State>): (r: seq<nat>)
    ensures Within(r, |hs|) && |r| == |hs|
  {
    SortFirst(hs, |hs|)
  }

  lemma {:induction false} InsertSorted(hs: seq<Health.State>, order: seq<nat>, i: nat)
    requires i < |hs| && Within(order, |hs|) && Sorted(hs, order)
    requires forall p :: 0 <= p < |order| ==> order[p] < i
    ensures Sorted(hs, Insert(hs, order, i))
    decreases |order|
  {
    if order != [] {
      var front, last := order[..|order| - 1], order[|order| - 1];
      if Less(SortKey(hs[i]), SortKey(hs[last])) {
        InsertSorted(hs, front, i);
        var r := Insert(hs, front, i);
        assert Insert(hs, order, i) == r + [last];
        forall p: nat | p < |r| ensures Before(hs, r[p], last) {
          assert r[p] in r;
        }
      } else {
        forall p: nat | p < |order| ensures Before(hs, order[p], i) {
          assert p < |order| - 1 ==> Before(hs, order[p], last);
        }
      }
    }
  }

  lemma InsertAddsNext(hs: seq<Health.State>, prev: seq<nat>, n: nat, r: seq<nat>)
    requires 0 < n <= |hs| && Within(prev, |hs|) && r == Insert(hs, prev, n - 1)
    requires forall i: nat :: i < n - 1 <==> i in prev
    ensures forall i: nat :: i < n <==> i in r
    ensures forall p :: 0 <= p < |prev| ==> prev[p] < n - 1
  {
    forall p | 0 <= p < |prev| ensures prev[p] < n - 1 {
      assert prev[p] in prev;
    }
  }

  lemma {:induction false} SortFirstIsSorted(hs: seq<Health.State>, n: nat, r: seq<nat>)
    requires n <= |hs| && r == SortFirst(hs, n)
    ensures Sorted(hs, r)
    ensures forall i: nat :: i < n <==> i in r
  {
    if n > 0 {
      var prev := SortFirst(hs, n - 1);
      SortFirstIsSorted(hs, n - 1, prev);
      InsertAddsNext(hs, prev, n, r);
      InsertSorted(hs, prev, n - 1);
    }
  }

  lemma SortByKeyIsStableSort(hs: seq<Health.State>)
    ensures Sorted(hs, SortByKey(hs)) && IsPermutation(SortByKey(hs), |hs|)
  {
    var r := SortByKey(hs);
    SortFirstIsSorted(hs, |hs|, r);
    assert forall p :: 0 <= p < |r| ==> r[p] in r;
    forall p: nat, q: nat | p < q < |hs| ensures r[p] != r[q] {
      assert Before(hs, r[p], r[q]);
    }
  }

  lemma DropLast(hs: seq<Health.State>, s: seq<nat>, x: nat)
    requires s != [] && Within(s, |hs|) && Sorted(hs, s)
    ensures x in s[..|s| - 1] <==> x in s && x != s[|s| - 1]
  {
    var front, last := s[..|s| - 1], s[|s| - 1];
    assert s == front + [last];
    if x in front {
      assert Before(hs, s[IndexOf(front, x)], last);
    }
  }

  lemma SameLast(hs: seq<Health.State>, a: seq<nat>, b: seq<nat>)
    requires Within(a, |hs|) && Within(b, |hs|) && Sorted(hs, a) && Sorted(hs, b)
    requires a != [] && b != [] && a[|a| - 1] in b && b[|b| - 1] in a
    ensures a[|a| - 1] == b[|b| - 1]
  {
    var i, j := a[|a| - 1], b[|b| - 1];
    var p, q := IndexOf(b, i), IndexOf(a, j);
    assert p < |b| - 1 ==> Before(hs, b[p], b[|b| - 1]);
    assert q < |a| - 1 ==> Before(hs, a[q], a[|a| - 1]);
  }

  /** The stable order is unique, so any correct stable sort gives this one. */
  lemma {:induction false} StableOrderIsUnique(hs: seq<Health.State>, a: seq<nat>, b: seq<nat>)
    requires Within(a, |hs|) && Within(b, |hs|) && Sorted(hs, a) && Sorted(hs, b)
    requires forall x :: x in a <==> x in b
    ensures a == b
    decreases |a|
  {
    assert b != [] ==> b[0] in a by {
      if b != [] {
        assert b[0] in b;
      }
    }
    if a != [] {
      assert a[|a| - 1] in b;
      assert b[|b| - 1] in b;
      SameLast(hs, a, b);
      var front, rest := a[..|a| - 1], b[..|b| - 1];
      forall x ensures x in front <==> x in rest {
        DropLast(hs, a, x);
        DropLast(hs, b, x);
      }
      StableOrderIsUnique(hs, front, rest);
      assert a == front + [a[|a| - 1]] && b == rest + [b[|b| - 1]];
    }
  }

  // ---- hysteresis ----

  datatype Selection = Selection(order: seq<nat>, held: bool)

  function IndexOf(order: seq<nat>, i: nat): (p: nat)
    ensures p <= |order|
    ensures i in order <==> p < |order|
    ensures p < |order| ==> order[p] == i
    ensures forall q :: 0 <= q < p ==> order[q] != i
  {
    if order == [] || order[0] == i then 0 else 1 + IndexOf(order[1..], i)
  }

  function MoveToFront(order: seq<nat>, p: nat): seq<nat>
    requires p < |order|
  {
    [order[p]] + order[..p] + order[p + 1..]
  }

  /** Whether hysteresis keeps upstream `p` of the sorted order in the lead. */
  predicate KeepsLead(hs: seq<Health.State>, order: seq<nat>, p: nat)
    requires p < |order| && Within(order, |hs|)
  {
    && p != 0
    && EligibleLatency(hs[order[p]]).Some?
    && EligibleLatency(hs[order[0]]).Some?
    && EligibleLatency(hs[order[p]]).value - EligibleLatency(hs[order[0]]).value
       <= SwitchMargin(EligibleLatency(hs[order[p]]).value)
  }

  function Select(hs: seq<Health.State>, leader: Option<nat>): Selection {
    var order := SortByKey(hs);
    if leader.None? then Selection(order, false)
    else
      var p := IndexOf(order, leader.value);
      if p < |order| && KeepsLead(hs, order, p) then Selection(MoveToFront(order, p), true)
      else Selection(order, false)
  }

  lemma MoveToFrontAt(order: seq<nat>, p: nat, q: nat)
    requires p < |order| && q < |order|
    ensures |MoveToFront(order, p)| == |order|
    ensures MoveToFront(order, p)[q] == order[if q == 0 then p else if q <= p then q - 1 else q]
  {
  }

  lemma MoveKeepsPermutation(order: seq<nat>, p: nat, n: nat)
    requires IsPermutation(order, n) && p < n
    ensures IsPermutation(MoveToFront(order, p), n)
  {
    var moved := MoveToFront(order, p);
    forall q: nat | q < n ensures moved[q] == order[if q == 0 then p else if q <= p then q - 1 else q] {
      MoveToFrontAt(order, p, q);
    }
    forall i: nat | i < n ensures i in moved {
      var q := IndexOf(order, i);
      assert moved[if q == p then 0 else if q < p then q + 1 else q] == i;
    }
  }

  /** Every upstream is tried, once. */
  lemma SelectIsPermutation(hs: seq<Health.State>, leader: Option<nat>)
    ensures IsPermutation(Select(hs, leader).order, |hs|)
  {
    SortByKeyIsStableSort(hs);
    var order := SortByKey(hs);
    if leader.Some? {
      var p := IndexOf(order, leader.value);
      if p < |order| && KeepsLead(hs, order, p) {
        MoveKeepsPermutation(order, p, |hs|);
      }
    }
  }

  /** Apart from a held leader in front, the order is the stable one. */
  lemma TailStaysSorted(hs: seq<Health.State>, leader: Option<nat>, p: nat, q: nat)
    requires p < q < |hs| && (p > 0 || !Select(hs, leader).held)
    requires Within(Select(hs, leader).order, |hs|) && |Select(hs, leader).order| == |hs|
    ensures Before(hs, Select(hs, leader).order[p], Select(hs, leader).order[q])
  {
    SortByKeyIsStableSort(hs);
    var order := SortByKey(hs);
    if Select(hs, leader).held {
      var l := IndexOf(order, leader.value);
      MoveToFrontAt(order, l, p);
      MoveToFrontAt(order, l, q);
    }
  }

  /** A clean sampled upstream is never tried after a down, unsampled or probationary one. */
  lemma CleanComesFirst(hs: seq<Health.State>, leader: Option<nat>, p: nat, q: nat)
    requires p < q < |hs|
    requires Within(Select(hs, leader).order, |hs|) && |Select(hs, leader).order| == |hs|
    ensures var order := Select(hs, leader).order;
            EligibleLatency(hs[order[q]]).Some? ==> EligibleLatency(hs[order[p]]).Some?
  {
    if p > 0 || !Select(hs, leader).held {
      TailStaysSorted(hs, leader, p, q);
    } else {
      MoveToFrontAt(SortByKey(hs), IndexOf(SortByKey(hs), leader.value), 0);
    }
  }

  /** Down upstreams come last, whatever else is known about them. */
  lemma DownComesLast(hs: seq<Health.State>, leader: Option<nat>, p: nat, q: nat)
    requires p < q < |hs|
    requires Within(Select(hs, leader).order, |hs|) && |Select(hs, leader).order| == |hs|
    ensures var order := Select(hs, leader).order; hs[order[q]].up ==> hs[order[p]].up
  {
    if p > 0 || !Select(hs, leader).held {
      TailStaysSorted(hs, leader, p, q);
    } else {
      MoveToFrontAt(SortByKey(hs), IndexOf(SortByKey(hs), leader.value), 0);
    }
  }

  /**
   An eligible incumbent loses the lead exactly when the front of the stable
   order is eligible and faster by more than the margin.
   */
  lemma LeadLostOnlyToFaster(hs: seq<Health.State>, cur: nat)
    requires cur < |hs| && EligibleLatency(hs[cur]).Some?
    ensures var order := Select(hs, Some(cur)).order; var front := SortByKey(hs)[0];
            && |order| == |hs| && front < |hs| && EligibleLatency(hs[front]).Some?
            && (order[0] != cur <==>
                EligibleLatency(hs[cur]).value - EligibleLatency(hs[front]).value
                > SwitchMargin(EligibleLatency(hs[cur]).value))
            && (order[0] != cur ==> order[0] == front)
  {
    SortByKeyIsStableSort(hs);
    var order := SortByKey(hs);
    var p := IndexOf(order, cur);
    assert order[p] == cur;
    assert p > 0 ==> Before(hs, order[0], order[p]);
    MoveToFrontAt(order, p, 0);
  }

  lemma RoundedIsNear(x: real, y: real)
    requires Rounded(x) <= Rounded(y) && 0.0 <= y
    ensures x < y + 1.0
  {
  }

  /** Whoever leads is within the margin, and one millisecond of rounding, of every eligible upstream. */
  lemma LeaderIsNearlyFastest(hs: seq<Health.State>, leader: Option<nat>, i: nat)
    requires i < |hs| && EligibleLatency(hs[i]).Some? && 0.0 <= hs[i].probeEwma
    ensures var order := Select(hs, leader).order;
            && |order| == |hs| && order[0] < |hs|
            && EligibleLatency(hs[order[0]]).Some?
            && hs[order[0]].probeEwma < hs[i].probeEwma + SwitchMargin(hs[order[0]].probeEwma) + 1.0
  {
    SortByKeyIsStableSort(hs);
    var sorted, order := SortByKey(hs), Select(hs, leader).order;
    var p := IndexOf(sorted, i);
    assert sorted[p] == i;
    assert p > 0 ==> Before(hs, sorted[0], sorted[p]);
    RoundedIsNear(hs[sorted[0]].probeEwma, hs[i].probeEwma);
    if Select(hs, leader).held {
      MoveToFrontAt(sorted, IndexOf(sorted, leader.value), 0);
    }
  }

  /** Health as far as ranking reads it: all but the rank and the hold flag. */
  ghost predicate SameForRanking(a: seq<Health.State>, b: seq<Health.State>) {
    |a| == |b| && forall i :: 0 <= i < |a| ==> SortKey(a[i]) == SortKey(b[i]) && EligibleLatency(a[i]) == EligibleLatency(b[i])
  }

  lemma {:induction false} InsertIgnoresRank(a: seq<Health.State>, b: seq<Health.State>, order: seq<nat>, i: nat)
    requires SameForRanking(a, b) && i < |a| && Within(order, |a|)
    ensures Insert(a, order, i) == Insert(b, order, i)
    decreases |order|
  {
    if order != [] {
      InsertIgnoresRank(a, b, order[..|order| - 1], i);
    }
  }

  lemma {:induction false} SortIgnoresRank(a: seq<Health.State>, b: seq<Health.State>, n: nat)
    requires SameForRanking(a, b) && n <= |a|
    ensures SortFirst(a, n) == SortFirst(b, n)
  {
    if n > 0 {
      SortIgnoresRank(a, b, n - 1);
      InsertIgnoresRank(a, b, SortFirst(a, n - 1), n - 1);
    }
  }

  lemma SelectIgnoresRank(a: seq<Health.State>, b: seq<Health.State>, leader: Option<nat>)
    requires SameForRanking(a, b)
    ensures Select(a, leader) == Select(b, leader)
  {
    SortIgnoresRank(a, b, |a|);
  }

  function NewLeader(s: Selection): Option<nat> {
    if s.order == [] then None else Some(s.order[0])
  }

  /** Ranking twice with unchanged health gives the same order: the choice of leader settles at once. */
  lemma RepeatedSelectionIsStable(a: seq<Health.State>, b: seq<Health.State>, leader: Option<nat>)
    requires SameForRanking(a, b)
    ensures var first := Select(a, leader); Select(b, NewLeader(first)) == first
  {
    SelectIgnoresRank(a, b, NewLeader(Select(a, leader)));
    SortByKeyIsStableSort(a);
    var order, first := SortByKey(a), Select(a, leader);
    if |a| > 0 {
      if first.held {
        MoveToFrontAt(order, IndexOf(order, leader.value), 0);
      } else {
        assert IndexOf(order, order[0]) == 0;
      }
    } else {
      assert order == [];
    }
  }
}
