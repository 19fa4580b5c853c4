/**
 The cache's counters under concurrent lookups. A lookup checks that the cache is
 on, then under the shard lock counts a miss, or a stale hit, and only after
 releasing the lock counts the hit; other lookups, and resets, come in between.
 */
module Lookups {
  import opened DnsCache

  datatype Outcome = Fresh | Stale | Miss

  datatype Phase =
    | Begun
    | Found(stale: bool)     // out of the lock, hit not counted yet
    | Hit(stale: bool)
    | Missed

  /** What a lookup has added to the counters since they were last set. */
  datatype Lookup = Lookup(phase: Phase, begunSince: bool, staleSince: bool, endSince: bool)

  datatype State = State(counters: Counters, base: Counters, lookups: seq<Lookup>)

  function Start(c: Counters): State {
    State(c, c, [])
  }

  datatype Step =
    | Begin
    | Lock(k: nat, outcome: Outcome)
    | Finish(k: nat)
    | Seed(c: Counters)      // restores or resets the counters

  predicate Enabled(s: State, step: Step) {
    match step
    case Begin => true
    case Lock(k, _) => k < |s.lookups| && s.lookups[k].phase.Begun?
    case Finish(k) => k < |s.lookups| && s.lookups[k].phase.Found?
    case Seed(_) => true
  }

  function Forgotten(l: Lookup): Lookup {
    l.(begunSince := false, staleSince := false, endSince := false)
  }

  function ForgetAll(ls: seq<Lookup>): (r: seq<Lookup>)
    ensures |r| == |ls| && forall k :: 0 <= k < |ls| ==> r[k] == Forgotten(ls[k])
  {
    if ls == [] then [] else [Forgotten(ls[0])] + ForgetAll(ls[1..])
  }

  function Next(s: State, step: Step): State
    requires Enabled(s, step)
  {
    match step
    case Begin => s.(lookups := s.lookups + [Lookup(Begun, true, false, false)])
    case Lock(k, outcome) =>
      var l := s.lookups[k];
      (match outcome
       case Fresh => s.(lookups := s.lookups[k := l.(phase := Found(false))])
       case Stale => s.(lookups := s.lookups[k := l.(phase := Found(true), staleSince := true)],
                        counters := s.counters.(staleHits := s.counters.staleHits + 1))
       case Miss => s.(lookups := s.lookups[k := l.(phase := Missed, endSince := true)],
                       counters := s.counters.(misses := s.counters.misses + 1)))
    case Finish(k) =>
      var l := s.lookups[k];
      s.(lookups := s.lookups[k := l.(phase := Phase.Hit(l.phase.stale), endSince := true)],
         counters := s.counters.(hits := s.counters.hits + 1))
    case Seed(c) => State(c, c, ForgetAll(s.lookups))
  }

  ghost predicate IsRun(s: State, steps: seq<Step>, t: State)
    decreases |steps|
  {
    if steps == [] then t == s
    else Enabled(s, steps[0]) && IsRun(Next(s, steps[0]), steps[1..], t)
  }

  // ---- counting lookups ----

  function Count(ls: seq<Lookup>, p: Lookup -> bool): nat {
    if ls == [] then 0 else (if p(ls[0]) then 1 else 0) + Count(ls[1..], p)
  }

  lemma {:induction false} CountUpdate(ls: seq<Lookup>, k: nat, l: Lookup, p: Lookup -> bool)
    requires k < |ls|
    ensures Count(ls[k := l], p) == Count(ls, p) - (if p(ls[k]) then 1 else 0) + (if p(l) then 1 else 0)
    decreases |ls|
  {
    if k == 0 {
      assert ls[0 := l][1..] == ls[1..];
    } else {
      assert ls[k := l][1..] == ls[1..][k - 1 := l];
      CountUpdate(ls[1..], k - 1, l, p);
    }
  }

  lemma {:induction false} CountAppend(ls: seq<Lookup>, l: Lookup, p: Lookup -> bool)
    ensures Count(ls + [l], p) == Count(ls, p) + (if p(l) then 1 else 0)
    decreases |ls|
  {
    if ls == [] {
      assert [l][1..] == [];
    } else {
      assert (ls + [l])[1..] == ls[1..] + [l];
      CountAppend(ls[1..], l, p);
    }
  }

  lemma {:induction false} CountNone(ls: seq<Lookup>, p: Lookup -> bool)
    requires forall k :: 0 <= k < |ls| ==> !p(ls[k])
    ensures Count(ls, p) == 0
    decreases |ls|
  {
    if ls != [] {
      assert forall k :: 0 <= k < |ls[1..]| ==> ls[1..][k] == ls[k + 1];
      CountNone(ls[1..], p);
    }
  }

  /** If at each lookup `a + b` is `c + d`, so it is of the counts. */
  lemma {:induction false} CountBalance(ls: seq<Lookup>, a: Lookup -> bool, b: Lookup -> bool, c: Lookup -> bool, d: Lookup -> bool)
    requires forall k :: 0 <= k < |ls| ==>
               (if a(ls[k]) then 1 else 0) + (if b(ls[k]) then 1 else 0) == (if c(ls[k]) then 1 else 0) + (if d(ls[k]) then 1 else 0)
    ensures Count(ls, a) + Count(ls, b) == Count(ls, c) + Count(ls, d)
    decreases |ls|
  {
    if ls != [] {
      assert forall k :: 0 <= k < |ls[1..]| ==> ls[1..][k] == ls[k + 1];
      CountBalance(ls[1..], a, b, c, d);
    }
  }

  predicate StaleCounted(l: Lookup) { l.staleSince }
  predicate HitCounted(l: Lookup) { l.endSince && l.phase.Hit? }
  predicate MissCounted(l: Lookup) { l.endSince && l.phase.Missed? }
  predicate EndCounted(l: Lookup) { l.endSince }
  predicate BegunCounted(l: Lookup) { l.begunSince }

  /** Stale hit counted, hit not yet. */
  predicate Between(l: Lookup) { l.staleSince && l.phase.Found? }

  /** Hit counted whose stale hit, if any, was not. */
  predicate PlainHit(l: Lookup) { l.endSince && l.phase.Hit? && !l.staleSince }

  predicate StaleHit(l: Lookup) { l.endSince && l.phase.Hit? && l.staleSince }

  /** Begun since the counters were set, and still under way. */
  predicate UnderWay(l: Lookup) { l.begunSince && (l.phase.Begun? || l.phase.Found?) }

  /** Ended since then, but begun before. */
  predicate CarriedOver(l: Lookup) { l.endSince && !l.begunSince }

  predicate Nothing(l: Lookup) { false }

  // ---- what every run keeps ----

  predicate Consistent(l: Lookup) {
    && (l.staleSince ==> l.phase == Found(true) || (l.phase == Phase.Hit(true) && l.endSince))
    && (l.endSince ==> l.phase.Hit? || l.phase.Missed?)
    && (l.begunSince && (l.phase.Hit? || l.phase.Missed?) ==> l.endSince)
  }

  ghost predicate Inv(s: State) {
    && (forall k :: 0 <= k < |s.lookups| ==> Consistent(s.lookups[k]))
    && s.counters.staleHits == s.base.staleHits + Count(s.lookups, StaleCounted)
    && s.counters.hits == s.base.hits + Count(s.lookups, HitCounted)
    && s.counters.misses == s.base.misses + Count(s.lookups, MissCounted)
  }

  lemma UpdateCounts(ls: seq<Lookup>, k: nat, l: Lookup)
    requires k < |ls|
    ensures Count(ls[k := l], StaleCounted) == Count(ls, StaleCounted) - (if StaleCounted(ls[k]) then 1 else 0) + (if StaleCounted(l) then 1 else 0)
    ensures Count(ls[k := l], HitCounted) == Count(ls, HitCounted) - (if HitCounted(ls[k]) then 1 else 0) + (if HitCounted(l) then 1 else 0)
    ensures Count(ls[k := l], MissCounted) == Count(ls, MissCounted) - (if MissCounted(ls[k]) then 1 else 0) + (if MissCounted(l) then 1 else 0)
  {
    CountUpdate(ls, k, l, StaleCounted);
    CountUpdate(ls, k, l, HitCounted);
    CountUpdate(ls, k, l, MissCounted);
  }

  lemma StepKeepsInv(s: State, step: Step)
    requires Inv(s) && Enabled(s, step)
    ensures Inv(Next(s, step))
  {
    match step
    case Begin => BeginKeepsInv(s);
    case Lock(k, _) => UpdateCounts(s.lookups, k, Next(s, step).lookups[k]);
    case Finish(k) => UpdateCounts(s.lookups, k, Next(s, step).lookups[k]);
    case Seed(c) => SeedKeepsInv(s, c);
  }

  lemma BeginKeepsInv(s: State)
    requires Inv(s)
    ensures Inv(Next(s, Begin))
  {
    var l := Lookup(Begun, true, false, false);
    CountAppend(s.lookups, l, StaleCounted);
    CountAppend(s.lookups, l, HitCounted);
    CountAppend(s.lookups, l, MissCounted);
  }

  lemma SeedKeepsInv(s: State, c: Counters)
    requires Inv(s)
    ensures Inv(Next(s, Seed(c)))
  {
    var ls := ForgetAll(s.lookups);
    CountNone(ls, StaleCounted);
    CountNone(ls, HitCounted);
    CountNone(ls, MissCounted);
  }

  lemma {:induction false} EveryRunKeepsInv(s: State, steps: seq<Step>, t: State)
    requires Inv(s) && IsRun(s, steps, t)
    ensures Inv(t)
    decreases |steps|
  {
    if steps != [] {
      StepKeepsInv(s, steps[0]);
      EveryRunKeepsInv(Next(s, steps[0]), steps[1..], t);
    }
  }

  /** At every moment of every run stale hits exceed hits by at most the lookups between the two increments. */
  lemma StaleWithinHits(c: Counters, steps: seq<Step>, s: State)
    requires IsRun(Start(c), steps, s)
    ensures s.counters.staleHits - s.base.staleHits <= s.counters.hits - s.base.hits + Count(s.lookups, Between)
    ensures s.counters.staleHits - s.base.staleHits == Count(s.lookups, Between) + Count(s.lookups, StaleHit)
    ensures s.counters.hits - s.base.hits == Count(s.lookups, PlainHit) + Count(s.lookups, StaleHit)
  {
    EveryRunKeepsInv(Start(c), steps, s);
    CountNone(s.lookups, Nothing);
    CountBalance(s.lookups, StaleCounted, Nothing, Between, StaleHit);
    CountBalance(s.lookups, HitCounted, Nothing, PlainHit, StaleHit);
  }

  /** At any one moment stale hits are within hits if and only if no more lookups are in between than hits were plain. */
  lemma StaleWithinHitsIff(c: Counters, steps: seq<Step>, s: State)
    requires IsRun(Start(c), steps, s)
    ensures s.counters.staleHits - s.base.staleHits <= s.counters.hits - s.base.hits
            <==> Count(s.lookups, Between) <= Count(s.lookups, PlainHit)
  {
    StaleWithinHits(c, steps, s);
  }

  /**
   At any one moment hits and misses account for the lookups begun since the counters were set, up to
   those under way and those begun before; they are equal if and only if these two are.
   */
  lemma HitsAndMissesIff(c: Counters, steps: seq<Step>, s: State)
    requires IsRun(Start(c), steps, s)
    ensures (s.counters.hits - s.base.hits) + (s.counters.misses - s.base.misses) + Count(s.lookups, UnderWay)
            == Count(s.lookups, BegunCounted) + Count(s.lookups, CarriedOver)
    ensures (s.counters.hits - s.base.hits) + (s.counters.misses - s.base.misses) == Count(s.lookups, BegunCounted)
            <==> Count(s.lookups, UnderWay) == Count(s.lookups, CarriedOver)
  {
    EveryRunKeepsInv(Start(c), steps, s);
    CountNone(s.lookups, Nothing);
    CountBalance(s.lookups, HitCounted, MissCounted, EndCounted, Nothing);
    CountBalance(s.lookups, EndCounted, UnderWay, BegunCounted, CarriedOver);
  }

  // ---- an observer that loads one counter after another ----

  predicate NoSeed(steps: seq<Step>) {
    forall i :: 0 <= i < |steps| ==> !steps[i].Seed?
  }

  /** Lookups of `b` with `p` that did not have it in `a`. */
  function Late(a: seq<Lookup>, b: seq<Lookup>, p: Lookup -> bool): nat {
    if b == [] then 0
    else if a == [] then (if p(b[0]) then 1 else 0) + Late([], b[1..], p)
    else (if p(b[0]) && !p(a[0]) then 1 else 0) + Late(a[1..], b[1..], p)
  }

  ghost predicate Grows(a: seq<Lookup>, b: seq<Lookup>, p: Lookup -> bool) {
    |a| <= |b| && forall k :: 0 <= k < |a| && p(a[k]) ==> p(b[k])
  }

  lemma {:induction false} LateCount(a: seq<Lookup>, b: seq<Lookup>, p: Lookup -> bool)
    requires Grows(a, b, p)
    ensures Count(b, p) == Count(a, p) + Late(a, b, p)
    decreases |b|
  {
    if b != [] {
      var a' := if a == [] then [] else a[1..];
      assert forall k :: 0 <= k < |a'| ==> a'[k] == a[k + 1] && b[1..][k] == b[k + 1];
      LateCount(a', b[1..], p);
    }
  }

  /** Nothing that was counted is taken back, as long as the counters are not set. */
  ghost predicate Counted(s: State, t: State) {
    t.base == s.base && Grows(s.lookups, t.lookups, StaleCounted) && Grows(s.lookups, t.lookups, HitCounted)
  }

  lemma {:induction false} RunCounts(s: State, steps: seq<Step>, t: State)
    requires IsRun(s, steps, t) && NoSeed(steps)
    ensures Counted(s, t)
    decreases |steps|
  {
    if steps != [] {
      assert !steps[0].Seed?;
      assert forall i :: 0 <= i < |steps[1..]| ==> steps[1..][i] == steps[i + 1];
      assert Counted(s, Next(s, steps[0]));
      RunCounts(Next(s, steps[0]), steps[1..], t);
    }
  }

  lemma {:induction false} RunOn(s: State, steps: seq<Step>, t: State, more: seq<Step>, u: State)
    requires IsRun(s, steps, t) && IsRun(t, more, u)
    ensures IsRun(s, steps + more, u)
    decreases |steps|
  {
    if steps == [] {
      assert steps + more == more;
    } else {
      assert (steps + more)[1..] == steps[1..] + more;
      RunOn(Next(s, steps[0]), steps[1..], t, more, u);
    }
  }

  /**
   An observer loads hits, and stale hits some steps later. It sees no more stale
   hits than hits if and only if the lookups in between at the first load and those
   that count a stale hit before the second one are no more than the plain hits.
   */
  lemma ObservedStaleIff(c: Counters, steps: seq<Step>, s: State, more: seq<Step>, t: State)
    requires IsRun(Start(c), steps, s) && IsRun(s, more, t) && NoSeed(more)
    ensures t.counters.staleHits - s.base.staleHits <= s.counters.hits - s.base.hits
            <==> Count(s.lookups, Between) + Late(s.lookups, t.lookups, StaleCounted) <= Count(s.lookups, PlainHit)
  {
    StaleWithinHits(c, steps, s);
    RunOn(Start(c), steps, s, more, t);
    EveryRunKeepsInv(Start(c), steps, s);
    EveryRunKeepsInv(Start(c), steps + more, t);
    RunCounts(s, more, t);
    LateCount(s.lookups, t.lookups, StaleCounted);
  }

  /**
   It loads misses after hits, too. What it sees adds up to the lookups begun by the
   second load if and only if those still under way and those that count a hit
   between the loads are as many as were carried over.
   */
  lemma ObservedTotalIff(c: Counters, steps: seq<Step>, s: State, more: seq<Step>, t: State)
    requires IsRun(Start(c), steps, s) && IsRun(s, more, t) && NoSeed(more)
    ensures (s.counters.hits - s.base.hits) + (t.counters.misses - s.base.misses) == Count(t.lookups, BegunCounted)
            <==> Count(t.lookups, UnderWay) + Late(s.lookups, t.lookups, HitCounted) == Count(t.lookups, CarriedOver)
  {
    RunOn(Start(c), steps, s, more, t);
    HitsAndMissesIff(c, steps + more, t);
    EveryRunKeepsInv(Start(c), steps, s);
    EveryRunKeepsInv(Start(c), steps + more, t);
    RunCounts(s, more, t);
    LateCount(s.lookups, t.lookups, HitCounted);
  }

  /** If counters are set between the loads, each value loaded counts from its own base. */
  lemma ObservedAcrossSeeds(c: Counters, steps: seq<Step>, s: State, more: seq<Step>, t: State)
    requires IsRun(Start(c), steps, s) && IsRun(s, more, t)
    ensures t.counters.staleHits <= s.counters.hits <==>
            t.base.staleHits + Count(t.lookups, Between) + Count(t.lookups, StaleHit)
            <= s.base.hits + Count(s.lookups, PlainHit) + Count(s.lookups, StaleHit)
  {
    RunOn(Start(c), steps, s, more, t);
    StaleWithinHits(c, steps, s);
    StaleWithinHits(c, steps + more, t);
  }

  const ONE_STALE := [Begin, Lock(0, Stale), Finish(0)]

  /** A whole stale lookup between the two loads: one stale hit seen and no hit, with no lookup in between at either load. */
  lemma ObserverSeesMore()
    ensures exists t ::
              && IsRun(Start(ZERO), ONE_STALE, t) && Count(Start(ZERO).lookups, Between) == 0 && Count(t.lookups, Between) == 0
              && t.counters.staleHits > Start(ZERO).counters.hits
  {
    var s1 := Next(Start(ZERO), Begin);
    assert s1.lookups == [Lookup(Begun, true, false, false)];
    var s2 := Next(s1, Lock(0, Stale));
    assert s2.lookups == [Lookup(Found(true), true, true, false)];
    var s3 := Next(s2, Finish(0));
    assert s3.lookups == [Lookup(Phase.Hit(true), true, true, true)];
    CountNone(s3.lookups, Between);
    assert ONE_STALE[1..] == [Lock(0, Stale), Finish(0)] && ONE_STALE[1..][1..] == [Finish(0)] && ONE_STALE[1..][1..][1..] == [];
    assert IsRun(s3, [], s3) && IsRun(s2, [Finish(0)], s3) && IsRun(s1, ONE_STALE[1..], s3);
  }

  // ---- a run that shows the gap, and one lookup alone ----

  /** Between the two increments of a single stale lookup there are more stale hits than hits. */
  lemma StaleCanExceedHits()
    ensures exists steps, s :: IsRun(Start(ZERO), steps, s) && s.counters.staleHits > s.counters.hits
  {
    var s1 := Next(Start(ZERO), Begin);
    assert s1.lookups[0].phase.Begun?;
    var s2 := Next(s1, Lock(0, Stale));
    var steps := [Begin, Lock(0, Stale)];
    assert steps[1..] == [Lock(0, Stale)] && steps[1..][1..] == [];
    assert IsRun(s2, [], s2) && IsRun(s1, steps[1..], s2) && IsRun(Start(ZERO), steps, s2);
  }

  /** Alone, a lookup counts one hit, stale or not, or one miss: what the cache object's lookup does in one go. */
  lemma OneLookupAlone(s: State, outcome: Outcome)
    ensures var n := |s.lookups|;
            var s1 := Next(s, Begin);
            && Enabled(s1, Lock(n, outcome))
            && var s2 := Next(s1, Lock(n, outcome));
            if outcome == Miss then s2.counters == s.counters.(misses := s.counters.misses + 1)
            else
              && Enabled(s2, Finish(n))
              && Next(s2, Finish(n)).counters
                 == s.counters.(hits := s.counters.hits + 1, staleHits := s.counters.staleHits + if outcome == Stale then 1 else 0)
  {
    var n := |s.lookups|;
    var s1 := Next(s, Begin);
    assert s1.lookups[n] == Lookup(Begun, true, false, false);
  }
}
