/**
 Coalescing of identical queries. Each atomic step is what a caller does under
 one hold of the in-flight lock, or one poll of the shared future.
 */
module SingleFlight {
  import opened Wrappers
  import opened Keys
  import Pool

  datatype Reply = Reply(id: nat, body: seq<nat>)

  type Outcome = Result<Reply, Pool.UpstreamError>

  datatype Phase =
    | Arrived
    | Missed                              // saw no entry, released the lock to build its own future
    | Waiting(future: nat, guard: bool)   // awaits a future; the guard marks the caller that inserted it
    | Done(served: nat, reply: Outcome)
    | Dropped

  datatype Caller = Caller(key: QueryKey, id: nat, phase: Phase)

  datatype Future = Future(key: QueryKey, polled: bool, result: Option<Outcome>)

  datatype State = State(callers: seq<Caller>, futures: seq<Future>, inflight: map<QueryKey, nat>)

  const START := State([], [], map[])

  datatype Step =
    | Arrive(key: QueryKey, id: nat)
    | Lookup(c: nat)
    | TryInsert(c: nat)
    | Poll(c: nat)
    | Finish(c: nat, outcome: Outcome)
    | Return(c: nat)
    | Drop(c: nat)

  predicate Enabled(s: State, step: Step) {
    match step
    case Arrive(_, _) => true
    case Lookup(c) => c < |s.callers| && s.callers[c].phase.Arrived?
    case TryInsert(c) => c < |s.callers| && s.callers[c].phase.Missed?
    case Poll(c) => Awaits(s, c) && s.futures[s.callers[c].phase.future].result.None?
    case Finish(c, _) => Awaits(s, c) && (var f := s.futures[s.callers[c].phase.future]; f.polled && f.result.None?)
    case Return(c) => Awaits(s, c) && s.futures[s.callers[c].phase.future].result.Some?
    case Drop(c) => c < |s.callers| && !s.callers[c].phase.Done? && !s.callers[c].phase.Dropped?
  }

  predicate Awaits(s: State, c: nat) {
    c < |s.callers| && s.callers[c].phase.Waiting? && s.callers[c].phase.future < |s.futures|
  }

  function Move(s: State, c: nat, phase: Phase): State
    requires c < |s.callers|
  {
    s.(callers := s.callers[c := s.callers[c].(phase := phase)])
  }

  /** Dropping a guard removes whatever the map holds under its key. */
  function Release(s: State, c: nat): map<QueryKey, nat>
    requires c < |s.callers|
  {
    if s.callers[c].phase.Waiting? && s.callers[c].phase.guard then s.inflight - {s.callers[c].key} else s.inflight
  }

  /** The caller's own id replaces the one the shared result carries. */
  function UnderId(o: Outcome, id: nat): Outcome {
    if o.Ok? then Ok(o.value.(id := id)) else o
  }

  function Next(s: State, step: Step): State
    requires Enabled(s, step)
  {
    match step
    case Arrive(key, id) => s.(callers := s.callers + [Caller(key, id, Arrived)])
    case Lookup(c) =>
      var key := s.callers[c].key;
      Move(s, c, if key in s.inflight then Waiting(s.inflight[key], false) else Missed)
    case TryInsert(c) =>
      var key := s.callers[c].key;
      if key in s.inflight then Move(s, c, Waiting(s.inflight[key], false))
      else
        Move(s, c, Waiting(|s.futures|, true))
        .(futures := s.futures + [Future(key, false, None)], inflight := s.inflight[key := |s.futures|])
    case Poll(c) =>
      var f := s.callers[c].phase.future;
      s.(futures := s.futures[f := s.futures[f].(polled := true)])
    case Finish(c, o) =>
      var f := s.callers[c].phase.future;
      s.(futures := s.futures[f := s.futures[f].(result := Some(o))])
    case Return(c) =>
      var f := s.callers[c].phase.future;
      Move(s, c, Done(f, UnderId(s.futures[f].result.value, s.callers[c].id))).(inflight := Release(s, c))
    case Drop(c) =>
      Move(s, c, Dropped).(inflight := Release(s, c))
  }

  ghost predicate IsRun(s: State, steps: seq<Step>, t: State)
    decreases |steps|
  {
    if steps == [] then t == s
    else Enabled(s, steps[0]) && IsRun(Next(s, steps[0]), steps[1..], t)
  }

  // ---- what every run keeps ----

  predicate Guards(s: State, c: nat) {
    c < |s.callers| && s.callers[c].phase.Waiting? && s.callers[c].phase.guard
  }

  /** Callers only await or were served by futures of their own key. */
  ghost predicate WellKeyed(s: State) {
    && (forall c: nat :: c < |s.callers| && s.callers[c].phase.Waiting? ==>
          s.callers[c].phase.future < |s.futures| && s.futures[s.callers[c].phase.future].key == s.callers[c].key)
    && (forall key :: key in s.inflight ==> s.inflight[key] < |s.futures| && s.futures[s.inflight[key]].key == key)
  }

  /** A guard holder's future is the map's entry for its key, and every entry has a holder. */
  ghost predicate GuardsMatchEntries(s: State) {
    && (forall c: nat :: Guards(s, c) ==>
          s.callers[c].key in s.inflight && s.inflight[s.callers[c].key] == s.callers[c].phase.future)
    && (forall b: nat, c: nat :: Guards(s, b) && Guards(s, c) && s.callers[b].key == s.callers[c].key ==> b == c)
    && (forall key :: key in s.inflight ==> exists c: nat :: Guards(s, c) && s.callers[c].key == key)
  }

  /** A served caller holds its future's result under its own id. */
  ghost predicate ServedFaithfully(s: State) {
    forall c: nat :: c < |s.callers| && s.callers[c].phase.Done? ==>
      var f := s.callers[c].phase.served;
      && f < |s.futures| && s.futures[f].key == s.callers[c].key && s.futures[f].result.Some?
      && s.callers[c].phase.reply == UnderId(s.futures[f].result.value, s.callers[c].id)
  }

  ghost predicate Inv(s: State) {
    WellKeyed(s) && GuardsMatchEntries(s) && ServedFaithfully(s)
  }

  lemma StepKeepsKeys(s: State, step: Step)
    requires WellKeyed(s) && Enabled(s, step)
    ensures WellKeyed(Next(s, step))
  {
  }

  lemma StepKeepsServed(s: State, step: Step)
    requires WellKeyed(s) && ServedFaithfully(s) && Enabled(s, step)
    ensures ServedFaithfully(Next(s, step))
  {
  }

  lemma StepKeepsHolders(s: State, step: Step)
    requires WellKeyed(s) && GuardsMatchEntries(s) && Enabled(s, step)
    ensures var t := Next(s, step);
            forall c: nat :: Guards(t, c) ==>
              t.callers[c].key in t.inflight && t.inflight[t.callers[c].key] == t.callers[c].phase.future
  {
    var t := Next(s, step);
    forall c: nat | Guards(t, c)
      ensures t.callers[c].key in t.inflight && t.inflight[t.callers[c].key] == t.callers[c].phase.future
    {
      assert Guards(s, c) || step == TryInsert(c);
    }
  }

  lemma StepKeepsOneHolder(s: State, step: Step)
    requires WellKeyed(s) && GuardsMatchEntries(s) && Enabled(s, step)
    ensures var t := Next(s, step);
            forall b: nat, c: nat :: Guards(t, b) && Guards(t, c) && t.callers[b].key == t.callers[c].key ==> b == c
  {
    var t := Next(s, step);
    forall b: nat, c: nat | Guards(t, b) && Guards(t, c) && t.callers[b].key == t.callers[c].key ensures b == c {
      assert Guards(s, b) || step == TryInsert(b);
      assert Guards(s, c) || step == TryInsert(c);
    }
  }

  lemma StepKeepsGuards(s: State, step: Step)
    requires WellKeyed(s) && GuardsMatchEntries(s) && Enabled(s, step)
    ensures GuardsMatchEntries(Next(s, step))
  {
    StepKeepsHolders(s, step);
    StepKeepsOneHolder(s, step);
    var t := Next(s, step);
    forall key | key in t.inflight
      ensures exists c: nat :: Guards(t, c) && t.callers[c].key == key
    {
      if key in s.inflight {
        var c: nat :| Guards(s, c) && s.callers[c].key == key;
        assert Guards(t, c) && t.callers[c].key == key;
      } else {
        assert Guards(t, step.c) && t.callers[step.c].key == key;
      }
    }
  }

  lemma StepKeepsInv(s: State, step: Step)
    requires Inv(s) && Enabled(s, step)
    ensures Inv(Next(s, step))
  {
    StepKeepsKeys(s, step);
    StepKeepsServed(s, step);
    StepKeepsGuards(s, step);
  }

  /** In every run, dropped callers included, an entry exists exactly while its one inserter holds the guard. */
  lemma {:induction false} EveryRunKeepsInv(s: State, steps: seq<Step>, t: State)
    requires Inv(s) && IsRun(s, steps, t)
    ensures Inv(t)
    decreases |steps|
  {
    if steps != [] {
      StepKeepsInv(s, steps[0]);
      EveryRunKeepsInv(Next(s, steps[0]), steps[1..], t);
    }
  }

  lemma EntryIffGuard(steps: seq<Step>, t: State, key: QueryKey)
    requires IsRun(START, steps, t)
    ensures key in t.inflight <==> exists c: nat :: Guards(t, c) && t.callers[c].key == key
    ensures forall b: nat, c: nat :: Guards(t, b) && Guards(t, c) && t.callers[b].key == t.callers[c].key ==> b == c
  {
    EveryRunKeepsInv(START, steps, t);
  }

  /** Callers of one future get one result, each under its own id. */
  lemma CoalescedCallersAgree(steps: seq<Step>, t: State, b: nat, c: nat)
    requires IsRun(START, steps, t)
    requires b < |t.callers| && c < |t.callers| && t.callers[b].phase.Done? && t.callers[c].phase.Done?
    requires t.callers[b].phase.served == t.callers[c].phase.served
    ensures t.callers[b].key == t.callers[c].key
    ensures UnderId(t.callers[b].phase.reply, t.callers[c].id) == t.callers[c].phase.reply
    ensures t.callers[c].phase.reply.Ok? ==> t.callers[c].phase.reply.value.id == t.callers[c].id
  {
    EveryRunKeepsInv(START, steps, t);
  }

  // ---- one exchange per question ----

  predicate Held(s: State, f: nat) {
    exists c :: 0 <= c < |s.callers| && s.callers[c].phase.Waiting? && s.callers[c].phase.future == f
  }

  /** A future someone still awaits and that has no result. */
  predicate Live(s: State, f: nat) {
    f < |s.futures| && s.futures[f].result.None? && Held(s, f)
  }

  /** Every live future is the one newcomers would join. */
  ghost predicate Covered(s: State) {
    forall f: nat :: Live(s, f) ==> s.futures[f].key in s.inflight && s.inflight[s.futures[f].key] == f
  }

  predicate Started(s: State, f: nat) {
    Live(s, f) && s.futures[f].polled
  }

  /** At most one unfinished future per question has been started. */
  ghost predicate AtMostOne(s: State) {
    forall f: nat, g: nat :: Started(s, f) && Started(s, g) && s.futures[f].key == s.futures[g].key ==> f == g
  }

  /** An inserter goes away while others still wait for its unfinished future. */
  predicate Orphans(s: State, step: Step)
    requires Enabled(s, step)
  {
    step.Drop? && Guards(s, step.c) && Live(Next(s, step), s.callers[step.c].phase.future)
  }

  lemma LiveBefore(s: State, step: Step, f: nat)
    requires Inv(s) && Enabled(s, step) && Live(Next(s, step), f) && f < |s.futures|
    ensures Live(s, f) || (s.futures[f].key in s.inflight && s.inflight[s.futures[f].key] == f)
  {
    var t := Next(s, step);
    var c :| 0 <= c < |t.callers| && t.callers[c].phase.Waiting? && t.callers[c].phase.future == f;
    if c < |s.callers| && s.callers[c].phase.Waiting? {
      assert s.callers[c].phase.future == f;
    }
  }

  /** One step keeps the cover if and only if it does not orphan waiters. */
  lemma StepKeepsCoverIff(s: State, step: Step)
    requires Inv(s) && Covered(s) && Enabled(s, step)
    ensures Covered(Next(s, step)) <==> !Orphans(s, step)
  {
    var t := Next(s, step);
    StepKeepsInv(s, step);
    if Orphans(s, step) {
      assert !Covered(t);
    } else {
      forall f: nat | Live(t, f) ensures t.futures[f].key in t.inflight && t.inflight[t.futures[f].key] == f {
        if f < |s.futures| {
          LiveBefore(s, step, f);
          CoverSurvives(s, step, f);
        }
      }
    }
  }

  lemma CoverSurvives(s: State, step: Step, f: nat)
    requires Inv(s) && Enabled(s, step) && !Orphans(s, step) && f < |s.futures|
    requires s.futures[f].key in s.inflight && s.inflight[s.futures[f].key] == f
    requires Live(Next(s, step), f)
    ensures s.futures[f].key in Next(s, step).inflight && Next(s, step).inflight[s.futures[f].key] == f
  {
  }

  ghost predicate NoOrphans(s: State, steps: seq<Step>)
    decreases |steps|
  {
    steps == [] || (Enabled(s, steps[0]) && !Orphans(s, steps[0]) && NoOrphans(Next(s, steps[0]), steps[1..]))
  }

  /** Without orphaned waiters, no question is ever asked twice at once. */
  lemma {:induction false} RunKeepsCover(s: State, steps: seq<Step>, t: State)
    requires Inv(s) && Covered(s) && IsRun(s, steps, t) && NoOrphans(s, steps)
    ensures Covered(t) && AtMostOne(t)
    decreases |steps|
  {
    if steps != [] {
      StepKeepsInv(s, steps[0]);
      StepKeepsCoverIff(s, steps[0]);
      RunKeepsCover(Next(s, steps[0]), steps[1..], t);
    }
  }

  lemma OneFlightPerKey(steps: seq<Step>, t: State)
    requires IsRun(START, steps, t) && NoOrphans(START, steps)
    ensures AtMostOne(t)
  {
    RunKeepsCover(START, steps, t);
  }

  // ---- and orphaned waiters do allow a second one ----

  ghost predicate NoDrops(steps: seq<Step>) {
    forall i :: 0 <= i < |steps| ==> !steps[i].Drop?
  }

  /** Some continuation without further drops asks one question twice at once. */
  ghost predicate CanDuplicate(s: State) {
    exists steps, t :: IsRun(s, steps, t) && NoDrops(steps) && !AtMostOne(t)
  }

  lemma {:induction false} NoDropsNoOrphans(s: State, steps: seq<Step>, t: State)
    requires IsRun(s, steps, t) && NoDrops(steps)
    ensures NoOrphans(s, steps)
    decreases |steps|
  {
    if steps != [] {
      NoDropsNoOrphans(Next(s, steps[0]), steps[1..], t);
    }
  }

  lemma StepBack(s: State, step: Step)
    requires Enabled(s, step) && !step.Drop? && CanDuplicate(Next(s, step))
    ensures CanDuplicate(s)
  {
    var steps, t :| IsRun(Next(s, step), steps, t) && NoDrops(steps) && !AtMostOne(t);
    assert ([step] + steps)[1..] == steps;
    assert IsRun(s, [step] + steps, t);
  }

  predicate AwaitsLive(s: State, c: nat, f: nat) {
    c < |s.callers| && s.callers[c].phase.Waiting? && s.callers[c].phase.future == f && f < |s.futures| && s.futures[f].result.None?
  }

  lemma TwoPolls(s: State, b: nat, f: nat, c: nat, g: nat)
    requires AwaitsLive(s, b, f) && AwaitsLive(s, c, g) && f != g && s.futures[f].key == s.futures[g].key
    ensures CanDuplicate(s)
  {
    var t := Next(s, Poll(b));
    var u := Next(t, Poll(c));
    assert AwaitsLive(t, b, f) && AwaitsLive(t, c, g);
    assert AwaitsLive(u, b, f) && AwaitsLive(u, c, g);
    assert Started(u, f) && Started(u, g);
    assert IsRun(u, [], u) && NoDrops([]) && !AtMostOne(u);
    StepBack(t, Poll(c));
    StepBack(s, Poll(b));
  }

  lemma NewcomerDuplicates(s: State, c: nat, f: nat)
    requires AwaitsLive(s, c, f) && s.futures[f].key !in s.inflight
    ensures CanDuplicate(s)
  {
    var key, n, g := s.futures[f].key, |s.callers|, |s.futures|;
    var t := Next(s, Arrive(key, 0));
    assert t.callers[n] == Caller(key, 0, Arrived);
    var u := Next(t, Lookup(n));
    assert u.callers[n] == Caller(key, 0, Missed);
    var v := Next(u, TryInsert(n));
    assert AwaitsLive(v, n, g) && AwaitsLive(v, c, f);
    TwoPolls(v, n, g, c, f);
    StepBack(u, TryInsert(n));
    StepBack(t, Lookup(n));
    StepBack(s, Arrive(key, 0));
  }

  lemma ReplacedDuplicates(s: State, c: nat, f: nat, b: nat)
    requires Inv(s) && AwaitsLive(s, c, f) && Guards(s, b) && s.callers[b].key == s.futures[f].key
    requires s.callers[b].phase.future != f
    ensures CanDuplicate(s)
  {
    var g := s.callers[b].phase.future;
    if s.futures[g].result.None? {
      TwoPolls(s, b, g, c, f);
    } else {
      var t := Next(s, Return(b));
      assert AwaitsLive(t, c, f);
      NewcomerDuplicates(t, c, f);
      StepBack(s, Return(b));
    }
  }

  /**
   The cover is exactly what single flight needs: from a reachable state a
   question can come to be asked twice at once if and only if a live future is
   already missing from the map, which only an orphaning drop brings about.
   */
  lemma CoveredIff(steps: seq<Step>, s: State)
    requires IsRun(START, steps, s)
    ensures Covered(s) <==> !CanDuplicate(s)
  {
    EveryRunKeepsInv(START, steps, s);
    if Covered(s) {
      forall more, t | IsRun(s, more, t) && NoDrops(more) ensures AtMostOne(t) {
        NoDropsNoOrphans(s, more, t);
        RunKeepsCover(s, more, t);
      }
    } else {
      var f: nat :| Live(s, f) && !(s.futures[f].key in s.inflight && s.inflight[s.futures[f].key] == f);
      var c :| 0 <= c < |s.callers| && s.callers[c].phase.Waiting? && s.callers[c].phase.future == f;
      if s.futures[f].key in s.inflight {
        var b: nat :| Guards(s, b) && s.callers[b].key == s.futures[f].key;
        ReplacedDuplicates(s, c, f, b);
      } else {
        NewcomerDuplicates(s, c, f);
      }
    }
  }

  lemma RunExtends(s: State, step: Step, steps: seq<Step>, t: State)
    requires Enabled(s, step) && IsRun(Next(s, step), steps, t)
    ensures IsRun(s, [step] + steps, t)
  {
    assert ([step] + steps)[1..] == steps;
  }

  /** Two callers share a future; its inserter is dropped; the question can now be asked again alongside. */
  lemma DroppedInserterDuplicates(key: QueryKey)
    ensures exists steps, s :: IsRun(START, steps, s) && CanDuplicate(s)
  {
    var s1 := Next(START, Arrive(key, 1));
    var s2 := Next(s1, Lookup(0));
    var s3 := Next(s2, TryInsert(0));
    var s4 := Next(s3, Arrive(key, 2));
    var s5 := Next(s4, Lookup(1));
    var s6 := Next(s5, Drop(0));
    assert AwaitsLive(s6, 1, 0) && key !in s6.inflight;
    NewcomerDuplicates(s6, 1, 0);
    RunExtends(s5, Drop(0), [], s6);
    RunExtends(s4, Lookup(1), [Drop(0)], s6);
    RunExtends(s3, Arrive(key, 2), [Lookup(1)] + [Drop(0)], s6);
    var tail := [Arrive(key, 2)] + ([Lookup(1)] + [Drop(0)]);
    RunExtends(s2, TryInsert(0), tail, s6);
    RunExtends(s1, Lookup(0), [TryInsert(0)] + tail, s6);
    RunExtends(START, Arrive(key, 1), [Lookup(0)] + ([TryInsert(0)] + tail), s6);
  }
}
