/**
 One cached answer across exports, downtime and imports. True time runs on; the
 monotonic clock starts anew with each process and the wall clock may be reset.
 */
module Ageing {
  import opened Wrappers
  import opened DnsCache

  datatype Clocks = Clocks(time: int, mono: int, wall: nat)

  /** A snapshot record: the age at export, and the wall clock read then. */
  datatype Saved<P> = Saved(payload: P, age: nat, ttl: nat, at: nat)

  datatype State<P> = State(clocks: Clocks, live: Option<Entry<P>>, saved: Option<Saved<P>>)

  datatype Step =
    | Pass(seconds: nat, wall: nat)        // the wall clock reads anything afterwards
    | Export(window: nat)
    | Restart(mono: int)
    | Import(window: nat, representable: bool)
    | Get(window: nat)
    | Evict

  function SaturatingAdd(a: nat, b: nat): nat {
    Min(a + b, U32_MAX)
  }

  /** The record written for an entry, unless it is past serving. */
  function ExportOf<P>(e: Entry<P>, c: Clocks, window: nat): Option<Saved<P>> {
    var age := Age(e, c.mono);
    if age >= SaturatingAdd(e.ttl, window) then None else Some(Saved(e.payload, age, e.ttl, c.wall))
  }

  /** The entry restored from a record; time that seems to run backwards counts as none. */
  function ImportOf<P>(s: Saved<P>, c: Clocks, window: nat, representable: bool): Option<Entry<P>> {
    var total := s.age + Max(c.wall - s.at, 0);
    if total >= s.ttl + window || !representable then None else Some(Entry(s.payload, c.mono - total, s.ttl))
  }

  function Next<P>(s: State<P>, step: Step): State<P> {
    match step
    case Pass(d, wall) => s.(clocks := Clocks(s.clocks.time + d, s.clocks.mono + d, wall))
    case Export(window) => s.(saved := if s.live.Some? then ExportOf(s.live.value, s.clocks, window) else None)
    case Restart(mono) => s.(clocks := s.clocks.(mono := mono), live := None)
    case Import(window, representable) =>
      if s.saved.None? then s
      else
        var restored := ImportOf(s.saved.value, s.clocks, window, representable);
        if restored.Some? then s.(live := restored) else s
    case Get(window) =>
      if s.live.Some? && Serve(s.live.value, s.clocks.mono, window).None? then s.(live := None) else s
    case Evict => s.(live := None)
  }

  function Run<P>(s: State<P>, steps: seq<Step>): State<P>
    decreases |steps|
  {
    if steps == [] then s else Run(Next(s, steps[0]), steps[1..])
  }

  /** An answer just stored. */
  function Stored<P>(payload: P, ttl: nat, c: Clocks): State<P> {
    State(c, Some(Entry(payload, c.mono, ttl)), None)
  }

  // ---- never younger ----

  ghost predicate AtLeast<P>(s: State<P>, age: int) {
    && (s.live.Some? ==> Max(s.clocks.mono - s.live.value.storedAt, 0) >= age)
    && (s.saved.Some? ==> s.saved.value.age >= age)
  }

  lemma {:induction false} AgeNeverDrops<P>(s: State<P>, steps: seq<Step>, age: nat)
    requires AtLeast(s, age)
    ensures AtLeast(Run(s, steps), age)
    decreases |steps|
  {
    if steps != [] {
      AgeNeverDrops(Next(s, steps[0]), steps[1..], age);
    }
  }

  /** Whatever the clocks do, after an export the answer is never again younger than it was then. */
  lemma NeverYoungerThanAtExport<P>(s: State<P>, window: nat, steps: seq<Step>)
    requires s.live.Some? && Next(s, Export(window)).saved.Some?
    ensures AtLeast(Run(Next(s, Export(window)), steps), Age(s.live.value, s.clocks.mono))
  {
    AgeNeverDrops(Next(s, Export(window)), steps, Age(s.live.value, s.clocks.mono));
  }

  ghost predicate Carries<P>(s: State<P>, payload: P, ttl: nat) {
    && (s.live.Some? ==> s.live.value.payload == payload && s.live.value.ttl == ttl)
    && (s.saved.Some? ==> s.saved.value.payload == payload && s.saved.value.ttl == ttl)
  }

  /** The answer and its lifetime survive every restart unchanged. */
  lemma {:induction false} RunCarries<P>(s: State<P>, steps: seq<Step>, payload: P, ttl: nat)
    requires Carries(s, payload, ttl)
    ensures Carries(Run(s, steps), payload, ttl)
    decreases |steps|
  {
    if steps != [] {
      RunCarries(Next(s, steps[0]), steps[1..], payload, ttl);
    }
  }

  // ---- true age, with an honest wall clock ----

  /** Every passage of time moves the wall clock by as much. */
  ghost predicate Honest(steps: seq<Step>, wall: nat)
    decreases |steps|
  {
    if steps == [] then true
    else
      && (steps[0].Pass? ==> steps[0].wall == wall + steps[0].seconds)
      && Honest(steps[1..], if steps[0].Pass? then steps[0].wall else wall)
  }

  ghost predicate TrueAged<P>(s: State<P>, born: int) {
    && (s.live.Some? ==> s.clocks.mono - s.live.value.storedAt == s.clocks.time - born)
    && (s.saved.Some? ==> s.saved.value.at <= s.clocks.wall
                          && s.saved.value.age + (s.clocks.wall - s.saved.value.at) == s.clocks.time - born)
    && born <= s.clocks.time
  }

  lemma StepKeepsTrueAge<P>(s: State<P>, step: Step, born: int)
    requires TrueAged(s, born) && (step.Pass? ==> step.wall == s.clocks.wall + step.seconds)
    ensures TrueAged(Next(s, step), born)
  {
  }

  /** Over any honest run the cache's idea of the age is the true age. */
  lemma {:induction false} RunKeepsTrueAge<P>(s: State<P>, steps: seq<Step>, born: int)
    requires TrueAged(s, born) && Honest(steps, s.clocks.wall)
    ensures TrueAged(Run(s, steps), born)
    decreases |steps|
  {
    if steps != [] {
      StepKeepsTrueAge(s, steps[0], born);
      RunKeepsTrueAge(Next(s, steps[0]), steps[1..], born);
    }
  }

  /**
   Served fresh only below the TTL, with exactly the rest of it, and stale only
   before the current window has run out, counted in true time over all restarts.
   */
  lemma ServedByTrueAge<P>(payload: P, ttl: nat, c: Clocks, steps: seq<Step>, window: nat)
    requires Honest(steps, c.wall) && ttl + window <= U32_MAX
    ensures var s := Run(Stored(payload, ttl, c), steps); var age := s.clocks.time - c.time;
            s.live.Some? ==>
              Serve(s.live.value, s.clocks.mono, window) ==
                if age < ttl then Some(Hit(payload, ttl - age, false))
                else if age < ttl + window then Some(Hit(payload, STALE_SERVE_TTL, true))
                else None
  {
    RunKeepsTrueAge(Stored(payload, ttl, c), steps, c.time);
    RunCarries(Stored(payload, ttl, c), steps, payload, ttl);
  }

  /**
   Since the age saturates at 32 bits, serving stops for good at the end of the
   window if and only if TTL and window together fit 32 bits.
   */
  lemma ServingEndsIff<P>(e: Entry<P>, window: nat)
    requires e.ttl <= U32_MAX && window <= U32_MAX
    ensures (forall now: int :: Serve(e, now, window).Some? ==> now - e.storedAt < e.ttl + window)
            <==> e.ttl + window <= U32_MAX
  {
    if e.ttl + window > U32_MAX {
      var now := e.storedAt + e.ttl + window;
      assert Age(e, now) == U32_MAX;
      assert Serve(e, now, window).Some?;
    }
  }

  /** An answer of one second under the largest window is served at any later time. */
  lemma ServedForEver<P>(payload: P, now: nat)
    ensures Serve(Entry(payload, 0, 1), now, U32_MAX).Some?
  {
    assert Age(Entry(payload, 0, 1), now) <= U32_MAX;
  }

  /** A restored answer is no younger than in truth if and only if the wall clock counted all the time since the export. */
  lemma ImportedAgeSufficesIff<P>(sv: Saved<P>, c: Clocks, window: nat, born: int, exported: int)
    requires sv.age == exported - born && ImportOf(sv, c, window, true).Some?
    ensures c.mono - ImportOf(sv, c, window, true).value.storedAt >= c.time - born
            <==> Max(c.wall - sv.at, 0) >= c.time - exported
  {
  }

  /** A wall clock set back makes the answer look younger than it is. */
  lemma DishonestClockUnderstatesAge<P>(payload: P)
    ensures var s := Run(Stored(payload, 100, Clocks(0, 0, 1000)), [Export(0), Restart(0), Pass(50, 900), Import(0, true)]);
            s.live.Some? && s.clocks.time == 50 && Age(s.live.value, s.clocks.mono) == 0
  {
    var steps := [Export(0), Restart(0), Pass(50, 900), Import(0, true)];
    var s := Stored(payload, 100, Clocks(0, 0, 1000));
    assert steps[1..] == [Restart(0), Pass(50, 900), Import(0, true)];
    assert steps[1..][1..] == [Pass(50, 900), Import(0, true)];
    assert steps[1..][1..][1..] == [Import(0, true)];
    var s1 := Next(s, Export(0));
    var s2 := Next(s1, Restart(0));
    var s3 := Next(s2, Pass(50, 900));
    assert Run(s3, [Import(0, true)]) == Next(s3, Import(0, true)) by {
      assert [Import(0, true)][1..] == [];
    }
  }
}
