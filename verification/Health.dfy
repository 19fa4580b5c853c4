/** Per-upstream health: live and probe outcomes, the failure threshold, and smoothed latency. */
module Health {
  import opened Wrappers

  datatype State = State(
    probeEwma: real, probeSamples: nat,
    up: bool, consecutiveFailures: nat,
    totalQueries: nat, totalFailures: nat, lastRtt: Option<real>,
    liveEwma: real, liveSamples: nat,
    lastRank: Option<nat>, leadHeld: bool, lastError: Option<string>)

  const FRESH := State(0.0, 0, true, 0, 0, 0, None, 0.0, 0, None, false, None)

  function Ewma(samples: nat, prev: real, sample: real, alpha: real): real {
    if samples == 0 then sample else alpha * sample + (1.0 - alpha) * prev
  }

  const BACKOFF_BASE := 5
  const BACKOFF_MAX := 60

  function Pow2(n: nat): nat {
    if n == 0 then 1 else 2 * Pow2(n - 1)
  }

  /** Seconds until the recovery probe, doubling up to a minute. */
  function RetryBackoff(failures: nat): nat {
    var steps := if failures == 0 then 0 else if failures - 1 < 16 then failures - 1 else 16;
    var delay := BACKOFF_BASE * Pow2(steps);
    if delay < BACKOFF_MAX then delay else BACKOFF_MAX
  }

  lemma {:induction false} Pow2Monotone(m: nat, n: nat)
    requires m <= n
    ensures 1 <= Pow2(m) <= Pow2(n)
    decreases n
  {
    if m < n {
      Pow2Monotone(m, n - 1);
    } else if n > 0 {
      Pow2Monotone(m - 1, n - 1);
    }
  }

  /** More failures never shorten the delay, which stays between five seconds and a minute. */
  lemma BackoffIsMonotone(m: nat, n: nat)
    requires m <= n
    ensures BACKOFF_BASE <= RetryBackoff(m) <= RetryBackoff(n) <= BACKOFF_MAX
  {
    var steps := (k: nat) => if k == 0 then 0 else if k - 1 < 16 then k - 1 else 16;
    Pow2Monotone(steps(m), steps(n));
  }

  /** What can be recorded about an upstream. */
  datatype Event =
    | LiveSuccess(ms: real)
    | LiveFailure(error: string)
    | SoftFailure(error: string)
    | ProbeSuccess(ms: real)
    | ProbeAlive(error: string)
    | ProbeFailure(error: string)
    | Ranked(rank: nat, held: bool)

  function FoldAlive(h: State): State {
    h.(consecutiveFailures := 0, up := true, lastError := None)
  }

  function FoldFailure(h: State, error: string, threshold: nat): State {
    h.(consecutiveFailures := h.consecutiveFailures + 1, lastError := Some(error),
       up := h.up && h.consecutiveFailures + 1 < threshold)
  }

  function Apply(h: State, e: Event, alpha: real, threshold: nat): State {
    match e
    case LiveSuccess(ms) =>
      FoldAlive(h).(totalQueries := h.totalQueries + 1, lastRtt := Some(ms),
                    liveEwma := Ewma(h.liveSamples, h.liveEwma, ms, alpha), liveSamples := h.liveSamples + 1)
    case LiveFailure(err) =>
      FoldFailure(h.(totalQueries := h.totalQueries + 1, totalFailures := h.totalFailures + 1), err, threshold)
    case SoftFailure(err) =>
      h.(totalQueries := h.totalQueries + 1, totalFailures := h.totalFailures + 1, lastError := Some(err))
    case ProbeSuccess(ms) =>
      FoldAlive(h).(probeEwma := Ewma(h.probeSamples, h.probeEwma, ms, alpha), probeSamples := h.probeSamples + 1)
    case ProbeAlive(err) => FoldAlive(h).(lastError := Some(err))
    case ProbeFailure(err) => FoldFailure(h, err, threshold)
    case Ranked(rank, held) => h.(lastRank := Some(rank), leadHeld := held)
  }

  /** The live object: each recording updates its fields under the health lock. */
  class Upstream {
    var h: State

    constructor ()
      ensures h == FRESH
    {
      h := FRESH;
    }

    method RecordLiveSuccess(ms: real, alpha: real)
      modifies this
      ensures forall threshold :: h == Apply(old(h), LiveSuccess(ms), alpha, threshold)
    {
      h := h.(totalQueries := h.totalQueries + 1, lastRtt := Some(ms));
      h := h.(liveEwma := Ewma(h.liveSamples, h.liveEwma, ms, alpha), liveSamples := h.liveSamples + 1);
      h := h.(consecutiveFailures := 0, up := true, lastError := None);
    }

    method RecordProbeSuccess(ms: real, alpha: real)
      modifies this
      ensures forall threshold :: h == Apply(old(h), ProbeSuccess(ms), alpha, threshold)
    {
      h := h.(probeEwma := Ewma(h.probeSamples, h.probeEwma, ms, alpha), probeSamples := h.probeSamples + 1);
      h := h.(consecutiveFailures := 0, up := true, lastError := None);
    }

    method RecordProbeAlive(error: string)
      modifies this
      ensures forall alpha, threshold :: h == Apply(old(h), ProbeAlive(error), alpha, threshold)
    {
      h := h.(consecutiveFailures := 0, up := true, lastError := None);
      h := h.(lastError := Some(error));
    }

    method RecordLiveFailure(error: string, threshold: nat)
      modifies this
      ensures forall alpha :: h == Apply(old(h), LiveFailure(error), alpha, threshold)
    {
      h := h.(totalQueries := h.totalQueries + 1, totalFailures := h.totalFailures + 1);
      Fail(error, threshold);
    }

    method RecordProbeFailure(error: string, threshold: nat)
      modifies this
      ensures forall alpha :: h == Apply(old(h), ProbeFailure(error), alpha, threshold)
    {
      Fail(error, threshold);
    }

    method Fail(error: string, threshold: nat)
      modifies this
      ensures h == FoldFailure(old(h), error, threshold)
    {
      h := h.(consecutiveFailures := h.consecutiveFailures + 1, lastError := Some(error));
      if h.consecutiveFailures >= threshold {
        h := h.(up := false);
      }
    }

    method RecordSoftFailure(error: string)
      modifies this
      ensures forall alpha, threshold :: h == Apply(old(h), SoftFailure(error), alpha, threshold)
    {
      h := h.(totalQueries := h.totalQueries + 1, totalFailures := h.totalFailures + 1, lastError := Some(error));
    }
  }

  // ---- over whole runs ----

  function Run(h: State, events: seq<Event>, alpha: real, threshold: nat): State {
    if events == [] then h else Apply(Run(h, events[..|events| - 1], alpha, threshold), events[|events| - 1], alpha, threshold)
  }

  /** Live counters balance, and an upstream is up exactly below the threshold. */
  ghost predicate Sound(h: State, threshold: nat) {
    && h.totalQueries == h.liveSamples + h.totalFailures
    && (h.up <==> h.consecutiveFailures < threshold)
  }

  lemma {:induction false} RunIsSound(h: State, events: seq<Event>, alpha: real, threshold: nat)
    requires Sound(h, threshold) && threshold >= 1
    ensures Sound(Run(h, events, alpha, threshold), threshold)
    decreases |events|
  {
    if events != [] {
      RunIsSound(h, events[..|events| - 1], alpha, threshold);
    }
  }

  /** From a new upstream, the invariant holds along every run if and only if the threshold is at least one. */
  lemma SoundIffThreshold(alpha: real, threshold: nat)
    ensures (forall events :: Sound(Run(FRESH, events, alpha, threshold), threshold)) <==> threshold >= 1
  {
    if threshold >= 1 {
      forall events ensures Sound(Run(FRESH, events, alpha, threshold), threshold) {
        RunIsSound(FRESH, events, alpha, threshold);
      }
    } else {
      assert !Sound(Run(FRESH, [], alpha, threshold), threshold);
    }
  }

  /**
   Health carried over a reload meets the invariant of the new threshold if and
   only if the failure count is on the same side of both thresholds.
   */
  lemma AdoptedSoundIff(h: State, before: nat, after: nat)
    requires Sound(h, before)
    ensures Sound(h, after) <==> (h.consecutiveFailures < before <==> h.consecutiveFailures < after)
  {
  }

  /** Raising the threshold on reload leaves a down upstream below it; lowering it, an up one above. */
  lemma AdoptionCanBreakSoundness()
    ensures var h := Run(FRESH, [LiveFailure("timeout"), LiveFailure("timeout")], 0.2, 2);
            Sound(h, 2) && !Sound(h, 3)
  {
    var events := [LiveFailure("timeout"), LiveFailure("timeout")];
    assert events[..1] == [LiveFailure("timeout")];
    assert events[..1][..0] == [];
    assert Run(FRESH, events[..1], 0.2, 2).consecutiveFailures == 1;
  }

  // ---- smoothed latency stays among its samples ----

  lemma ProductNonNegative(x: real, y: real)
    requires 0.0 <= x && 0.0 <= y
    ensures 0.0 <= x * y
  {
  }

  lemma MixBetween(alpha: real, x: real, y: real, lo: real, hi: real)
    requires 0.0 <= alpha <= 1.0 && lo <= x <= hi && lo <= y <= hi
    ensures lo <= alpha * x + (1.0 - alpha) * y <= hi
  {
    var mix, beta := alpha * x + (1.0 - alpha) * y, 1.0 - alpha;
    ProductNonNegative(alpha, x - lo);
    ProductNonNegative(beta, y - lo);
    assert mix - lo == alpha * (x - lo) + beta * (y - lo);
    ProductNonNegative(alpha, hi - x);
    ProductNonNegative(beta, hi - y);
    assert hi - mix == alpha * (hi - x) + beta * (hi - y);
  }

  function LiveTimes(events: seq<Event>): seq<real> {
    if events == [] then []
    else LiveTimes(events[..|events| - 1]) + (var e := events[|events| - 1]; if e.LiveSuccess? then [e.ms] else [])
  }

  function ProbeTimes(events: seq<Event>): seq<real> {
    if events == [] then []
    else ProbeTimes(events[..|events| - 1]) + (var e := events[|events| - 1]; if e.ProbeSuccess? then [e.ms] else [])
  }

  ghost predicate Within(samples: seq<real>, lo: real, hi: real) {
    forall i :: 0 <= i < |samples| ==> lo <= samples[i] <= hi
  }

  lemma WithinPrefix(s: seq<real>, t: seq<real>, lo: real, hi: real)
    requires Within(s + t, lo, hi)
    ensures Within(s, lo, hi) && Within(t, lo, hi)
  {
    forall i | 0 <= i < |s| ensures lo <= s[i] <= hi {
      assert s[i] == (s + t)[i];
    }
    forall i | 0 <= i < |t| ensures lo <= t[i] <= hi {
      assert t[i] == (s + t)[|s| + i];
    }
  }

  lemma {:induction false} LiveEwmaStaysWithin(events: seq<Event>, alpha: real, threshold: nat, lo: real, hi: real)
    requires 0.0 <= alpha <= 1.0 && Within(LiveTimes(events), lo, hi)
    ensures var h := Run(FRESH, events, alpha, threshold);
            h.liveSamples == |LiveTimes(events)| && (h.liveSamples > 0 ==> lo <= h.liveEwma <= hi)
    decreases |events|
  {
    if events != [] {
      var front, e := events[..|events| - 1], events[|events| - 1];
      var last := if e.LiveSuccess? then [e.ms] else [];
      assert LiveTimes(events) == LiveTimes(front) + last;
      WithinPrefix(LiveTimes(front), last, lo, hi);
      LiveEwmaStaysWithin(front, alpha, threshold, lo, hi);
      var h := Run(FRESH, front, alpha, threshold);
      if e.LiveSuccess? {
        assert last[0] == e.ms;
        if h.liveSamples > 0 {
          MixBetween(alpha, e.ms, h.liveEwma, lo, hi);
        }
      }
    }
  }

  lemma {:induction false} ProbeEwmaStaysWithin(events: seq<Event>, alpha: real, threshold: nat, lo: real, hi: real)
    requires 0.0 <= alpha <= 1.0 && Within(ProbeTimes(events), lo, hi)
    ensures var h := Run(FRESH, events, alpha, threshold);
            h.probeSamples == |ProbeTimes(events)| && (h.probeSamples > 0 ==> lo <= h.probeEwma <= hi)
    decreases |events|
  {
    if events != [] {
      var front, e := events[..|events| - 1], events[|events| - 1];
      var last := if e.ProbeSuccess? then [e.ms] else [];
      assert ProbeTimes(events) == ProbeTimes(front) + last;
      WithinPrefix(ProbeTimes(front), last, lo, hi);
      ProbeEwmaStaysWithin(front, alpha, threshold, lo, hi);
      var h := Run(FRESH, front, alpha, threshold);
      if e.ProbeSuccess? {
        assert last[0] == e.ms;
        if h.probeSamples > 0 {
          MixBetween(alpha, e.ms, h.probeEwma, lo, hi);
        }
      }
    }
  }

  ghost predicate StaysBetween(lo: real, hi: real, x: real, y: real, alpha: real) {
    lo <= x <= hi && lo <= y <= hi ==> lo <= Ewma(1, y, x, alpha) <= hi
  }

  /** The smoothing step keeps every range its inputs lie in if and only if the factor is between 0 and 1. */
  lemma EwmaBoundedIff(alpha: real)
    ensures (forall lo, hi, x, y :: StaysBetween(lo, hi, x, y, alpha)) <==> 0.0 <= alpha <= 1.0
  {
    if 0.0 <= alpha <= 1.0 {
      forall lo, hi, x, y ensures StaysBetween(lo, hi, x, y, alpha) {
        if lo <= x <= hi && lo <= y <= hi {
          MixBetween(alpha, x, y, lo, hi);
        }
      }
    } else {
      assert Ewma(1, 0.0, 1.0, alpha) == alpha;
      assert !StaysBetween(0.0, 1.0, 1.0, 0.0, alpha);
    }
  }
}
