/** The upstream pool: ranked selection and sequential failover over shared health. */
module Pool {
  import opened Wrappers
  import Health
  import Ranking

  datatype UpstreamError =
    | Timeout
    | Transport(detail: string)
    | Rcode(code: nat)
    | NoUpstreams
    | AllFailed(last: UpstreamError)

  /** What asking one upstream yields; response codes are those of section 4.1.1 of RFC 1035. */
  datatype Outcome<M> =
    | Response(rcode: nat, message: M, ms: real)
    | Failed(error: UpstreamError)
    | TimedOut

  datatype Resolved<M> = Resolved(message: M, upstream: nat, ms: real)

  datatype Verdict = Answer | Reject | SoftFail

  const FORMERR := 1
  const SERVFAIL := 2
  const NOTIMP := 4
  const REFUSED := 5

  function Classify(rcode: nat): Verdict {
    if rcode == REFUSED || rcode == NOTIMP then Reject
    else if rcode == SERVFAIL || rcode == FORMERR then SoftFail
    else Answer
  }

  predicate Answers<M>(o: Outcome<M>) {
    o.Response? && Classify(o.rcode) == Answer
  }

  function ErrorOf<M>(o: Outcome<M>): UpstreamError {
    match o
    case Response(rcode, _, _) => Rcode(rcode)
    case Failed(e) => e
    case TimedOut => Timeout
  }

  /** How an outcome counts against the upstream that produced it. */
  function EventOf<M>(o: Outcome<M>, show: UpstreamError -> string): Health.Event {
    if Answers(o) then Health.LiveSuccess(o.ms)
    else if o.Response? && Classify(o.rcode) == SoftFail then Health.SoftFailure(show(ErrorOf(o)))
    else Health.LiveFailure(show(ErrorOf(o)))
  }

  function ResolvedBy<M>(outcomes: seq<Outcome<M>>, i: nat): Resolved<M>
    requires i < |outcomes| && outcomes[i].Response?
  {
    Resolved(outcomes[i].message, i, outcomes[i].ms)
  }

  ghost predicate NoAnswer<M>(outcomes: seq<Outcome<M>>, order: seq<nat>, n: nat)
    requires n <= |order| && Ranking.Within(order, |outcomes|)
  {
    forall p :: 0 <= p < n ==> !Answers(outcomes[order[p]])
  }

  ghost predicate NoResponse<M>(outcomes: seq<Outcome<M>>, order: seq<nat>, n: nat)
    requires n <= |order| && Ranking.Within(order, |outcomes|)
  {
    forall p :: 0 <= p < n ==> !outcomes[order[p]].Response?
  }

  ghost predicate FirstResponse<M>(outcomes: seq<Outcome<M>>, order: seq<nat>, p: nat)
    requires p < |order| && Ranking.Within(order, |outcomes|)
  {
    outcomes[order[p]].Response? && NoResponse(outcomes, order, p)
  }

  /** The first Answer, else the first response of any kind, else the last error. */
  ghost predicate Settled<M>(outcomes: seq<Outcome<M>>, order: seq<nat>, contacted: nat,
                             result: Result<Resolved<M>, UpstreamError>)
    requires contacted <= |order| && Ranking.Within(order, |outcomes|)
  {
    if NoAnswer(outcomes, order, |order|) then
      && contacted == |order|
      && (if NoResponse(outcomes, order, |order|)
          then result == Err(AllFailed(if order == [] then NoUpstreams else ErrorOf(outcomes[order[|order| - 1]])))
          else exists p :: 0 <= p < |order| && FirstResponse(outcomes, order, p)
                           && result == Ok(ResolvedBy(outcomes, order[p])))
    else
      && contacted > 0
      && Answers(outcomes[order[contacted - 1]])
      && NoAnswer(outcomes, order, contacted - 1)
      && result == Ok(ResolvedBy(outcomes, order[contacted - 1]))
  }

  /** The first `n` upstreams gave no answer; what is left to return after them. */
  ghost predicate Unanswered<M>(outcomes: seq<Outcome<M>>, order: seq<nat>, n: nat, last: UpstreamError, fallback: Option<Resolved<M>>)
    requires n <= |order| && Ranking.Within(order, |outcomes|)
  {
    && NoAnswer(outcomes, order, n)
    && last == (if n == 0 then NoUpstreams else ErrorOf(outcomes[order[n - 1]]))
    && (if fallback.None? then NoResponse(outcomes, order, n)
        else exists p :: 0 <= p < n && FirstResponse(outcomes, order, p) && fallback == Some(ResolvedBy(outcomes, order[p])))
  }

  lemma StillUnanswered<M>(outcomes: seq<Outcome<M>>, order: seq<nat>, n: nat, last: UpstreamError, fallback: Option<Resolved<M>>)
    requires n < |order| && Ranking.Within(order, |outcomes|)
    requires Unanswered(outcomes, order, n, last, fallback) && !Answers(outcomes[order[n]])
    ensures var o := outcomes[order[n]];
            Unanswered(outcomes, order, n + 1, ErrorOf(o),
                       if o.Response? && fallback.None? then Some(ResolvedBy(outcomes, order[n])) else fallback)
  {
    if fallback.None? && outcomes[order[n]].Response? {
      assert FirstResponse(outcomes, order, n);
    }
  }

  lemma AnsweredSettles<M>(outcomes: seq<Outcome<M>>, order: seq<nat>, n: nat, last: UpstreamError, fallback: Option<Resolved<M>>,
                           result: Result<Resolved<M>, UpstreamError>)
    requires n < |order| && Ranking.Within(order, |outcomes|)
    requires Unanswered(outcomes, order, n, last, fallback) && Answers(outcomes[order[n]])
    requires result == Ok(ResolvedBy(outcomes, order[n]))
    ensures Settled(outcomes, order, n + 1, result)
  {
  }

  lemma UnansweredSettles<M>(outcomes: seq<Outcome<M>>, order: seq<nat>, last: UpstreamError, fallback: Option<Resolved<M>>,
                             result: Result<Resolved<M>, UpstreamError>)
    requires Ranking.Within(order, |outcomes|) && Unanswered(outcomes, order, |order|, last, fallback)
    requires result == if fallback.Some? then Ok(fallback.value) else Err(AllFailed(last))
    ensures Settled(outcomes, order, |order|, result)
  {
  }

  /** The outcomes leave no freedom in how far a query goes or what it returns. */
  lemma SettledIsUnique<M>(outcomes: seq<Outcome<M>>, order: seq<nat>, c1: nat, c2: nat,
                           r1: Result<Resolved<M>, UpstreamError>, r2: Result<Resolved<M>, UpstreamError>)
    requires c1 <= |order| && c2 <= |order| && Ranking.Within(order, |outcomes|)
    requires Settled(outcomes, order, c1, r1) && Settled(outcomes, order, c2, r2)
    ensures c1 == c2 && r1 == r2
  {
    if NoAnswer(outcomes, order, |order|) {
      if !NoResponse(outcomes, order, |order|) {
        var p :| 0 <= p < |order| && FirstResponse(outcomes, order, p) && r1 == Ok(ResolvedBy(outcomes, order[p]));
        var q :| 0 <= q < |order| && FirstResponse(outcomes, order, q) && r2 == Ok(ResolvedBy(outcomes, order[q]));
        assert p == q;
      }
    }
  }

  /** A query fails if and only if no upstream responds at all. */
  lemma FailsIffNoResponse<M>(outcomes: seq<Outcome<M>>, order: seq<nat>, contacted: nat,
                              result: Result<Resolved<M>, UpstreamError>)
    requires contacted <= |order| && Ranking.Within(order, |outcomes|)
    requires Settled(outcomes, order, contacted, result)
    ensures result.Err? <==> NoResponse(outcomes, order, |order|)
    ensures result.Ok? ==> result.value.upstream in order[..contacted]
  {
    if NoAnswer(outcomes, order, |order|) {
      if !NoResponse(outcomes, order, |order|) {
        var p :| 0 <= p < |order| && FirstResponse(outcomes, order, p) && result == Ok(ResolvedBy(outcomes, order[p]));
        assert order[..contacted] == order;
        assert order[p] in order;
      }
    } else {
      assert order[..contacted][contacted - 1] == order[contacted - 1];
    }
  }

  // ---- health of the whole pool ----

  ghost predicate AllSound(hs: seq<Health.State>, threshold: nat) {
    forall i :: 0 <= i < |hs| ==> Health.Sound(hs[i], threshold)
  }

  function TotalQueries(hs: seq<Health.State>): nat {
    if hs == [] then 0 else hs[0].totalQueries + TotalQueries(hs[1..])
  }

  /** Upstreams among the first `n` of the order recorded their outcome; the others are unchanged. */
  ghost predicate RecordedFirst<M>(before: seq<Health.State>, after: seq<Health.State>, outcomes: seq<Outcome<M>>,
                                   order: seq<nat>, n: nat, alpha: real, threshold: nat, show: UpstreamError -> string)
    requires n <= |order| && Ranking.Within(order, |before|) && |outcomes| == |before|
  {
    && |after| == |before|
    && (forall p :: 0 <= p < n ==>
          after[order[p]] == Health.Apply(before[order[p]], EventOf(outcomes[order[p]], show), alpha, threshold))
    && (forall p :: n <= p < |order| ==> after[order[p]] == before[order[p]])
  }

  /** The first `n` upstreams of the order have been contacted, and one query counted for each. */
  ghost predicate Underway<M>(before: seq<Health.State>, now: seq<Health.State>, outcomes: seq<Outcome<M>>,
                              order: seq<nat>, n: nat, alpha: real, threshold: nat, show: UpstreamError -> string)
    requires Ranking.IsPermutation(order, |before|) && |outcomes| == |before| && n <= |order|
  {
    RecordedFirst(before, now, outcomes, order, n, alpha, threshold, show) && TotalQueries(now) == TotalQueries(before) + n
  }

  lemma OneMore<M>(before: seq<Health.State>, now: seq<Health.State>, outcomes: seq<Outcome<M>>,
                   order: seq<nat>, n: nat, alpha: real, threshold: nat, show: UpstreamError -> string)
    requires Ranking.IsPermutation(order, |before|) && |outcomes| == |before| && n < |order|
    requires Underway(before, now, outcomes, order, n, alpha, threshold, show)
    ensures var i := order[n];
            Underway(before, now[i := Health.Apply(now[i], EventOf(outcomes[i], show), alpha, threshold)],
                     outcomes, order, n + 1, alpha, threshold, show)
  {
    RecordingCountsOne(now, order[n], outcomes[order[n]], alpha, threshold, show);
  }

  /** Failing over keeps every upstream's counters balanced and its state on the right side of the threshold. */
  lemma FailoverKeepsSound<M>(before: seq<Health.State>, after: seq<Health.State>, outcomes: seq<Outcome<M>>,
                              order: seq<nat>, n: nat, alpha: real, threshold: nat, show: UpstreamError -> string)
    requires Ranking.IsPermutation(order, |before|) && |outcomes| == |before| && n <= |order|
    requires RecordedFirst(before, after, outcomes, order, n, alpha, threshold, show)
    requires AllSound(before, threshold) && threshold >= 1
    ensures AllSound(after, threshold)
  {
    forall i: nat | i < |after| ensures Health.Sound(after[i], threshold) {
      var p := Ranking.IndexOf(order, i);
      assert order[p] == i;
      if p < n {
        var e := EventOf(outcomes[i], show);
        assert Health.Run(before[i], [e], alpha, threshold) == after[i] by {
          assert [e][..0] == [];
        }
        Health.RunIsSound(before[i], [e], alpha, threshold);
      }
    }
  }

  lemma {:induction false} UpdateTotal(hs: seq<Health.State>, i: nat, h: Health.State)
    requires i < |hs|
    ensures TotalQueries(hs[i := h]) == TotalQueries(hs) - hs[i].totalQueries + h.totalQueries
  {
    if i == 0 {
      assert hs[0 := h][1..] == hs[1..];
    } else {
      assert hs[i := h][1..] == hs[1..][i - 1 := h];
      UpdateTotal(hs[1..], i - 1, h);
    }
  }

  /** Recording any live outcome counts one query. */
  lemma RecordingCountsOne<M>(hs: seq<Health.State>, i: nat, o: Outcome<M>, alpha: real, threshold: nat, show: UpstreamError -> string)
    requires i < |hs|
    ensures TotalQueries(hs[i := Health.Apply(hs[i], EventOf(o, show), alpha, threshold)]) == TotalQueries(hs) + 1
  {
    UpdateTotal(hs, i, Health.Apply(hs[i], EventOf(o, show), alpha, threshold));
  }

  const MAX_RANK := 65535

  /** Health after ranking: position and hold flag noted on the first `n` of the order. */
  ghost predicate RankedFirst(before: seq<Health.State>, after: seq<Health.State>, s: Ranking.Selection, n: nat)
    requires n <= |s.order| && Ranking.Within(s.order, |before|)
  {
    && |after| == |before|
    && (forall p :: 0 <= p < n ==>
          after[s.order[p]] == before[s.order[p]].(lastRank := Some(if p < MAX_RANK then p else MAX_RANK),
                                                   leadHeld := p == 0 && s.held))
    && (forall p :: n <= p < |s.order| ==> after[s.order[p]] == before[s.order[p]])
  }

  lemma RankingIsInvisible(before: seq<Health.State>, after: seq<Health.State>, s: Ranking.Selection)
    requires Ranking.IsPermutation(s.order, |before|) && RankedFirst(before, after, s, |s.order|)
    ensures Ranking.SameForRanking(before, after)
    ensures forall threshold :: AllSound(before, threshold) ==> AllSound(after, threshold)
  {
    forall i: nat | i < |before|
      ensures exists rank, held :: after[i] == before[i].(lastRank := rank, leadHeld := held)
    {
      var p := Ranking.IndexOf(s.order, i);
      assert s.order[p] == i;
    }
  }

  // ---- health across a reload ----

  /** The last upstream of that identity, the one a map built in order would keep. */
  function LastWith(identities: seq<string>, id: string): (r: Option<nat>)
    ensures r.Some? ==> r.value < |identities| && identities[r.value] == id
    ensures r.Some? ==> forall j :: r.value < j < |identities| ==> identities[j] != id
    ensures r.None? <==> id !in identities
  {
    if identities == [] then None
    else
      var n := |identities| - 1;
      assert identities == identities[..n] + [identities[n]];
      if identities[n] == id then Some(n) else LastWith(identities[..n], id)
  }

  /** Upstreams found in the old pool by identity take its health over; the others keep theirs. */
  ghost predicate Adopts(after: seq<Health.State>, before: seq<Health.State>, identities: seq<string>,
                         priorIdentities: seq<string>, prior: seq<Health.State>) {
    && |after| == |before| == |identities| && |prior| == |priorIdentities|
    && forall i :: 0 <= i < |identities| ==>
         after[i] == AdoptedState(before[i], LastWith(priorIdentities, identities[i]), prior)
  }

  function AdoptedState(own: Health.State, j: Option<nat>, prior: seq<Health.State>): Health.State {
    if j.Some? && j.value < |prior| then prior[j.value] else own
  }

  /**
   A reload from a sound pool gives a sound one if and only if no adopted failure
   count lies between the two thresholds.
   */
  lemma AdoptionSoundIff(after: seq<Health.State>, before: seq<Health.State>, identities: seq<string>,
                         priorIdentities: seq<string>, prior: seq<Health.State>, old': nat, new': nat)
    requires Adopts(after, before, identities, priorIdentities, prior)
    requires AllSound(prior, old') && AllSound(before, new')
    ensures AllSound(after, new') <==>
            forall i :: 0 <= i < |identities| ==>
              var j := LastWith(priorIdentities, identities[i]);
              j.Some? ==> (prior[j.value].consecutiveFailures < old' <==> prior[j.value].consecutiveFailures < new')
  {
    forall i | 0 <= i < |identities|
      ensures Health.Sound(after[i], new') <==>
              var j := LastWith(priorIdentities, identities[i]);
              j.Some? ==> (prior[j.value].consecutiveFailures < old' <==> prior[j.value].consecutiveFailures < new')
    {
      var j := LastWith(priorIdentities, identities[i]);
      if j.Some? {
        Health.AdoptedSoundIff(prior[j.value], old', new');
      }
    }
  }

  /** Health by upstream, and the upstream that led last. */
  class UpstreamPool {
    const identities: seq<string>
    var health: seq<Health.State>
    var leader: Option<nat>

    ghost predicate Valid()
      reads this
    {
      |health| == |identities| && (leader.Some? ==> leader.value < |health|)
    }

    constructor (identities: seq<string>)
      ensures Valid() && leader == None && this.identities == identities
      ensures forall i :: 0 <= i < |health| ==> health[i] == Health.FRESH
    {
      this.identities := identities;
      health := seq(|identities|, i => Health.FRESH);
      leader := None;
    }

    /** Takes over the health of upstreams that the old pool had under the same identity. */
    method AdoptHealthFrom(other: UpstreamPool)
      requires Valid() && other.Valid()
      modifies this`health
      ensures Valid() && Adopts(health, old(health), identities, other.identities, old(other.health))
    {
      var from := other.health;
      var prior: map<string, nat> := map[];
      for j := 0 to |other.identities|
        invariant forall id :: id in prior ==> LastWith(other.identities[..j], id) == Some(prior[id])
        invariant forall id :: id !in prior ==> LastWith(other.identities[..j], id) == None
      {
        assert other.identities[..j + 1][..j] == other.identities[..j];
        prior := prior[other.identities[j] := j];
      }
      assert other.identities[..|other.identities|] == other.identities;
      ghost var before := health;
      for i := 0 to |identities|
        invariant |health| == |before|
        invariant forall k :: 0 <= k < i ==> health[k] == AdoptedState(before[k], LastWith(other.identities, identities[k]), from)
        invariant forall k :: i <= k < |health| ==> health[k] == before[k]
      {
        if identities[i] in prior {
          health := health[i := from[prior[identities[i]]]];
        }
      }
    }

    /** Orders all upstreams, remembers the leader and notes each one's rank. */
    method Ordered() returns (order: seq<nat>)
      requires Valid()
      modifies this
      ensures Valid()
      ensures order == Ranking.Select(old(health), old(leader)).order
      ensures Ranking.IsPermutation(order, |old(health)|)
      ensures leader == Ranking.NewLeader(Ranking.Select(old(health), old(leader)))
      ensures RankedFirst(old(health), health, Ranking.Select(old(health), old(leader)), |order|)
      ensures Ranking.Select(health, leader).order == order
      ensures forall threshold :: AllSound(old(health), threshold) ==> AllSound(health, threshold)
    {
      ghost var selection := Ranking.Select(health, leader);
      Ranking.SelectIsPermutation(health, leader);
      order := Ranking.SortByKey(health);
      var held := false;
      if leader.Some? {
        var p := Ranking.IndexOf(order, leader.value);
        if p < |order| && p != 0 {
          var inc := Ranking.EligibleLatency(health[order[p]]);
          var best := Ranking.EligibleLatency(health[order[0]]);
          if inc.Some? && best.Some? && inc.value - best.value <= Ranking.SwitchMargin(inc.value) {
            order := Ranking.MoveToFront(order, p);
            held := true;
          }
        }
      }
      assert selection == Ranking.Selection(order, held);
      leader := if order == [] then None else Some(order[0]);
      NoteRanks(selection, order, held);
      RankingIsInvisible(old(health), health, selection);
      Ranking.RepeatedSelectionIsStable(old(health), health, old(leader));
    }

    method NoteRanks(ghost selection: Ranking.Selection, order: seq<nat>, held: bool)
      requires selection == Ranking.Selection(order, held) && Ranking.IsPermutation(order, |health|)
      modifies this`health
      ensures RankedFirst(old(health), health, selection, |order|)
    {
      for n := 0 to |order|
        invariant RankedFirst(old(health), health, selection, n)
      {
        var i := order[n];
        health := health[i := health[i].(lastRank := Some(if n < MAX_RANK then n else MAX_RANK),
                                         leadHeld := n == 0 && held)];
      }
    }

    /** Notes what one upstream did. */
    method RecordOutcome<M>(i: nat, o: Outcome<M>, alpha: real, threshold: nat, show: UpstreamError -> string)
      requires i < |health|
      modifies this`health
      ensures health == old(health)[i := Health.Apply(old(health)[i], EventOf(o, show), alpha, threshold)]
      ensures TotalQueries(health) == TotalQueries(old(health)) + 1
    {
      RecordingCountsOne(health, i, o, alpha, threshold, show);
      health := health[i := Health.Apply(health[i], EventOf(o, show), alpha, threshold)];
    }

    /** Asks one more upstream: its answer ends the query, anything else is kept for the end. */
    method AskNext<M>(order: seq<nat>, outcomes: seq<Outcome<M>>, n: nat, alpha: real, threshold: nat, show: UpstreamError -> string,
                      last: UpstreamError, fallback: Option<Resolved<M>>, ghost before: seq<Health.State>)
      returns (answer: Option<Resolved<M>>, last': UpstreamError, fallback': Option<Resolved<M>>)
      requires Valid() && |before| == |health| == |outcomes| && Ranking.IsPermutation(order, |before|) && n < |order|
      requires Underway(before, health, outcomes, order, n, alpha, threshold, show)
      requires Unanswered(outcomes, order, n, last, fallback)
      modifies this`health
      ensures Valid() && |health| == |before| && Underway(before, health, outcomes, order, n + 1, alpha, threshold, show)
      ensures answer.Some? ==> Settled(outcomes, order, n + 1, Ok(answer.value))
      ensures answer.None? ==> Unanswered(outcomes, order, n + 1, last', fallback')
    {
      var i := order[n];
      var o := outcomes[i];
      answer, last', fallback' := None, last, fallback;
      OneMore(before, health, outcomes, order, n, alpha, threshold, show);
      RecordOutcome(i, o, alpha, threshold, show);
      if Answers(o) {
        answer := Some(Resolved(o.message, i, o.ms));
        AnsweredSettles(outcomes, order, n, last, fallback, Ok(answer.value));
        return;
      }
      StillUnanswered(outcomes, order, n, last, fallback);
      if o.Response? && fallback.None? {
        fallback' := Some(Resolved(o.message, i, o.ms));
      }
      last' := ErrorOf(o);
    }

    /** Asks the upstreams in order, once each, until one answers. */
    method ResolveSequential<M>(order: seq<nat>, outcomes: seq<Outcome<M>>, alpha: real, threshold: nat,
                                show: UpstreamError -> string)
      returns (result: Result<Resolved<M>, UpstreamError>, contacted: nat)
      requires Valid() && Ranking.IsPermutation(order, |health|) && |outcomes| == |health|
      modifies this`health
      ensures Valid() && contacted <= |order|
      ensures Settled(outcomes, order, contacted, result)
      ensures RecordedFirst(old(health), health, outcomes, order, contacted, alpha, threshold, show)
      ensures TotalQueries(health) == TotalQueries(old(health)) + contacted
    {
      var last := NoUpstreams;
      var fallback: Option<Resolved<M>> := None;
      ghost var before := health;
      contacted := 0;
      while contacted < |order|
        invariant 0 <= contacted <= |order| && Valid() && |health| == |before|
        invariant Underway(before, health, outcomes, order, contacted, alpha, threshold, show)
        invariant Unanswered(outcomes, order, contacted, last, fallback)
      {
        var answer;
        answer, last, fallback := AskNext(order, outcomes, contacted, alpha, threshold, show, last, fallback, before);
        contacted := contacted + 1;
        if answer.Some? {
          return Ok(answer.value), contacted;
        }
      }
      result := if fallback.Some? then Ok(fallback.value) else Err(AllFailed(last));
      UnansweredSettles(outcomes, order, last, fallback, result);
    }

    /** A whole query: rank, then fail over. */
    method Resolve<M>(outcomes: seq<Outcome<M>>, alpha: real, threshold: nat, show: UpstreamError -> string)
      returns (result: Result<Resolved<M>, UpstreamError>, ghost order: seq<nat>, ghost contacted: nat)
      requires Valid() && |outcomes| == |health|
      modifies this
      ensures Valid() && |health| == |old(health)|
      ensures |health| == 0 ==> result == Err(NoUpstreams) && contacted == 0
      ensures |health| > 0 ==> order == Ranking.Select(old(health), old(leader)).order
      ensures |health| > 0 ==> Ranking.IsPermutation(order, |health|) && contacted <= |order|
                               && Settled(outcomes, order, contacted, result)
      ensures AllSound(old(health), threshold) && threshold >= 1 ==> AllSound(health, threshold)
    {
      order, contacted := [], 0;
      if |health| == 0 {
        return Err(NoUpstreams), [], 0;
      }
      var v := Ordered();
      ghost var ranked := health;
      var n;
      result, n := ResolveSequential(v, outcomes, alpha, threshold, show);
      order, contacted := v, n;
      if AllSound(old(health), threshold) && threshold >= 1 {
        FailoverKeepsSound(ranked, health, outcomes, v, n, alpha, threshold, show);
      }
    }
  }
}
