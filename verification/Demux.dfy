/**
 Pipelined exchanges over one UDP socket or TLS connection. A wrapping 16-bit
 counter numbers them, a map holds the waiters, and a reader task hands each
 frame to the waiter registered under its id.
 */
module Demux {

  const IDS := 65536

  datatype Frame = Frame(id: nat, body: seq<nat>)

  datatype Phase =
    | Began                     // has its id, not registered yet
    | Waiting                   // registered, guard held
    | Received(frame: Frame)    // its frame arrived, guard still held
    | Woken                     // its sender was dropped without a frame, guard still held
    | Answered(frame: Frame)
    | Failed

  datatype Exchange = Exchange(id: nat, phase: Phase)

  datatype Reader = Running | Closing(idle: bool) | Closed

  datatype State = State(
    udp: bool, nextId: nat, exchanges: seq<Exchange>, pending: map<nat, nat>, dead: bool, reader: Reader)

  function Fresh(udp: bool): State {
    State(udp, 0, [], map[], false, Running)
  }

  datatype Step =
    | Begin
    | Abandon(k: nat)           // encoding failed or the caller went away before registering
    | Register(k: nat)
    | Deliver(frame: Frame)
    | Leave(k: nat, accepted: bool)   // returns or is cancelled, dropping its guard; a frame must match the query
    | IdleTimeout
    | ReadError
    | Teardown

  predicate HoldsGuard(e: Exchange) {
    e.phase.Waiting? || e.phase.Received? || e.phase.Woken?
  }

  predicate Ended(e: Exchange) {
    e.phase.Answered? || e.phase.Failed?
  }

  predicate Enabled(s: State, step: Step) {
    match step
    case Begin => true
    case Abandon(k) => k < |s.exchanges| && s.exchanges[k].phase.Began?
    case Register(k) => k < |s.exchanges| && s.exchanges[k].phase.Began?
    case Deliver(_) => s.reader.Running?
    case Leave(k, _) => k < |s.exchanges| && HoldsGuard(s.exchanges[k])
    case IdleTimeout => s.reader.Running?
    case ReadError => s.reader.Running?
    case Teardown => s.reader.Closing?
  }

  function At(exchanges: seq<Exchange>, k: nat, phase: Phase): seq<Exchange>
    requires k < |exchanges|
  {
    exchanges[k := exchanges[k].(phase := phase)]
  }

  /** Dropping the sender registered under `id`, if any, wakes its exchange empty-handed. */
  function DropSender(exchanges: seq<Exchange>, pending: map<nat, nat>, id: nat): (r: seq<Exchange>)
    ensures |r| == |exchanges|
  {
    if id in pending && pending[id] < |exchanges| && exchanges[pending[id]].phase.Waiting?
    then At(exchanges, pending[id], Woken) else exchanges
  }

  function WakeOne(e: Exchange): Exchange {
    if e.phase.Waiting? then e.(phase := Woken) else e
  }

  /** Clearing the map drops every sender in it. */
  function DropAll(exchanges: seq<Exchange>, pending: map<nat, nat>): (r: seq<Exchange>)
    ensures |r| == |exchanges|
  {
    seq(|exchanges|, k requires 0 <= k < |exchanges| =>
      if exchanges[k].id in pending && pending[exchanges[k].id] == k then WakeOne(exchanges[k]) else exchanges[k])
  }

  function Next(s: State, step: Step): State
    requires Enabled(s, step)
  {
    match step
    case Begin => s.(nextId := (s.nextId + 1) % IDS, exchanges := s.exchanges + [Exchange(s.nextId, Began)])
    case Abandon(k) => s.(exchanges := At(s.exchanges, k, Failed))
    case Register(k) =>
      if s.dead then s.(exchanges := At(s.exchanges, k, Failed))
      else
        var id := s.exchanges[k].id;
        s.(exchanges := At(DropSender(s.exchanges, s.pending, id), k, Waiting), pending := s.pending[id := k])
    case Deliver(frame) =>
      if frame.id in s.pending then
        s.(exchanges := if s.pending[frame.id] < |s.exchanges| && s.exchanges[s.pending[frame.id]].phase.Waiting?
                        then At(s.exchanges, s.pending[frame.id], Received(frame)) else s.exchanges,
           pending := s.pending - {frame.id})
      else s
    case Leave(k, accepted) =>
      var e := s.exchanges[k];
      s.(exchanges := At(DropSender(s.exchanges, s.pending, e.id), k,
                         if e.phase.Received? && accepted then Answered(e.phase.frame) else Failed),
         pending := s.pending - {e.id})
    case IdleTimeout =>
      if !s.udp then s.(reader := Closing(true))
      else if s.pending == map[] then s.(dead := true, reader := Closing(true))
      else s
    case ReadError => s.(reader := Closing(false))
    case Teardown => s.(exchanges := DropAll(s.exchanges, s.pending), pending := map[], dead := true, reader := Closed)
  }

  ghost predicate IsRun(s: State, steps: seq<Step>, t: State)
    decreases |steps|
  {
    if steps == [] then t == s
    else Enabled(s, steps[0]) && IsRun(Next(s, steps[0]), steps[1..], t)
  }

  // ---- what every run keeps, id reuse included ----

  predicate Registered(s: State, k: nat) {
    k < |s.exchanges| && s.exchanges[k].id in s.pending && s.pending[s.exchanges[k].id] == k
  }

  /** Ids are handed out in order, modulo 65536. */
  ghost predicate Numbered(s: State) {
    s.nextId == |s.exchanges| % IDS && forall k :: 0 <= k < |s.exchanges| ==> s.exchanges[k].id == k % IDS
  }

  /** The map holds exactly the waiters, each under its own id: nobody waits unheard. */
  ghost predicate WaitersRegistered(s: State) {
    && (forall id :: id in s.pending ==> s.pending[id] < |s.exchanges| && s.exchanges[s.pending[id]].id == id)
    && (forall k: nat :: k < |s.exchanges| ==> (s.exchanges[k].phase.Waiting? <==> Registered(s, k)))
  }

  /** A frame reached an exchange only under the id that exchange sent. */
  ghost predicate FramesMatch(s: State) {
    forall k :: 0 <= k < |s.exchanges| ==>
      var e := s.exchanges[k]; (e.phase.Received? || e.phase.Answered?) ==> e.phase.frame.id == e.id
  }

  ghost predicate ClosedMeansEmpty(s: State) {
    && (s.reader.Closed? ==> s.dead && s.pending == map[])
    && (s.udp && s.reader == Closing(true) ==> s.dead && s.pending == map[])
    && (s.dead ==> !s.reader.Running?)
  }

  ghost predicate Inv(s: State) {
    Numbered(s) && WaitersRegistered(s) && FramesMatch(s) && ClosedMeansEmpty(s)
  }

  lemma StepKeepsNumbers(s: State, step: Step)
    requires Numbered(s) && Enabled(s, step)
    ensures Numbered(Next(s, step))
  {
  }

  lemma RegisterKeepsWaiters(s: State, k: nat)
    requires WaitersRegistered(s) && Enabled(s, Register(k))
    ensures WaitersRegistered(Next(s, Register(k)))
  {
  }

  lemma LeaveKeepsWaiters(s: State, k: nat, accepted: bool)
    requires WaitersRegistered(s) && Enabled(s, Leave(k, accepted))
    ensures WaitersRegistered(Next(s, Leave(k, accepted)))
  {
  }

  lemma StepKeepsWaiters(s: State, step: Step)
    requires WaitersRegistered(s) && Enabled(s, step)
    ensures WaitersRegistered(Next(s, step))
  {
    match step
    case Register(k) => RegisterKeepsWaiters(s, k);
    case Leave(k, accepted) => LeaveKeepsWaiters(s, k, accepted);
    case _ =>
  }

  lemma StepKeepsFrames(s: State, step: Step)
    requires WaitersRegistered(s) && FramesMatch(s) && Enabled(s, step)
    ensures FramesMatch(Next(s, step))
  {
  }

  lemma StepKeepsInv(s: State, step: Step)
    requires Inv(s) && Enabled(s, step)
    ensures Inv(Next(s, step))
  {
    StepKeepsNumbers(s, step);
    StepKeepsWaiters(s, step);
    StepKeepsFrames(s, step);
  }

  lemma {:induction false} EveryRunKeepsInv(s: State, steps: seq<Step>, t: State)
    requires Inv(s) && IsRun(s, steps, t)
    ensures Inv(t) && t.udp == s.udp
    decreases |steps|
  {
    if steps != [] {
      StepKeepsInv(s, steps[0]);
      EveryRunKeepsInv(Next(s, steps[0]), steps[1..], t);
    }
  }

  /** Once torn down, the connection stays dead with an empty map, and nobody waits on it. */
  lemma {:induction false} ClosedForever(s: State, steps: seq<Step>, t: State)
    requires Inv(s) && s.reader.Closed? && IsRun(s, steps, t)
    ensures t.reader.Closed? && t.dead && t.pending == map[]
    ensures forall k :: 0 <= k < |t.exchanges| ==> !t.exchanges[k].phase.Waiting?
    decreases |steps|
  {
    if steps != [] {
      StepKeepsInv(s, steps[0]);
      ClosedForever(Next(s, steps[0]), steps[1..], t);
    }
  }

  /** Tearing down wakes every waiter and touches no other exchange. */
  lemma TeardownWakesWaiters(s: State, k: nat)
    requires Inv(s) && s.reader.Closing? && k < |s.exchanges|
    ensures Next(s, Teardown).exchanges[k] == WakeOne(s.exchanges[k])
  {
    assert s.exchanges[k].phase.Waiting? <==> Registered(s, k);
  }

  /** A UDP idle close finds no waiter, and lets none in before the teardown. */
  lemma UdpIdleCloseDropsNobody(steps: seq<Step>, s: State)
    requires IsRun(Fresh(true), steps, s) && s.reader == Closing(true)
    ensures forall k :: 0 <= k < |s.exchanges| ==> !s.exchanges[k].phase.Waiting?
    ensures Next(s, Teardown).exchanges == s.exchanges
  {
    EveryRunKeepsInv(Fresh(true), steps, s);
    forall k: nat | k < |s.exchanges|
      ensures !s.exchanges[k].phase.Waiting? && Next(s, Teardown).exchanges[k] == s.exchanges[k]
    {
      assert s.exchanges[k].phase.Waiting? <==> Registered(s, k);
    }
  }

  // ---- fewer than 65536 starts during any one exchange ----

  ghost predicate Spaced(s: State) {
    forall k :: 0 <= k < |s.exchanges| && !Ended(s.exchanges[k]) ==> |s.exchanges| - k <= IDS
  }

  ghost predicate IsSpacedRun(s: State, steps: seq<Step>, t: State)
    decreases |steps|
  {
    && Spaced(s)
    && if steps == [] then t == s
       else Enabled(s, steps[0]) && IsSpacedRun(Next(s, steps[0]), steps[1..], t)
  }

  lemma {:induction false} SpacedRunIsRun(s: State, steps: seq<Step>, t: State)
    requires IsSpacedRun(s, steps, t)
    ensures IsRun(s, steps, t) && Spaced(t)
    decreases |steps|
  {
    if steps != [] {
      SpacedRunIsRun(Next(s, steps[0]), steps[1..], t);
    }
  }

  /** Outstanding ids are distinct. */
  lemma LiveIdsDistinct(s: State, j: nat, k: nat)
    requires Numbered(s) && Spaced(s)
    requires j < |s.exchanges| && k < |s.exchanges| && j != k
    requires !Ended(s.exchanges[j]) && !Ended(s.exchanges[k])
    ensures s.exchanges[j].id != s.exchanges[k].id
  {
    assert -IDS < j - k < IDS;
  }

  /** A frame completes an exchange if and only if that one waits under the frame's id, and no other live one does. */
  lemma FrameReachesItsSender(s: State, frame: Frame, k: nat)
    requires Inv(s) && Spaced(s) && s.reader.Running? && k < |s.exchanges|
    ensures var t := Next(s, Deliver(frame));
            && |t.exchanges| == |s.exchanges|
            && t.exchanges[k] == if s.exchanges[k].phase.Waiting? && s.exchanges[k].id == frame.id
                                 then s.exchanges[k].(phase := Received(frame)) else s.exchanges[k]
    ensures s.exchanges[k].phase.Waiting? && s.exchanges[k].id == frame.id ==>
              forall j :: 0 <= j < |s.exchanges| && j != k && !Ended(s.exchanges[j]) ==> s.exchanges[j].id != frame.id
  {
    assert s.exchanges[k].phase.Waiting? <==> Registered(s, k);
    if s.exchanges[k].phase.Waiting? {
      forall j: nat | j < |s.exchanges| && j != k && !Ended(s.exchanges[j])
        ensures s.exchanges[j].id != s.exchanges[k].id
      {
        LiveIdsDistinct(s, j, k);
      }
    }
  }

  /** No exchange is woken empty-handed while the connection is up. */
  ghost predicate WokenMeansClosed(s: State) {
    forall k :: 0 <= k < |s.exchanges| && s.exchanges[k].phase.Woken? ==> s.reader.Closed?
  }

  /** A guard removes, and a registration replaces, nobody else's waiter. */
  lemma OnlyOwnSender(s: State, k: nat)
    requires Inv(s) && Spaced(s) && k < |s.exchanges| && !Ended(s.exchanges[k])
    ensures DropSender(s.exchanges, s.pending, s.exchanges[k].id)
            == if s.exchanges[k].phase.Waiting? then At(s.exchanges, k, Woken) else s.exchanges
  {
    var id := s.exchanges[k].id;
    assert s.exchanges[k].phase.Waiting? <==> Registered(s, k);
    if id in s.pending && s.pending[id] != k {
      assert Registered(s, s.pending[id]);
      LiveIdsDistinct(s, s.pending[id], k);
    }
  }

  lemma StepKeepsWokenMeansClosed(s: State, step: Step)
    requires Inv(s) && Spaced(s) && WokenMeansClosed(s) && Enabled(s, step)
    ensures WokenMeansClosed(Next(s, step))
  {
    if step.Register? || step.Leave? {
      OnlyOwnSender(s, step.k);
    }
  }

  /** With spacing, a waiter is only ever woken by its frame or by the teardown. */
  lemma {:induction false} NoSpuriousFailure(s: State, steps: seq<Step>, t: State)
    requires Inv(s) && WokenMeansClosed(s) && IsSpacedRun(s, steps, t)
    ensures Inv(t) && WokenMeansClosed(t)
    decreases |steps|
  {
    if steps != [] {
      StepKeepsInv(s, steps[0]);
      StepKeepsWokenMeansClosed(s, steps[0]);
      NoSpuriousFailure(Next(s, steps[0]), steps[1..], t);
    }
  }

  // ---- exactly when a waiter is lost on a live connection ----

  /** The step drops the sender of some other exchange registered under the same id. */
  predicate Displaces(s: State, step: Step)
    requires Enabled(s, step)
  {
    && (step.Leave? || (step.Register? && !s.dead))
    && s.exchanges[step.k].id in s.pending && s.pending[s.exchanges[step.k].id] != step.k
  }

  /** A registration or a leaving wakes another exchange empty-handed if and only if it displaces one. */
  lemma WakesAnotherIff(s: State, step: Step)
    requires Inv(s) && Enabled(s, step) && (step.Register? || step.Leave?)
    ensures Displaces(s, step) <==>
            exists j :: 0 <= j < |s.exchanges| && j != step.k && s.exchanges[j].phase.Waiting? && Next(s, step).exchanges[j].phase.Woken?
  {
    var id := s.exchanges[step.k].id;
    if Displaces(s, step) {
      var j := s.pending[id];
      assert Registered(s, j);
      assert Next(s, step).exchanges[j].phase.Woken?;
    }
  }

  lemma StepKeepsWokenIff(s: State, step: Step)
    requires Inv(s) && WokenMeansClosed(s) && Enabled(s, step)
    ensures WokenMeansClosed(Next(s, step)) <==> !Displaces(s, step)
  {
    if step.Register? || step.Leave? {
      WakesAnotherIff(s, step);
      if Displaces(s, step) {
        assert !Next(s, step).reader.Closed?;
      } else {
        NothingDisplaced(s, step);
      }
    }
  }

  lemma NothingDisplaced(s: State, step: Step)
    requires Inv(s) && WokenMeansClosed(s) && Enabled(s, step) && (step.Register? || step.Leave?) && !Displaces(s, step)
    ensures WokenMeansClosed(Next(s, step))
  {
    var t := Next(s, step);
    assert s.exchanges[step.k].phase.Waiting? <==> Registered(s, step.k);
    forall j | 0 <= j < |t.exchanges| && t.exchanges[j].phase.Woken? ensures s.exchanges[j].phase.Woken? {
    }
  }

  /** No state along the run has an exchange woken empty-handed on a live connection. */
  ghost predicate NeverSpurious(s: State, steps: seq<Step>)
    decreases |steps|
  {
    && WokenMeansClosed(s)
    && (steps == [] || (Enabled(s, steps[0]) && NeverSpurious(Next(s, steps[0]), steps[1..])))
  }

  ghost predicate NeverDisplaces(s: State, steps: seq<Step>)
    decreases |steps|
  {
    steps == [] || (Enabled(s, steps[0]) && !Displaces(s, steps[0]) && NeverDisplaces(Next(s, steps[0]), steps[1..]))
  }

  /** Over every run, waiters are woken only by their frame or the teardown if and only if no step displaces one. */
  lemma {:induction false} NoSpuriousFailureIff(s: State, steps: seq<Step>, t: State)
    requires Inv(s) && WokenMeansClosed(s) && IsRun(s, steps, t)
    ensures NeverSpurious(s, steps) <==> NeverDisplaces(s, steps)
    decreases |steps|
  {
    if steps != [] {
      StepKeepsInv(s, steps[0]);
      StepKeepsWokenIff(s, steps[0]);
      if !Displaces(s, steps[0]) {
        NoSpuriousFailureIff(Next(s, steps[0]), steps[1..], t);
      }
    }
  }

  /** Spacing is one way to get there. */
  lemma {:induction false} SpacedNeverDisplaces(s: State, steps: seq<Step>, t: State)
    requires Inv(s) && WokenMeansClosed(s) && IsSpacedRun(s, steps, t)
    ensures NeverDisplaces(s, steps)
    decreases |steps|
  {
    if steps != [] {
      StepKeepsInv(s, steps[0]);
      StepKeepsWokenMeansClosed(s, steps[0]);
      StepKeepsWokenIff(s, steps[0]);
      SpacedNeverDisplaces(Next(s, steps[0]), steps[1..], t);
    }
  }

  // ---- exactly when a close drops somebody ----

  /** Tearing down leaves every exchange as it was if and only if no waiter is registered by then. */
  lemma TeardownDropsNobodyIff(s: State)
    requires Inv(s) && s.reader.Closing?
    ensures Next(s, Teardown).exchanges == s.exchanges <==> s.pending == map[]
  {
    if s.pending == map[] {
      forall k: nat | k < |s.exchanges| ensures Next(s, Teardown).exchanges[k] == s.exchanges[k] {
        TeardownWakesWaiters(s, k);
      }
    } else {
      var id :| id in s.pending;
      var k := s.pending[id];
      assert Registered(s, k);
      TeardownWakesWaiters(s, k);
    }
  }

  /** After an idle close, whatever steps come before the teardown, it drops nobody if and only if nobody waits by then. */
  lemma IdleCloseDropsNobodyIff(udp: bool, steps: seq<Step>, s: State)
    requires IsRun(Fresh(udp), steps, s) && s.reader == Closing(true)
    ensures Next(s, Teardown).exchanges == s.exchanges <==> forall k :: 0 <= k < |s.exchanges| ==> !s.exchanges[k].phase.Waiting?
    ensures udp ==> Next(s, Teardown).exchanges == s.exchanges
  {
    EveryRunKeepsInv(Fresh(udp), steps, s);
    TeardownDropsNobodyIff(s);
    if s.pending != map[] {
      var id :| id in s.pending;
      assert Registered(s, s.pending[id]);
    } else {
      forall k: nat | k < |s.exchanges| ensures !s.exchanges[k].phase.Waiting? {
        assert s.exchanges[k].phase.Waiting? <==> Registered(s, k);
      }
    }
  }

  // ---- what the bounds are needed for ----

  lemma {:induction false} RunAppend(s: State, steps: seq<Step>, t: State, step: Step)
    requires IsRun(s, steps, t) && Enabled(t, step)
    ensures IsRun(s, steps + [step], Next(t, step))
    decreases |steps|
  {
    if steps == [] {
      assert (steps + [step])[1..] == [];
    } else {
      assert (steps + [step])[1..] == steps[1..] + [step];
      RunAppend(Next(s, steps[0]), steps[1..], t, step);
    }
  }

  lemma {:induction false} BeginMany(n: nat) returns (steps: seq<Step>, t: State)
    ensures IsRun(Fresh(true), steps, t) && |t.exchanges| == n && !t.dead && t.pending == map[] && t.reader.Running?
    ensures forall k :: 0 <= k < n ==> t.exchanges[k].phase.Began?
  {
    if n == 0 {
      steps, t := [], Fresh(true);
    } else {
      steps, t := BeginMany(n - 1);
      RunAppend(Fresh(true), steps, t, Begin);
      steps, t := steps + [Begin], Next(t, Begin);
    }
  }

  /** When 65536 exchanges start during one, the id comes round and its waiter is lost on a live socket. */
  lemma WrapLosesWaiter()
    ensures exists steps, t :: IsRun(Fresh(true), steps, t) && !WokenMeansClosed(t)
  {
    var steps, t := BeginMany(IDS + 1);
    EveryRunKeepsInv(Fresh(true), steps, t);
    RunAppend(Fresh(true), steps, t, Register(0));
    var u := Next(t, Register(0));
    RunAppend(Fresh(true), steps + [Register(0)], u, Register(IDS));
    var v := Next(u, Register(IDS));
    assert v.exchanges[0].phase.Woken? && v.reader.Running?;
  }

  function IdleRun(late: bool): seq<Step> {
    if late then [Begin, IdleTimeout, Register(0)] else [Begin, Register(0), IdleTimeout]
  }

  /** A TLS connection that idles out drops the waiter it has, and just so one admitted between the idle window and the teardown. */
  lemma TlsIdleCloseDropsWaiter(late: bool)
    ensures exists s ::
              && IsRun(Fresh(false), IdleRun(late), s) && s.reader == Closing(true) && !s.dead && |s.exchanges| == 1
              && s.exchanges[0].phase.Waiting? && Next(s, Teardown).exchanges[0].phase.Woken?
  {
    var s0 := Fresh(false);
    assert IsRun(s0, [], s0);
    RunAppend(s0, [], s0, Begin);
    var s1 := Next(s0, Begin);
    var first, second := if late then IdleTimeout else Register(0), if late then Register(0) else IdleTimeout;
    RunAppend(s0, [] + [Begin], s1, first);
    var s2 := Next(s1, first);
    RunAppend(s0, [] + [Begin] + [first], s2, second);
    var s3 := Next(s2, second);
    assert [] + [Begin] + [first] + [second] == IdleRun(late);
    assert s3.exchanges[0].phase.Waiting? && Registered(s3, 0);
    assert Next(s3, Teardown).exchanges[0].phase.Woken?;
  }

  // ---- the connection object ----

  /** One connection: what callers and the reader task do to it under its lock. */
  class Connection {
    const udp: bool
    var nextId: nat
    var exchanges: seq<Exchange>
    var pending: map<nat, nat>
    var dead: bool
    var reader: Reader

    ghost function Abs(): State
      reads this
    {
      State(udp, nextId, exchanges, pending, dead, reader)
    }

    constructor (udp: bool)
      ensures Abs() == Fresh(udp)
    {
      this.udp := udp;
      nextId, exchanges, pending, dead, reader := 0, [], map[], false, Running;
    }

    method BeginExchange() returns (k: nat)
      modifies this
      ensures Abs() == Next(old(Abs()), Begin) && k == |old(exchanges)|
    {
      k := |exchanges|;
      exchanges := exchanges + [Exchange(nextId, Began)];
      nextId := (nextId + 1) % IDS;
    }

    /** Registers a waiter unless the connection already died. */
    method AddWaiter(k: nat) returns (ok: bool)
      requires Enabled(Abs(), Register(k))
      modifies this
      ensures Abs() == Next(old(Abs()), Register(k)) && ok == !old(dead)
    {
      ok := !dead;
      if ok {
        var id := exchanges[k].id;
        if id in pending && pending[id] < |exchanges| && exchanges[pending[id]].phase.Waiting? {
          exchanges := exchanges[pending[id] := exchanges[pending[id]].(phase := Woken)];
        }
        pending := pending[id := k];
        exchanges := exchanges[k := exchanges[k].(phase := Waiting)];
      } else {
        exchanges := exchanges[k := exchanges[k].(phase := Failed)];
      }
    }

    /** The reader hands a frame to the waiter under its id, and drops a frame nobody awaits. */
    method HandleFrame(frame: Frame)
      requires reader.Running?
      modifies this
      ensures Abs() == Next(old(Abs()), Deliver(frame))
    {
      if frame.id in pending {
        var k := pending[frame.id];
        pending := pending - {frame.id};
        if k < |exchanges| && exchanges[k].phase.Waiting? {
          exchanges := exchanges[k := exchanges[k].(phase := Received(frame))];
        }
      }
    }

    /** Exchange `k` ends and its guard goes out of scope. */
    method DropGuard(k: nat, accepted: bool)
      requires Enabled(Abs(), Leave(k, accepted))
      modifies this
      ensures Abs() == Next(old(Abs()), Leave(k, accepted))
    {
      var e := exchanges[k];
      if e.id in pending && pending[e.id] < |exchanges| && exchanges[pending[e.id]].phase.Waiting? {
        exchanges := exchanges[pending[e.id] := exchanges[pending[e.id]].(phase := Woken)];
      }
      pending := pending - {e.id};
      exchanges := exchanges[k := exchanges[k].(phase := if e.phase.Received? && accepted then Answered(e.phase.frame) else Failed)];
    }

    /** No datagram for the idle window: a UDP socket closes only without waiters, a TLS one always. */
    method HandleIdle()
      requires reader.Running?
      modifies this
      ensures Abs() == Next(old(Abs()), IdleTimeout)
    {
      if udp {
        if pending == map[] {
          dead := true;
          reader := Closing(true);
        }
      } else {
        reader := Closing(true);
      }
    }

    /** Marks the connection dead and drops every sender, one by one. */
    method CloseDown()
      requires reader.Closing?
      modifies this
      ensures Abs() == Next(old(Abs()), Teardown)
    {
      dead := true;
      ghost var was, woken := exchanges, DropAll(exchanges, pending);
      for k := 0 to |exchanges|
        invariant |exchanges| == |was| && pending == old(pending) && dead
        invariant nextId == old(nextId) && reader == old(reader)
        invariant forall j :: 0 <= j < k ==> exchanges[j] == woken[j]
        invariant forall j :: k <= j < |was| ==> exchanges[j] == was[j]
      {
        if exchanges[k].id in pending && pending[exchanges[k].id] == k {
          exchanges := exchanges[k := WakeOne(exchanges[k])];
        }
      }
      assert exchanges == woken;
      pending := map[];
      reader := Closed;
    }
  }
}
