/** The call/response protocol of one charge point connection, as interleaved atomic steps. */
module CallProtocol {
  import opened Options
  import opened Payloads
  import opened Sequences
  import Decimal

  /** Where one `Call` is. A result of `None` is an error return. */
  datatype Phase =
    | Allocated                          // has a message id
    | Registered                         // its channel is in the pending map
    | Waiting                            // the request is written
    | Leaving(result: Option<Payload>)   // about to delete its pending entry
    | Finished(result: Option<Payload>)

  /** One `Call` with its one-slot response channel. */
  datatype Call = Call(action: string, payload: Payload, phase: Phase, slot: Option<Payload>)

  /** Where one inbound response is: not looked up yet, holding the channel of a call, or returned,
      either after delivering to that call or because its id was unknown. */
  datatype Stage = Looking | Sending(call: nat) | Delivered(call: nat) | Ignored

  datatype Handler = Handler(msgID: string, payload: Payload, stage: Stage)

  datatype State = State(calls: seq<Call>, pending: map<string, nat>, handlers: seq<Handler>)

  const INITIAL := State([], map[], [])

  datatype Step =
    | Start(action: string, payload: Payload)  // take the next message id
    | Register(call: nat)
    | WriteOk(call: nat)
    | WriteFail(call: nat)
    | Receive(call: nat)
    | Timeout(call: nat)
    | Delete(call: nat)
    | Inbound(msgID: string, response: Payload)
    | Lookup(handler: nat)
    | Deliver(handler: nat)

  /** The counter is bumped before use, so ids start at "1". */
  function MsgID(call: nat): string {
    Decimal.RenderInt(call + 1)
  }

  predicate InFlight(c: Call) {
    c.phase.Registered? || c.phase.Waiting? || c.phase.Leaving?
  }

  predicate Enabled(s: State, step: Step) {
    match step
    case Start(_, _) => true
    case Register(n) => n < |s.calls| && s.calls[n].phase.Allocated?
    case WriteOk(n) => n < |s.calls| && s.calls[n].phase.Registered?
    case WriteFail(n) => n < |s.calls| && s.calls[n].phase.Registered?
    case Receive(n) => n < |s.calls| && s.calls[n].phase.Waiting? && s.calls[n].slot.Some?
    case Timeout(n) => n < |s.calls| && s.calls[n].phase.Waiting?
    case Delete(n) => n < |s.calls| && s.calls[n].phase.Leaving?
    case Inbound(_, _) => true
    case Lookup(h) => h < |s.handlers| && s.handlers[h].stage.Looking?
    case Deliver(h) =>
      // a send on a full channel blocks
      && h < |s.handlers| && s.handlers[h].stage.Sending?
      && s.handlers[h].stage.call < |s.calls| && s.calls[s.handlers[h].stage.call].slot.None?
  }

  function SetCall(s: State, n: nat, c: Call): State
    requires n < |s.calls|
  {
    s.(calls := s.calls[n := c])
  }

  function SetStage(s: State, h: nat, stage: Stage): State
    requires h < |s.handlers|
  {
    s.(handlers := s.handlers[h := s.handlers[h].(stage := stage)])
  }

  function Apply(s: State, step: Step): State
    requires Enabled(s, step)
  {
    match step
    case Start(action, payload) => s.(calls := s.calls + [Call(action, payload, Allocated, None)])
    case Register(n) => SetCall(s, n, s.calls[n].(phase := Registered)).(pending := s.pending[MsgID(n) := n])
    case WriteOk(n) => SetCall(s, n, s.calls[n].(phase := Waiting))
    case WriteFail(n) => SetCall(s, n, s.calls[n].(phase := Leaving(None)))
    case Receive(n) => SetCall(s, n, s.calls[n].(phase := Leaving(s.calls[n].slot), slot := None))
    case Timeout(n) => SetCall(s, n, s.calls[n].(phase := Leaving(None)))
    case Delete(n) =>
      SetCall(s, n, s.calls[n].(phase := Finished(s.calls[n].phase.result))).(pending := s.pending - {MsgID(n)})
    case Inbound(id, response) => s.(handlers := s.handlers + [Handler(id, response, Looking)])
    case Lookup(h) =>
      var id := s.handlers[h].msgID;
      SetStage(s, h, if id in s.pending then Sending(s.pending[id]) else Ignored)
    case Deliver(h) =>
      var n := s.handlers[h].stage.call;
      SetStage(SetCall(s, n, s.calls[n].(slot := Some(s.handlers[h].payload))), h, Delivered(n))
  }

  /** The state after a run, or `None` for a sequence of steps that is no run. */
  function After(steps: seq<Step>): Option<State> {
    if steps == [] then Some(INITIAL)
    else
      var before := After(steps[..|steps| - 1]);
      var step := steps[|steps| - 1];
      if before.Some? && Enabled(before.value, step) then Some(Apply(before.value, step)) else None
  }

  // ----- The invariant -----

  /** The pending map holds exactly the calls in flight, each under its own id. */
  ghost predicate PendingExact(s: State) {
    && (forall id :: id in s.pending ==>
          s.pending[id] < |s.calls| && id == MsgID(s.pending[id]) && InFlight(s.calls[s.pending[id]]))
    && (forall n: nat :: n < |s.calls| && InFlight(s.calls[n]) ==> MsgID(n) in s.pending && s.pending[MsgID(n)] == n)
  }

  /** A handler that found a channel found the channel of the registered call with its own id. */
  ghost predicate HandlersMatched(s: State) {
    forall h :: 0 <= h < |s.handlers| ==> HandlerMatched(s, s.handlers[h])
  }

  ghost predicate HandlerMatched(s: State, h: Handler) {
    h.stage.Sending? || h.stage.Delivered? ==>
      && h.stage.call < |s.calls|
      && h.msgID == MsgID(h.stage.call)
      && !s.calls[h.stage.call].phase.Allocated?
  }

  /** `p` was delivered to call `n` by a handler of its id. */
  ghost predicate DeliveredTo(s: State, n: nat, p: Payload) {
    exists h :: 0 <= h < |s.handlers| && s.handlers[h] == Handler(MsgID(n), p, Delivered(n))
  }

  function ResultOf(c: Call): Option<Payload> {
    if c.phase.Leaving? || c.phase.Finished? then c.phase.result else None
  }

  /** Whatever sits in a call's channel or was returned by it came under its own id. */
  ghost predicate ResponsesMatched(s: State) {
    forall n: nat :: n < |s.calls| ==>
      && (s.calls[n].slot.Some? ==> DeliveredTo(s, n, s.calls[n].slot.value))
      && (ResultOf(s.calls[n]).Some? ==> DeliveredTo(s, n, ResultOf(s.calls[n]).value))
  }

  ghost predicate Inv(s: State) {
    PendingExact(s) && HandlersMatched(s) && ResponsesMatched(s)
  }

  lemma MsgIDInjective(a: nat, b: nat)
    requires MsgID(a) == MsgID(b)
    ensures a == b
  {
    Decimal.RenderInjective(a + 1, b + 1);
  }

  lemma {:induction false} StepKeepsPending(s: State, step: Step)
    requires PendingExact(s) && Enabled(s, step)
    ensures PendingExact(Apply(s, step))
  {
    var s' := Apply(s, step);
    forall n: nat | n < |s'.calls| && InFlight(s'.calls[n])
      ensures MsgID(n) in s'.pending && s'.pending[MsgID(n)] == n
    {
      if step.Register? && MsgID(n) == MsgID(step.call) {
        MsgIDInjective(n, step.call);
      } else if step.Delete? && MsgID(n) == MsgID(step.call) {
        MsgIDInjective(n, step.call);
      }
    }
    forall id | id in s'.pending
      ensures s'.pending[id] < |s'.calls| && id == MsgID(s'.pending[id]) && InFlight(s'.calls[s'.pending[id]])
    {
    }
  }

  lemma {:induction false} StepKeepsHandlers(s: State, step: Step)
    requires PendingExact(s) && HandlersMatched(s) && Enabled(s, step)
    ensures HandlersMatched(Apply(s, step))
  {
    var s' := Apply(s, step);
    forall h | 0 <= h < |s'.handlers|
      ensures HandlerMatched(s', s'.handlers[h])
    {
      if h < |s.handlers| {
        assert HandlerMatched(s, s.handlers[h]);
      }
    }
  }

  lemma {:induction false} StepKeepsDelivered(s: State, step: Step, n: nat, p: Payload)
    requires Enabled(s, step) && DeliveredTo(s, n, p)
    ensures DeliveredTo(Apply(s, step), n, p)
  {
    var h :| 0 <= h < |s.handlers| && s.handlers[h] == Handler(MsgID(n), p, Delivered(n));
    assert Apply(s, step).handlers[h] == s.handlers[h];
  }

  lemma {:induction false} StepKeepsResponses(s: State, step: Step)
    requires Inv(s) && Enabled(s, step)
    ensures ResponsesMatched(Apply(s, step))
  {
    var s' := Apply(s, step);
    forall n: nat | n < |s'.calls|
      ensures s'.calls[n].slot.Some? ==> DeliveredTo(s', n, s'.calls[n].slot.value)
      ensures ResultOf(s'.calls[n]).Some? ==> DeliveredTo(s', n, ResultOf(s'.calls[n]).value)
    {
      if n < |s.calls| {
        if s.calls[n].slot.Some? {
          StepKeepsDelivered(s, step, n, s.calls[n].slot.value);
        }
        if ResultOf(s.calls[n]).Some? {
          StepKeepsDelivered(s, step, n, ResultOf(s.calls[n]).value);
        }
        if step.Deliver? && s.handlers[step.handler].stage.call == n {
          assert HandlerMatched(s, s.handlers[step.handler]);
          assert s'.handlers[step.handler] == Handler(MsgID(n), s.handlers[step.handler].payload, Delivered(n));
        }
      }
    }
  }

  lemma {:induction false} StepKeepsInv(s: State, step: Step)
    requires Inv(s) && Enabled(s, step)
    ensures Inv(Apply(s, step))
  {
    StepKeepsPending(s, step);
    StepKeepsHandlers(s, step);
    StepKeepsResponses(s, step);
  }

  /** The invariant holds after every run. */
  lemma {:induction false} RunKeepsInv(steps: seq<Step>)
    requires After(steps).Some?
    ensures Inv(After(steps).value)
  {
    if steps != [] {
      var front, step := steps[..|steps| - 1], steps[|steps| - 1];
      RunKeepsInv(front);
      StepKeepsInv(After(front).value, step);
    }
  }

  // ----- What every run guarantees -----

  lemma {:induction false} AfterSnoc(steps: seq<Step>, step: Step)
    requires After(steps).Some?
    ensures After(steps + [step])
         == if Enabled(After(steps).value, step) then Some(Apply(After(steps).value, step)) else None
  {
    assert (steps + [step])[..|steps|] == steps;
  }

  lemma {:induction false} AfterPrefix(steps: seq<Step>, step: Step)
    requires After(steps + [step]).Some?
    ensures After(steps).Some? && Enabled(After(steps).value, step)
    ensures After(steps + [step]).value == Apply(After(steps).value, step)
  {
    assert (steps + [step])[..|steps|] == steps;
  }

  /** A step leaves a call's command alone, and a finished call as it is. */
  lemma {:induction false} StepOnCall(s: State, step: Step, n: nat)
    requires Enabled(s, step) && n < |s.calls|
    ensures n < |Apply(s, step).calls|
    ensures Apply(s, step).calls[n].action == s.calls[n].action
    ensures Apply(s, step).calls[n].payload == s.calls[n].payload
    ensures s.calls[n].phase.Finished? ==> Apply(s, step).calls[n].phase == s.calls[n].phase
  {
  }

  /** A step keeps what every handler works on, and only an inbound response adds one. */
  lemma {:induction false} StepOnHandler(s: State, step: Step, h: nat)
    requires Enabled(s, step) && h < |Apply(s, step).handlers|
    ensures
      var x := Apply(s, step).handlers[h];
      if h < |s.handlers| then x.msgID == s.handlers[h].msgID && x.payload == s.handlers[h].payload
      else step == Inbound(x.msgID, x.payload)
  {
  }

  /** Every handler works on a response that came in. */
  lemma {:induction false} HandlersCameIn(steps: seq<Step>, h: nat)
    requires After(steps).Some? && h < |After(steps).value.handlers|
    ensures Inbound(After(steps).value.handlers[h].msgID, After(steps).value.handlers[h].payload) in steps
    decreases |steps|
  {
    hide Apply, Enabled;
    if steps != [] {
      var front, step := steps[..|steps| - 1], steps[|steps| - 1];
      StepOnHandler(After(front).value, step, h);
      if h < |After(front).value.handlers| {
        HandlersCameIn(front, h);
        Earlier(steps, Inbound(After(steps).value.handlers[h].msgID, After(steps).value.handlers[h].payload));
      } else {
        assert steps[|steps| - 1] == step;
      }
    }
  }

  lemma Earlier(steps: seq<Step>, step: Step)
    requires steps != [] && step in steps[..|steps| - 1]
    ensures step in steps
  {
  }

  /** In every interleaving, a `Call` returns only a payload that came in under its own id. */
  lemma ReturnsOwnResponse(steps: seq<Step>, n: nat)
    requires After(steps).Some? && n < |After(steps).value.calls|
    requires ResultOf(After(steps).value.calls[n]).Some?
    ensures Inbound(MsgID(n), ResultOf(After(steps).value.calls[n]).value) in steps
  {
    RunKeepsInv(steps);
    var s := After(steps).value;
    assert DeliveredTo(s, n, ResultOf(s.calls[n]).value);
    var h :| 0 <= h < |s.handlers| && s.handlers[h] == Handler(MsgID(n), ResultOf(s.calls[n]).value, Delivered(n));
    HandlersCameIn(steps, h);
  }

  /** The pending keys are exactly the ids of the calls in flight, one entry per call. */
  lemma PendingAreInFlight(steps: seq<Step>)
    requires After(steps).Some?
    ensures
      var s := After(steps).value;
      && (forall n: nat :: n < |s.calls| ==> (MsgID(n) in s.pending <==> InFlight(s.calls[n])))
      && (forall id :: id in s.pending ==> s.pending[id] < |s.calls| && MsgID(s.pending[id]) == id)
  {
    RunKeepsInv(steps);
    var s := After(steps).value;
    forall n: nat | n < |s.calls| && MsgID(n) in s.pending
      ensures InFlight(s.calls[n])
    {
      MsgIDInjective(n, s.pending[MsgID(n)]);
    }
  }

  /** The first response for an id never blocks: as long as none was delivered to its call, a handler
      that found the call can send. */
  lemma FirstResponseNeverBlocks(steps: seq<Step>, h: nat)
    requires After(steps).Some?
    requires
      var s := After(steps).value;
      h < |s.handlers| && s.handlers[h].stage.Sending?
    requires
      var s := After(steps).value;
      forall g :: 0 <= g < |s.handlers| ==> s.handlers[g].stage != Delivered(s.handlers[h].stage.call)
    ensures Enabled(After(steps).value, Deliver(h))
  {
    RunKeepsInv(steps);
    var s := After(steps).value;
    assert HandlerMatched(s, s.handlers[h]);
  }

  /** A handler that found a call is left behind: the call no longer reads its channel, and the
      channel is full. */
  predicate Stuck(s: State, h: nat) {
    && h < |s.handlers| && s.handlers[h].stage.Sending?
    && s.handlers[h].stage.call < |s.calls|
    && var c := s.calls[s.handlers[h].stage.call];
       (c.phase.Leaving? || c.phase.Finished?) && c.slot.Some?
  }

  lemma {:induction false} StuckStep(s: State, h: nat, step: Step)
    requires Stuck(s, h) && Enabled(s, step)
    ensures Stuck(Apply(s, step), h)
  {
  }

  /** A duplicate response can block its handler for good: whatever happens next, it stays stuck. */
  lemma {:induction false} StuckForever(steps: seq<Step>, more: seq<Step>, h: nat)
    requires After(steps).Some? && Stuck(After(steps).value, h)
    requires After(steps + more).Some?
    ensures Stuck(After(steps + more).value, h)
    decreases |more|
  {
    if more == [] {
      assert steps + more == steps;
    } else {
      var front, step := more[..|more| - 1], more[|more| - 1];
      assert (steps + more)[..|steps + more| - 1] == steps + front;
      StuckForever(steps, front, h);
      StuckStep(After(steps + front).value, h, step);
    }
  }

  lemma {:induction false} Extend(steps: seq<Step>, step: Step) returns (steps': seq<Step>)
    requires After(steps).Some? && Enabled(After(steps).value, step)
    ensures steps' == steps + [step]
    ensures After(steps').Some? && After(steps').value == Apply(After(steps).value, step)
  {
    AfterSnoc(steps, step);
    steps' := steps + [step];
  }

  lemma {:induction false} Continue(steps: seq<Step>, more: seq<Step>, step: Step) returns (more': seq<Step>)
    requires After(steps + more).Some? && Enabled(After(steps + more).value, step)
    ensures more' == more + [step]
    ensures After(steps + more').Some? && After(steps + more').value == Apply(After(steps + more).value, step)
  {
    AfterSnoc(steps + more, step);
    Associative(steps, more, [step]);
    more' := more + [step];
  }

  lemma {:induction false} ContinueNone(steps: seq<Step>)
    ensures steps + [] == steps
  {
  }

  /** The continuation gets the response of the handler to its call. */
  ghost predicate DeliversBy(steps: seq<Step>, more: seq<Step>, h: nat) {
    && After(steps + more).Some?
    && h < |After(steps + more).value.handlers|
    && After(steps + more).value.handlers[h].stage.Delivered?
  }

  /** A handler that is not stuck can deliver: its call writes and reads first where it has to. */
  lemma {:induction false} CanDeliver(steps: seq<Step>, h: nat) returns (more: seq<Step>)
    requires After(steps).Some?
    requires
      var s := After(steps).value;
      h < |s.handlers| && s.handlers[h].stage.Sending? && !Stuck(s, h)
    ensures DeliversBy(steps, more, h)
  {
    hide After, Inv;
    var s := After(steps).value;
    var n := s.handlers[h].stage.call;
    SendingHasCall(steps, h);
    more := [];
    ContinueNone(steps);
    if s.calls[n].slot.Some? {
      if s.calls[n].phase.Registered? {
        more := Continue(steps, more, WriteOk(n));
      }
      more := Continue(steps, more, Receive(n));
    }
    more := Continue(steps, more, Deliver(h));
  }

  lemma {:induction false} SendingHasCall(steps: seq<Step>, h: nat)
    requires After(steps).Some?
    requires
      var s := After(steps).value;
      h < |s.handlers| && s.handlers[h].stage.Sending?
    ensures
      var s := After(steps).value;
      s.handlers[h].stage.call < |s.calls| && !s.calls[s.handlers[h].stage.call].phase.Allocated?
  {
    RunKeepsInv(steps);
    assert HandlerMatched(After(steps).value, After(steps).value.handlers[h]);
  }

  /** The exact condition: a handler that found a call can still deliver in some continuation if and
      only if it is not stuck. */
  lemma {:induction false} DeliversExactly(steps: seq<Step>, h: nat)
    requires After(steps).Some?
    requires
      var s := After(steps).value;
      h < |s.handlers| && s.handlers[h].stage.Sending?
    ensures (exists more :: DeliversBy(steps, more, h)) <==> !Stuck(After(steps).value, h)
  {
    if Stuck(After(steps).value, h) {
      forall more ensures !DeliversBy(steps, more, h) {
        if After(steps + more).Some? {
          StuckForever(steps, more, h);
        }
      }
    } else {
      var more := CanDeliver(steps, h);
    }
  }

  /** A handler still sending is blocked exactly when its channel is full; then it is stuck, or the call
      can still read or is about to wait. */
  lemma BlockedWhen(steps: seq<Step>, h: nat)
    requires After(steps).Some?
    requires
      var s := After(steps).value;
      h < |s.handlers| && s.handlers[h].stage.Sending?
    ensures
      var s := After(steps).value;
      && s.handlers[h].stage.call < |s.calls|
      && (!Enabled(s, Deliver(h)) <==> s.calls[s.handlers[h].stage.call].slot.Some?)
      && (!Enabled(s, Deliver(h)) ==>
            || Stuck(s, h)
            || Enabled(s, Receive(s.handlers[h].stage.call))
            || Enabled(s, WriteOk(s.handlers[h].stage.call)))
  {
    SendingHasCall(steps, h);
  }

  // ----- Which responses a call can still return -----

  /** While the connection is up anything can be written and read; once it is down, only what was read
      before is still worked on. */
  predicate Allowed(step: Step, live: bool) {
    step.WriteOk? || step.Inbound? ==> live
  }

  /** The handler holds this response for the call, or will find that it does. */
  predicate Holding(s: State, h: nat, n: nat, p: Payload) {
    && h < |s.handlers| && s.handlers[h].payload == p
    && (s.handlers[h].stage == Sending(n) || (s.handlers[h].stage.Looking? && s.handlers[h].msgID == MsgID(n)))
  }

  /** The call can still return this response, or has. */
  ghost predicate MayReturn(s: State, n: nat, live: bool, p: Payload)
    requires n < |s.calls|
  {
    match s.calls[n].phase
    case Allocated => live
    case Registered => live && (s.calls[n].slot == None || s.calls[n].slot == Some(p))
    case Waiting =>
      if s.calls[n].slot.Some? then s.calls[n].slot == Some(p) else live || exists h :: Holding(s, h, n, p)
    case Leaving(result) => result == Some(p)
    case Finished(result) => result == Some(p)
  }

  lemma {:induction false} MayReturnWhileUp(s: State, n: nat, p: Payload)
    requires n < |s.calls| && MayReturn(s, n, false, p)
    ensures MayReturn(s, n, true, p)
  {
  }

  /** No step makes possible what was not possible before. */
  lemma {:induction false} MayReturnBefore(s: State, step: Step, n: nat, live: bool, p: Payload)
    requires Enabled(s, step) && Allowed(step, live) && PendingExact(s) && n < |s.calls|
    requires MayReturn(Apply(s, step), n, live, p)
    ensures MayReturn(s, n, live, p)
  {
    var s' := Apply(s, step);
    if s'.calls[n].phase.Waiting? && s'.calls[n].slot == None && !live {
      var h :| Holding(s', h, n, p);
      assert Holding(s, h, n, p);
    } else if step.Deliver? && s.handlers[step.handler].stage.call == n {
      assert s.handlers[step.handler].payload == p ==> Holding(s, step.handler, n, p);
    }
  }

  /** The continuation ends with the call returning this response. */
  ghost predicate ReturnsBy(steps: seq<Step>, more: seq<Step>, n: nat, p: Payload) {
    && After(steps + more).Some?
    && n < |After(steps + more).value.calls|
    && ResultOf(After(steps + more).value.calls[n]) == Some(p)
  }

  ghost predicate AllAllowed(more: seq<Step>, live: bool) {
    forall step :: step in more ==> Allowed(step, live) && !step.Start?
  }

  lemma {:induction false} OnlyPossible(steps: seq<Step>, more: seq<Step>, n: nat, live: bool, p: Payload)
    requires After(steps).Some? && n < |After(steps).value.calls|
    requires forall step :: step in more ==> Allowed(step, live)
    requires After(steps + more).Some? && n < |After(steps + more).value.calls|
    requires MayReturn(After(steps + more).value, n, live, p)
    ensures MayReturn(After(steps).value, n, live, p)
    decreases |more|
  {
    hide Apply, Enabled, MayReturn, Allowed;
    if more == [] {
      assert steps + more == steps;
    } else {
      var front, step := more[..|more| - 1], more[|more| - 1];
      assert more == front + [step];
      Associative(steps, front, [step]);
      AfterPrefix(steps + front, step);
      RunKeepsInv(steps + front);
      CallsStay(steps, front);
      MayReturnBefore(After(steps + front).value, step, n, live, p);
      OnlyPossible(steps, front, n, live, p);
    }
  }

  lemma StartEnabled(s: State, action: string, payload: Payload)
    ensures Enabled(s, Start(action, payload)) && Allowed(Start(action, payload), false)
  {
  }

  lemma StepGrows(s: State, step: Step)
    requires Enabled(s, step)
    ensures |s.calls| <= |Apply(s, step).calls|
  {
  }

  lemma {:induction false} CallsStay(steps: seq<Step>, more: seq<Step>)
    requires After(steps).Some? && After(steps + more).Some?
    ensures |After(steps).value.calls| <= |After(steps + more).value.calls|
    decreases |more|
  {
    hide Apply, Enabled;
    if more == [] {
      assert steps + more == steps;
    } else {
      var front, step := more[..|more| - 1], more[|more| - 1];
      assert more == front + [step];
      Associative(steps, front, [step]);
      AfterPrefix(steps + front, step);
      StepGrows(After(steps + front).value, step);
      CallsStay(steps, front);
    }
  }

  /** A call that has read its response returns it. */
  lemma {:induction false} CanLeave(steps: seq<Step>, more: seq<Step>, n: nat, live: bool, p: Payload) returns (more': seq<Step>)
    requires After(steps + more).Some? && n < |After(steps + more).value.calls| && AllAllowed(more, live)
    requires
      var c := After(steps + more).value.calls[n];
      (c.phase.Waiting? && c.slot == Some(p)) || c.phase == Leaving(Some(p))
    ensures AllAllowed(more', live) && ReturnsBy(steps, more', n, p)
    ensures After(steps + more').value.calls[n].phase.Finished?
    ensures n < |After(steps + more').value.calls|
  {
    hide After, Inv, MsgID;
    more' := more;
    if After(steps + more').value.calls[n].phase.Waiting? {
      more' := Continue(steps, more', Receive(n));
    }
    more' := Continue(steps, more', Delete(n));
  }

  lemma {:induction false} CanTake(steps: seq<Step>, more: seq<Step>, n: nat, live: bool, p: Payload, h: nat) returns (more': seq<Step>)
    requires After(steps + more).Some? && n < |After(steps + more).value.calls| && AllAllowed(more, live)
    requires
      var s := After(steps + more).value;
      && s.calls[n].phase.Waiting? && s.calls[n].slot == None && Holding(s, h, n, p)
      && MsgID(n) in s.pending && s.pending[MsgID(n)] == n
    ensures AllAllowed(more', live) && ReturnsBy(steps, more', n, p)
    ensures n < |After(steps + more').value.calls| && After(steps + more').value.calls[n].phase.Finished?
  {
    hide After, Inv, MsgID, ReturnsBy;
    more' := more;
    if After(steps + more').value.handlers[h].stage.Looking? {
      more' := Continue(steps, more', Lookup(h));
    }
    more' := Continue(steps, more', Deliver(h));
    more' := CanLeave(steps, more', n, live, p);
  }

  lemma {:induction false} WaitingPending(steps: seq<Step>, n: nat)
    requires After(steps).Some? && n < |After(steps).value.calls| && After(steps).value.calls[n].phase.Waiting?
    ensures MsgID(n) in After(steps).value.pending && After(steps).value.pending[MsgID(n)] == n
  {
    RunKeepsInv(steps);
  }

  lemma {:induction false} AllocatedEmpty(steps: seq<Step>, n: nat)
    requires After(steps).Some? && n < |After(steps).value.calls| && After(steps).value.calls[n].phase.Allocated?
    ensures After(steps).value.calls[n].slot == None
  {
    RunKeepsInv(steps);
  }

  /** Whatever a call may return, it returns in some continuation. */
  lemma {:induction false} CanReturnStill(steps: seq<Step>, n: nat, live: bool, p: Payload) returns (more: seq<Step>)
    requires After(steps).Some? && n < |After(steps).value.calls| && MayReturn(After(steps).value, n, live, p)
    ensures AllAllowed(more, live) && ReturnsBy(steps, more, n, p)
    ensures n < |After(steps + more).value.calls| && After(steps + more).value.calls[n].phase.Finished?
  {
    hide After, Inv, MsgID, Holding;
    ContinueNone(steps);
    more := [];
    match After(steps).value.calls[n].phase {
      case Allocated =>
        AllocatedEmpty(steps, n);
        more := Continue(steps, more, Register(n));
        more := Continue(steps, more, WriteOk(n));
        more := CanWait(steps, more, n, live, p);
      case Registered =>
        more := Continue(steps, more, WriteOk(n));
        more := CanWait(steps, more, n, live, p);
      case Waiting =>
        more := CanWait(steps, more, n, live, p);
      case Leaving(_) =>
        more := CanLeave(steps, more, n, live, p);
      case Finished(_) =>
    }
  }

  lemma {:induction false} CanWait(steps: seq<Step>, more: seq<Step>, n: nat, live: bool, p: Payload) returns (more': seq<Step>)
    requires After(steps + more).Some? && n < |After(steps + more).value.calls| && AllAllowed(more, live)
    requires After(steps + more).value.calls[n].phase.Waiting? && MayReturn(After(steps + more).value, n, live, p)
    ensures AllAllowed(more', live) && ReturnsBy(steps, more', n, p)
    ensures n < |After(steps + more').value.calls| && After(steps + more').value.calls[n].phase.Finished?
  {
    hide After, Inv, MsgID, ReturnsBy;
    var s := After(steps + more).value;
    WaitingPending(steps + more, n);
    more' := more;
    if s.calls[n].slot.Some? {
      more' := CanLeave(steps, more', n, live, p);
    } else if live {
      more' := Continue(steps, more', Inbound(MsgID(n), p));
      more' := CanTake(steps, more', n, live, p, |s.handlers|);
    } else {
      var h :| Holding(s, h, n, p);
      more' := CanTake(steps, more', n, live, p, h);
    }
  }

  /** The exact condition: with its connection up or down, a call returns a response in some continuation
      if and only if `MayReturn` holds now. */
  lemma {:induction false} ReturnsExactly(steps: seq<Step>, n: nat, live: bool, p: Payload)
    requires After(steps).Some? && n < |After(steps).value.calls|
    ensures (exists more :: AllAllowed(more, live) && ReturnsBy(steps, more, n, p)) <==> MayReturn(After(steps).value, n, live, p)
  {
    if MayReturn(After(steps).value, n, live, p) {
      var more := CanReturnStill(steps, n, live, p);
    } else {
      forall more | AllAllowed(more, live)
        ensures !ReturnsBy(steps, more, n, p)
      {
        if ReturnsBy(steps, more, n, p) {
          OnlyPossible(steps, more, n, live, p);
        }
      }
    }
  }

  /** The continuation ends with the call returning an error. */
  ghost predicate FailsBy(steps: seq<Step>, more: seq<Step>, n: nat) {
    && After(steps + more).Some?
    && n < |After(steps + more).value.calls|
    && After(steps + more).value.calls[n].phase == Finished(None)
  }

  lemma {:induction false} ResultStays(s: State, step: Step, n: nat)
    requires Enabled(s, step) && n < |s.calls|
    ensures n < |Apply(s, step).calls|
    ensures ResultOf(s.calls[n]).Some? ==> ResultOf(Apply(s, step).calls[n]) == ResultOf(s.calls[n])
  {
  }

  lemma {:induction false} ResultKept(steps: seq<Step>, more: seq<Step>, n: nat)
    requires After(steps).Some? && n < |After(steps).value.calls| && ResultOf(After(steps).value.calls[n]).Some?
    requires After(steps + more).Some?
    ensures n < |After(steps + more).value.calls|
    ensures ResultOf(After(steps + more).value.calls[n]) == ResultOf(After(steps).value.calls[n])
    decreases |more|
  {
    hide Apply, Enabled, ResultOf;
    if more == [] {
      assert steps + more == steps;
    } else {
      var front, step := more[..|more| - 1], more[|more| - 1];
      assert more == front + [step];
      Associative(steps, front, [step]);
      AfterPrefix(steps + front, step);
      ResultKept(steps, front, n);
      ResultStays(After(steps + front).value, step, n);
    }
  }

  /** A call without a response yet can give up, whatever its slot holds. */
  lemma {:induction false} CanGiveUp(steps: seq<Step>, n: nat, live: bool) returns (more: seq<Step>)
    requires After(steps).Some? && n < |After(steps).value.calls| && ResultOf(After(steps).value.calls[n]) == None
    ensures AllAllowed(more, live) && FailsBy(steps, more, n)
  {
    hide After, Inv, MsgID;
    ContinueNone(steps);
    more := [];
    if After(steps).value.calls[n].phase.Allocated? {
      more := Continue(steps, more, Register(n));
    }
    if After(steps + more).value.calls[n].phase.Registered? {
      more := Continue(steps, more, WriteFail(n));
    } else if After(steps + more).value.calls[n].phase.Waiting? {
      more := Continue(steps, more, Timeout(n));
    }
    if After(steps + more).value.calls[n].phase.Leaving? {
      more := Continue(steps, more, Delete(n));
    }
  }

  /** With its connection up or down, a call returns an error in some continuation if and only if it has
      taken no response yet: one that waits in its slot does not keep a timeout from winning. */
  lemma {:induction false} FailsExactly(steps: seq<Step>, n: nat, live: bool)
    requires After(steps).Some? && n < |After(steps).value.calls|
    ensures (exists more :: AllAllowed(more, live) && FailsBy(steps, more, n)) <==> ResultOf(After(steps).value.calls[n]) == None
  {
    if ResultOf(After(steps).value.calls[n]) == None {
      var more := CanGiveUp(steps, n, live);
    } else {
      forall more | AllAllowed(more, live)
        ensures !FailsBy(steps, more, n)
      {
        if FailsBy(steps, more, n) {
          ResultKept(steps, more, n);
        }
      }
    }
  }

  /** Two handlers with the same response find the same waiting call. */
  lemma {:induction false} BothFind(steps: seq<Step>, n: nat, p: Payload) returns (steps': seq<Step>)
    requires After(steps).Some?
    requires n < |After(steps).value.calls| && After(steps).value.calls[n].phase.Waiting?
    ensures After(steps').Some?
    ensures
      var s, s' := After(steps).value, After(steps').value;
      var h := Handler(MsgID(n), p, Sending(n));
      s'.calls == s.calls && s'.handlers == s.handlers + [h, h]
  {
    var s, id := After(steps).value, MsgID(n);
    RunKeepsInv(steps);
    assert id in s.pending && s.pending[id] == n;
    var h := |s.handlers|;
    steps' := Extend(steps, Inbound(id, p));
    steps' := Extend(steps', Inbound(id, p));
    steps' := Extend(steps', Lookup(h));
    steps' := Extend(steps', Lookup(h + 1));
  }

  /** Every waiting call can leave the handler of a duplicate response stuck: both responses are
      looked up, one is delivered, and the call gives up before it reads. */
  lemma {:induction false} DuplicateCanStick(steps: seq<Step>, n: nat, p: Payload) returns (steps': seq<Step>)
    requires After(steps).Some?
    requires
      var s := After(steps).value;
      n < |s.calls| && s.calls[n].phase.Waiting? && s.calls[n].slot.None?
    ensures After(steps').Some? && Stuck(After(steps').value, |After(steps).value.handlers| + 1)
  {
    var h := |After(steps).value.handlers|;
    steps' := BothFind(steps, n, p);
    steps' := Extend(steps', Deliver(h));
    steps' := Extend(steps', Timeout(n));
  }

  // ----- The connection object -----

  /** A connected charge point. Each method is one atomic section of `Call` or of `HandleResponse`. */
  class ChargePoint {
    var msgID: nat
    var pending: map<string, nat>
    var calls: seq<Call>
    var handlers: seq<Handler>

    function View(): State
      reads this
    {
      State(calls, pending, handlers)
    }

    ghost predicate Valid()
      reads this
    {
      msgID == |calls| && Inv(View())
    }

    constructor ()
      ensures Valid() && View() == INITIAL
    {
      msgID, pending, calls, handlers := 0, map[], [], [];
    }

    method NextID(action: string, payload: Payload) returns (n: nat)
      requires Valid()
      modifies this
      ensures Valid() && View() == Apply(old(View()), Start(action, payload)) && n == old(|calls|)
    {
      StepKeepsInv(View(), Start(action, payload));
      n := msgID;
      msgID := msgID + 1;
      calls := calls + [Call(action, payload, Allocated, None)];
    }

    method AddPending(n: nat)
      requires Valid() && Enabled(View(), Register(n))
      modifies this
      ensures Valid() && View() == Apply(old(View()), Register(n))
    {
      StepKeepsInv(View(), Register(n));
      pending := pending[MsgID(n) := n];
      calls := calls[n := calls[n].(phase := Registered)];
    }

    method Written(n: nat, ok: bool)
      requires Valid() && Enabled(View(), WriteOk(n))
      modifies this
      ensures Valid() && View() == Apply(old(View()), if ok then WriteOk(n) else WriteFail(n))
    {
      StepKeepsInv(View(), if ok then WriteOk(n) else WriteFail(n));
      calls := calls[n := calls[n].(phase := if ok then Waiting else Leaving(None))];
    }

    /** The select: the timeout may win even when a response is there. */
    method Select(n: nat, timedOut: bool)
      requires Valid() && Enabled(View(), if timedOut then Timeout(n) else Receive(n))
      modifies this
      ensures Valid() && View() == Apply(old(View()), if timedOut then Timeout(n) else Receive(n))
      ensures n < |calls| && calls[n].phase == Leaving(if timedOut then None else old(calls[n].slot))
    {
      StepKeepsInv(View(), if timedOut then Timeout(n) else Receive(n));
      if timedOut {
        calls := calls[n := calls[n].(phase := Leaving(None))];
      } else {
        calls := calls[n := calls[n].(phase := Leaving(calls[n].slot), slot := None)];
      }
    }

    method DeletePending(n: nat)
      requires Valid() && Enabled(View(), Delete(n))
      modifies this
      ensures Valid() && View() == Apply(old(View()), Delete(n))
    {
      StepKeepsInv(View(), Delete(n));
      pending := pending - {MsgID(n)};
      calls := calls[n := calls[n].(phase := Finished(calls[n].phase.result))];
    }

    method Accept(id: string, response: Payload)
      requires Valid()
      modifies this
      ensures Valid() && View() == Apply(old(View()), Inbound(id, response))
    {
      StepKeepsInv(View(), Inbound(id, response));
      handlers := handlers + [Handler(id, response, Looking)];
    }

    method LookUp(h: nat)
      requires Valid() && Enabled(View(), Lookup(h))
      modifies this
      ensures Valid() && View() == Apply(old(View()), Lookup(h))
    {
      StepKeepsInv(View(), Lookup(h));
      if handlers[h].msgID in pending {
        handlers := handlers[h := handlers[h].(stage := Sending(pending[handlers[h].msgID]))];
      } else {
        handlers := handlers[h := handlers[h].(stage := Ignored)];
      }
    }

    method Send(h: nat)
      requires Valid() && Enabled(View(), Deliver(h))
      modifies this
      ensures Valid() && View() == Apply(old(View()), Deliver(h))
    {
      StepKeepsInv(View(), Deliver(h));
      var n := handlers[h].stage.call;
      calls := calls[n := calls[n].(slot := Some(handlers[h].payload))];
      handlers := handlers[h := handlers[h].(stage := Delivered(n))];
    }
  }
}
