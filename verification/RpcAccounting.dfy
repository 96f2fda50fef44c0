/** The queue of plain messages and the counters, in every run of one connection. */
module RpcAccounting {
  import opened Words
  import opened Frames
  import opened Sums
  import opened PipeStats
  import opened RpcClient
  import opened RpcProtocol
  import opened RpcCorrelation
  import opened RpcHistory

  // ---------------------------------------------------------------------------------------
  // Plain messages
  // ---------------------------------------------------------------------------------------

  function FramesOf(ts: seq<Tagged>): (fs: seq<Frame>)
    ensures |fs| == |ts| && forall i :: 0 <= i < |ts| ==> fs[i] == ts[i].frame
  {
    seq(|ts|, i requires 0 <= i < |ts| => ts[i].frame)
  }

  function InHand(r: Receiver): seq<Frame> {
    if r.Dispatching? then [r.tagged.frame] else []
  }

  /** Nothing the server wrote is lost, doubled or reordered before it is dispatched. */
  ghost predicate StreamKept(s: State) {
    s.served == s.dispatched + InHand(s.receiver) + FramesOf(s.toClient)
  }

  ghost predicate QueueKept(s: State) {
    && s.taken + s.client.queue == PlainOf(s.dispatched)
    && (s.client.recvExc.Some? ==> s.receiver.Stopped?)
    && (s.raised.Some? ==> s.raised == s.client.recvExc && s.client.queue == [])
  }

  lemma ReceiveKeepsStream(s: State)
    requires StreamKept(s) && Enabled(s, Receive)
    ensures StreamKept(Apply(s, Receive))
  {
    TakeFirst(s.dispatched, s.toClient);
  }

  lemma TakeFirst(before: seq<Frame>, ts: seq<Tagged>)
    requires ts != []
    ensures before + [] + FramesOf(ts) == before + [ts[0].frame] + FramesOf(ts[1..])
  {
    assert FramesOf(ts) == [ts[0].frame] + FramesOf(ts[1..]);
  }

  lemma WriteKeepsStream(s: State, step: Step)
    requires StreamKept(s) && Enabled(s, step) && (step.ServerReply? || step.ServerSend?)
    ensures StreamKept(Apply(s, step))
  {
    var s' := Apply(s, step);
    if s'.toClient != s.toClient {
      AppendReply(s, s'.toClient[|s.toClient|]);
    }
  }

  lemma DispatchKeepsStream(s: State)
    requires StreamKept(s) && Enabled(s, DispatchOne)
    ensures StreamKept(Apply(s, DispatchOne))
  {
    assert s.dispatched + [s.receiver.tagged.frame] + [] == s.dispatched + [s.receiver.tagged.frame];
  }

  lemma StreamUntouched(s: State, step: Step)
    requires Enabled(s, step)
    requires !step.Receive? && !step.ServerReply? && !step.ServerSend? && !step.DispatchOne?
    ensures var s' := Apply(s, step);
            && s'.served == s.served && s'.dispatched == s.dispatched && s'.toClient == s.toClient
            && InHand(s'.receiver) == InHand(s.receiver)
  {
    if IsCallStep(step) {
      EffectLeavesStream(s, step);
    }
  }

  lemma StepKeepsStream(s: State, step: Step)
    requires StreamKept(s) && Enabled(s, step)
    ensures StreamKept(Apply(s, step))
  {
    if step.Receive? {
      ReceiveKeepsStream(s);
    } else if step.ServerReply? || step.ServerSend? {
      WriteKeepsStream(s, step);
    } else if step.DispatchOne? {
      DispatchKeepsStream(s);
    } else {
      StreamUntouched(s, step);
    }
  }

  lemma AppendReply(s: State, tagged: Tagged)
    requires StreamKept(s)
    ensures s.served + [tagged.frame] == s.dispatched + InHand(s.receiver) + FramesOf(s.toClient + [tagged])
  {
    assert FramesOf(s.toClient + [tagged]) == FramesOf(s.toClient) + [tagged.frame];
  }

  lemma EffectLeavesStream(s: State, step: Step)
    requires Enabled(s, step) && IsCallStep(step)
    ensures var s' := Effect(s, step);
            && s'.served == s.served && s'.dispatched == s.dispatched && s'.receiver == s.receiver
            && s'.toClient == s.toClient && s'.taken == s.taken && s'.raised == s.raised
            && s'.client.queue == s.client.queue && s'.client.recvExc == s.client.recvExc
  {}

  lemma DispatchKeepsQueue(s: State)
    requires QueueKept(s) && Enabled(s, DispatchOne)
    ensures QueueKept(Apply(s, DispatchOne))
  {
    var f := s.receiver.tagged.frame;
    OneMoreDispatched(s.taken, s.client.queue, s.dispatched, f);
  }

  lemma OneMoreDispatched(taken: seq<Message>, queue: seq<Message>, fs: seq<Frame>, f: Frame)
    requires taken + queue == PlainOf(fs)
    ensures taken + (if IsAnswer(f) then queue else queue + [f.payload]) == PlainOf(fs + [f])
  {
    assert (fs + [f])[..|fs|] == fs;
    assert taken + (queue + [f.payload]) == (taken + queue) + [f.payload];
  }

  lemma TakeKeepsQueue(s: State)
    requires QueueKept(s) && Enabled(s, TakePlain)
    ensures QueueKept(Apply(s, TakePlain))
  {
    assert s.taken + s.client.queue == (s.taken + [s.client.queue[0]]) + s.client.queue[1..];
  }

  /** The steps that have nothing to do with plain messages or the end of the receiver. */
  lemma QueueUntouched(s: State, step: Step)
    requires Enabled(s, step) && !step.DispatchOne? && !step.TakePlain? && !step.RaisePlain? && !step.Announce?
    ensures var s' := Apply(s, step);
            && s'.taken == s.taken && s'.client.queue == s.client.queue && s'.dispatched == s.dispatched
            && s'.client.recvExc == s.client.recvExc && s'.raised == s.raised
            && (s.receiver.Stopped? ==> s'.receiver == s.receiver)
  {
    if IsCallStep(step) {
      EffectLeavesStream(s, step);
    }
  }

  lemma StepKeepsQueue(s: State, step: Step)
    requires QueueKept(s) && Enabled(s, step)
    ensures QueueKept(Apply(s, step))
  {
    if step.DispatchOne? {
      DispatchKeepsQueue(s);
    } else if step.TakePlain? {
      TakeKeepsQueue(s);
    } else if !step.RaisePlain? && !step.Announce? {
      QueueUntouched(s, step);
    }
  }

  lemma {:induction false} RunKeepsQueue(s: State, steps: seq<Step>, s': State)
    requires StreamKept(s) && QueueKept(s) && Reachable(s, steps, s')
    ensures StreamKept(s') && QueueKept(s')
    decreases |steps|
  {
    if steps != [] {
      StepKeepsStream(s, steps[0]);
      StepKeepsQueue(s, steps[0]);
      RunKeepsQueue(Apply(s, steps[0]), steps[1..], s');
    }
  }

  /**
    receive() yields the plain messages in the order in which the server wrote them, and
    raises the disconnection only when it has yielded all that were dispatched.
  */
  lemma PlainInOrder(s0: State, steps: seq<Step>, s: State)
    requires Initial(s0) && Reachable(s0, steps, s)
    ensures s.taken + s.client.queue == PlainOf(s.dispatched)
    ensures s.served == s.dispatched + InHand(s.receiver) + FramesOf(s.toClient)
    ensures s.raised.Some? ==> s.taken == PlainOf(s.dispatched) && s.receiver.Stopped?
    ensures s.raised.Some? ==> s.raised == s.client.recvExc && RecvFails(s.raised.value) in steps
  {
    RunKeepsQueue(s0, steps, s);
    ErrorsAreReceived(s0, steps, s);
  }

  // ---------------------------------------------------------------------------------------
  // Counters
  // ---------------------------------------------------------------------------------------

  /** What a call adds to a counter: nothing before it has finished. */
  function Share(c: Call, f: Field): (n: int)
    ensures n >= 0
  {
    if !c.pc.Done? then 0
    else
      match c.pc.outcome
      case Success(m) =>
        (match f
         case MessagesSent => 1
         case MessagesReceived => 1
         case BytesSent => |c.request|
         case BytesReceived => |m|
         case Errors => 0
         case RpcCalls => 1
         case RttTotalNs => c.rtt)
      case BrokenPromise => 0
      case _ => if f.Errors? then 1 else 0
  }

  function Shares(calls: seq<Call>, f: Field): (w: seq<int>)
    ensures |w| == |calls| && forall i :: 0 <= i < |calls| ==> w[i] == Share(calls[i], f)
  {
    seq(|calls|, i requires 0 <= i < |calls| => Share(calls[i], f))
  }

  function PlainShare(t: Tally, f: Field): int {
    match f
    case MessagesSent => t.sent
    case BytesSent => t.bytes
    case Errors => t.errors
    case _ => 0
  }

  function Expected(s: State, f: Field): int {
    Sum(Shares(s.calls, f)) + PlainShare(s.tally, f)
  }

  ghost predicate Accounted(s: State) {
    forall f :: AccountedFor(s, f)
  }

  ghost predicate AccountedFor(s: State, f: Field) {
    Get(s.client.stats, f) == Expected(s, f) % TWO_64
  }

  /** How the counters move with one step, field by field. */
  lemma CountersMove(s: State, step: Step, f: Field)
    requires Enabled(s, step)
    ensures Expected(Apply(s, step), f) >= Expected(s, f)
    ensures Get(Apply(s, step).client.stats, f) == WrapAdd(Get(s.client.stats, f), Expected(Apply(s, step), f) - Expected(s, f))
  {
    var s' := Apply(s, step);
    if IsCallStep(step) {
      CallMovesCounters(s, step, f);
    } else if step.Begin? {
      SumAppend(Shares(s.calls, f), 0);
      assert Shares(s'.calls, f) == Shares(s.calls, f) + [0];
    } else {
      OtherStepShape(s, step);
      PlainMovesCounters(s, step, f);
    }
  }

  lemma CollectMoves(s: State, step: Step, f: Field)
    requires Enabled(s, step) && step.Collect?
    ensures Share(s.calls[step.call], f) == 0
    ensures Get(Effect(s, step).client.stats, f) == WrapAdd(Get(s.client.stats, f), Share(Moved(s, step), f))
  {}

  lemma ShareMoves(s: State, step: Step, f: Field)
    requires Enabled(s, step) && IsCallStep(step)
    ensures var before, after := Share(s.calls[step.call], f), Share(Moved(s, step), f);
            && after >= before
            && Get(Effect(s, step).client.stats, f) == WrapAdd(Get(s.client.stats, f), after - before)
  {
    if step.Collect? {
      CollectMoves(s, step, f);
    } else if step.EraseFailed? || step.EraseExpired? {
      EraseMoves(s, step, f);
    }
  }

  lemma EraseMoves(s: State, step: Step, f: Field)
    requires Enabled(s, step) && (step.EraseFailed? || step.EraseExpired?)
    ensures Share(s.calls[step.call], f) == 0
    ensures Get(Effect(s, step).client.stats, f) == WrapAdd(Get(s.client.stats, f), Share(Moved(s, step), f))
  {}

  lemma EffectLeavesTally(s: State, step: Step)
    requires Enabled(s, step) && IsCallStep(step)
    ensures Effect(s, step).tally == s.tally
  {}

  lemma CallMovesCounters(s: State, step: Step, f: Field)
    requires Enabled(s, step) && IsCallStep(step)
    ensures Expected(Apply(s, step), f) >= Expected(s, f)
    ensures Get(Apply(s, step).client.stats, f) == WrapAdd(Get(s.client.stats, f), Expected(Apply(s, step), f) - Expected(s, f))
  {
    ShareMoves(s, step, f);
    EffectLeavesTally(s, step);
    CallStepShape(s, step);
    SumUpdate(Shares(s.calls, f), step.call, Share(Moved(s, step), f));
    assert Shares(s.calls[step.call := Moved(s, step)], f) == Shares(s.calls, f)[step.call := Share(Moved(s, step), f)];
  }

  lemma PlainSendMoves(s: State, step: Step, f: Field)
    requires Enabled(s, step) && step.SendPlain?
    ensures var before, after := PlainShare(s.tally, f), PlainShare(Apply(s, step).tally, f);
            && after >= before
            && Get(Apply(s, step).client.stats, f) == WrapAdd(Get(s.client.stats, f), after - before)
  {}

  lemma CountersUntouched(s: State, step: Step)
    requires Enabled(s, step) && !IsCallStep(step) && !step.SendPlain?
    ensures Apply(s, step).client.stats == s.client.stats && Apply(s, step).tally == s.tally
  {}

  lemma PlainMovesCounters(s: State, step: Step, f: Field)
    requires Enabled(s, step) && !IsCallStep(step) && !step.Begin?
    ensures var before, after := PlainShare(s.tally, f), PlainShare(Apply(s, step).tally, f);
            && after >= before
            && Get(Apply(s, step).client.stats, f) == WrapAdd(Get(s.client.stats, f), after - before)
  {
    if step.SendPlain? {
      PlainSendMoves(s, step, f);
    } else {
      CountersUntouched(s, step);
    }
  }

  lemma {:induction false} RunKeepsAccounted(s: State, steps: seq<Step>, s': State)
    requires Accounted(s) && Reachable(s, steps, s')
    ensures Accounted(s')
    decreases |steps|
  {
    if steps != [] {
      var m := Apply(s, steps[0]);
      forall f ensures AccountedFor(m, f) {
        assert AccountedFor(s, f);
        CountersMove(s, steps[0], f);
        WrapAddMod(Expected(s, f), Expected(m, f) - Expected(s, f));
      }
      RunKeepsAccounted(m, steps[1..], s');
    }
  }

  lemma InitialAccounted(s: State)
    requires Initial(s)
    ensures Accounted(s)
  {
    forall f ensures AccountedFor(s, f) {
      SumOfZeros(Shares(s.calls, f));
    }
  }

  /**
    At every moment each counter is, modulo 2^64, what the finished calls and the plain sends
    add up to: a call that returned counts as one RPC with its round-trip time, one that
    failed or timed out as one error.
  */
  lemma CountersAddUp(s0: State, steps: seq<Step>, s: State, f: Field)
    requires Initial(s0) && Reachable(s0, steps, s)
    ensures Get(s.client.stats, f) == Expected(s, f) % TWO_64
  {
    InitialAccounted(s0);
    RunKeepsAccounted(s0, steps, s);
    assert AccountedFor(s, f);
  }

  lemma SameShares(s: State)
    ensures Shares(s.calls, MessagesReceived) == Shares(s.calls, RpcCalls)
  {}

  /** Only responses are counted as received. */
  lemma ReceivedAreCalls(s0: State, steps: seq<Step>, s: State)
    requires Initial(s0) && Reachable(s0, steps, s)
    ensures s.client.stats.messagesReceived == s.client.stats.rpcCalls
  {
    CountersAddUp(s0, steps, s, MessagesReceived);
    CountersAddUp(s0, steps, s, RpcCalls);
    SameShares(s);
  }

  /** The last round-trip time is that of the call that has last returned a response. */
  lemma LastRoundTrip(s: State, step: Step)
    requires Enabled(s, step)
    ensures Apply(s, step).client.stats.rttLastNs ==
            if step.Collect? && s.client.promises[step.call].Answered? then step.rtt else s.client.stats.rttLastNs
    ensures step.Collect? ==> Apply(s, step).calls[step.call].rtt == step.rtt
  {
    if IsCallStep(step) {
      EffectAndRoundTrip(s, step);
      CallStepShape(s, step);
    }
  }

  lemma EffectAndRoundTrip(s: State, step: Step)
    requires Enabled(s, step) && IsCallStep(step)
    ensures Effect(s, step).client.stats.rttLastNs ==
            if step.Collect? && s.client.promises[step.call].Answered? then step.rtt else s.client.stats.rttLastNs
  {}

  /** Within the window every finished call has added exactly one to the RPC calls or to the errors. */
  lemma EveryCallCountsOnce(s0: State, steps: seq<Step>, s: State, t: nat)
    requires Initial(s0) && Reachable(s0, steps, s) && AlwaysInWindow(s0, steps)
    requires t < |s.calls| && s.calls[t].pc.Done?
    ensures Share(s.calls[t], RpcCalls) + Share(s.calls[t], Errors) == 1
    ensures Share(s.calls[t], RpcCalls) == 1 <==> s.calls[t].pc.outcome.Success?
  {
    RpcCorrelation.InitialInv(s0);
    RpcCorrelation.RunKeepsInv(s0, steps, s);
    assert CallConsistent(s.calls[t], t, s.client.pending, s.client.promises);
    FourWaysOut(s0, steps, s, t);
  }
}
