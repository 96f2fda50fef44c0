/** A call that returns normally returns what the handler made of its own request. */
module RpcCorrelation {
  import opened Words
  import opened Frames
  import opened RpcIds
  import opened RpcClient
  import opened RpcServer
  import opened RpcProtocol
  import opened RpcWindow

  // ---------------------------------------------------------------------------------------
  // What travels
  // ---------------------------------------------------------------------------------------

  predicate Sent(c: Call) { c.pc.Waiting? || c.pc.Expired? || c.pc.Done? }

  ghost predicate RequestFrame(calls: seq<Call>, tagged: Tagged) {
    match tagged.origin
    case None => tagged.frame.flags == 0 && tagged.frame.messageId == NO_MESSAGE_ID
    case Some(t) =>
      && t < |calls| && Sent(calls[t])
      && tagged.frame == Frame(calls[t].request, calls[t].id, FLAG_REQUEST)
  }

  ghost predicate HandledFor(calls: seq<Call>, handled: map<nat, Handling>, t: nat, message: Message) {
    && t < |calls| && t in handled
    && handled[t].request == calls[t].request && message == Answer(handled[t].result)
  }

  ghost predicate ReplyFrame(calls: seq<Call>, handled: map<nat, Handling>, tagged: Tagged) {
    match tagged.origin
    case None => tagged.frame.flags == 0 && tagged.frame.messageId == NO_MESSAGE_ID
    case Some(t) =>
      && HandledFor(calls, handled, t, tagged.frame.payload) && Sent(calls[t])
      && tagged.frame.messageId == calls[t].id && tagged.frame.flags == FLAG_RESPONSE
  }

  ghost predicate RequestsOk(calls: seq<Call>, toServer: seq<Tagged>) {
    && (forall i :: 0 <= i < |toServer| ==> RequestFrame(calls, toServer[i]))
    && (forall i, j :: 0 <= i < j < |toServer| && toServer[i].origin.Some? ==> toServer[i].origin != toServer[j].origin)
  }

  /** The request at the server is no longer on its way there and has not been handled before. */
  ghost predicate ServerOk(calls: seq<Call>, toServer: seq<Tagged>, server: Server, handled: map<nat, Handling>) {
    && (server.Working? ==>
          && RequestFrame(calls, server.tagged) && server.tagged.origin.Some?
          && server.tagged.origin.value !in handled
          && forall i :: 0 <= i < |toServer| ==> toServer[i].origin != server.tagged.origin)
    && (forall t :: t in handled ==> t < |calls| && Sent(calls[t]))
    && (forall i :: 0 <= i < |toServer| && toServer[i].origin.Some? ==> toServer[i].origin.value !in handled)
  }

  ghost predicate RepliesOk(calls: seq<Call>, toClient: seq<Tagged>, receiver: Receiver, handled: map<nat, Handling>) {
    && (forall i :: 0 <= i < |toClient| ==> ReplyFrame(calls, handled, toClient[i]))
    && (receiver.Dispatching? ==> ReplyFrame(calls, handled, receiver.tagged))
  }

  ghost predicate TrafficOk(s: State) {
    && RequestsOk(s.calls, s.toServer)
    && ServerOk(s.calls, s.toServer, s.server, s.handled)
    && RepliesOk(s.calls, s.toClient, s.receiver, s.handled)
  }

  /** Calls move on, but what was sent for them stands. */
  ghost predicate KeepsSent(calls: seq<Call>, calls': seq<Call>) {
    && |calls| <= |calls'|
    && forall t :: 0 <= t < |calls| ==>
         && calls'[t].request == calls[t].request
         && (Sent(calls[t]) ==> Sent(calls'[t]) && calls'[t].id == calls[t].id)
  }

  lemma CallsKeepSent(s: State, step: Step)
    requires Enabled(s, step)
    ensures KeepsSent(s.calls, Apply(s, step).calls)
  {
    if IsCallStep(step) {
      CallStepShape(s, step);
      if Sent(s.calls[step.call]) {
        SentMoves(s, step);
      }
    } else if !step.Begin? {
      OtherStepShape(s, step);
    }
  }

  lemma SentMoves(s: State, step: Step)
    requires Enabled(s, step) && IsCallStep(step) && Sent(s.calls[step.call])
    ensures Sent(Moved(s, step)) && !step.Draw?
  {}

  lemma SentKeepsTraffic(s: State, calls: seq<Call>)
    requires TrafficOk(s) && KeepsSent(s.calls, calls)
    ensures RequestsOk(calls, s.toServer)
    ensures ServerOk(calls, s.toServer, s.server, s.handled)
    ensures RepliesOk(calls, s.toClient, s.receiver, s.handled)
  {
    forall i | 0 <= i < |s.toServer| ensures RequestFrame(calls, s.toServer[i]) {
      assert RequestFrame(s.calls, s.toServer[i]);
    }
    forall i | 0 <= i < |s.toClient| ensures ReplyFrame(calls, s.handled, s.toClient[i]) {
      assert ReplyFrame(s.calls, s.handled, s.toClient[i]);
    }
  }

  /** The steps that put frames on a channel or take them off. */
  predicate MovesFrames(step: Step) {
    step.Send? || step.SendPlain? || step.ServerTake? || step.ServerReply? || step.ServerSend? || step.Receive?
  }

  lemma TrafficUntouched(s: State, step: Step)
    requires Enabled(s, step) && !MovesFrames(step)
    ensures var s' := Apply(s, step);
            && s'.toServer == s.toServer && s'.toClient == s.toClient && s'.handled == s.handled
            && (s'.server == s.server || s'.server.Closed?)
            && (s'.receiver.Dispatching? ==> s'.receiver == s.receiver)
  {
    if IsCallStep(step) {
      EffectLeavesTraffic(s, step);
    }
  }

  lemma EffectLeavesTraffic(s: State, step: Step)
    requires Enabled(s, step) && IsCallStep(step)
    ensures var s' := Effect(s, step);
            && (!step.Send? ==> s'.toServer == s.toServer) && s'.toClient == s.toClient && s'.handled == s.handled
            && s'.server == s.server && s'.receiver == s.receiver
  {}

  lemma AddRequest(calls: seq<Call>, toServer: seq<Tagged>, server: Server, handled: map<nat, Handling>, tagged: Tagged)
    requires RequestsOk(calls, toServer) && ServerOk(calls, toServer, server, handled)
    requires RequestFrame(calls, tagged)
    requires tagged.origin.Some? ==>
               && tagged.origin.value !in handled
               && (server.Working? ==> server.tagged.origin != tagged.origin)
               && forall i :: 0 <= i < |toServer| ==> toServer[i].origin != tagged.origin
    ensures RequestsOk(calls, toServer + [tagged]) && ServerOk(calls, toServer + [tagged], server, handled)
  {}

  lemma SendKeepsTraffic(s: State, step: Step)
    requires TrafficOk(s) && Enabled(s, step) && step.Send?
    ensures TrafficOk(Apply(s, step))
  {
    var s', t := Apply(s, step), step.call;
    CallsKeepSent(s, step);
    SentKeepsTraffic(s, s'.calls);
    if step.ok {
      assert !Sent(s.calls[t]);
      forall i | 0 <= i < |s.toServer| ensures s.toServer[i].origin != Some(t) {
        assert RequestFrame(s.calls, s.toServer[i]);
      }
      AddRequest(s'.calls, s.toServer, s.server, s.handled,
                 Tagged(Frame(s.calls[t].request, s.calls[t].id, FLAG_REQUEST), Some(t)));
    }
  }

  lemma TakeKeepsTraffic(s: State, step: Step)
    requires TrafficOk(s) && Enabled(s, step) && step.ServerTake?
    ensures TrafficOk(Apply(s, step))
  {
    var s' := Apply(s, step);
    assert RequestFrame(s.calls, s.toServer[0]);
    forall i | 0 <= i < |s'.toServer| ensures RequestFrame(s.calls, s'.toServer[i]) {
      assert RequestFrame(s.calls, s.toServer[i + 1]);
    }
  }

  lemma ReplyKeepsServer(s: State, step: Step)
    requires ServerOk(s.calls, s.toServer, s.server, s.handled) && Enabled(s, step) && step.ServerReply?
    ensures var s' := Apply(s, step);
            s'.toServer == s.toServer && s'.calls == s.calls && ServerOk(s'.calls, s'.toServer, s'.server, s'.handled)
  {}

  lemma MoreHandled(calls: seq<Call>, toClient: seq<Tagged>, receiver: Receiver, handled: map<nat, Handling>, t: nat, h: Handling)
    requires RepliesOk(calls, toClient, receiver, handled) && t !in handled
    ensures RepliesOk(calls, toClient, receiver, handled[t := h])
  {
    forall i | 0 <= i < |toClient| ensures ReplyFrame(calls, handled[t := h], toClient[i]) {
      assert ReplyFrame(calls, handled, toClient[i]);
    }
  }

  lemma MoreReplies(calls: seq<Call>, toClient: seq<Tagged>, receiver: Receiver, handled: map<nat, Handling>, tagged: Tagged)
    requires RepliesOk(calls, toClient, receiver, handled) && ReplyFrame(calls, handled, tagged)
    ensures RepliesOk(calls, toClient + [tagged], receiver, handled)
  {}

  lemma ReplyKeepsReplies(s: State, step: Step)
    requires ServerOk(s.calls, s.toServer, s.server, s.handled) && RepliesOk(s.calls, s.toClient, s.receiver, s.handled)
    requires Enabled(s, step) && step.ServerReply?
    ensures var s' := Apply(s, step); RepliesOk(s'.calls, s'.toClient, s'.receiver, s'.handled)
  {
    var tagged := s.server.tagged;
    var t, h := tagged.origin.value, Handling(tagged.frame.payload, step.result);
    MoreHandled(s.calls, s.toClient, s.receiver, s.handled, t, h);
    if step.fate.ReplySent? {
      MoreReplies(s.calls, s.toClient, s.receiver, s.handled[t := h],
                  Tagged(Frame(Answer(step.result), tagged.frame.messageId, FLAG_RESPONSE), tagged.origin));
    }
  }

  lemma ReplyKeepsTraffic(s: State, step: Step)
    requires TrafficOk(s) && Enabled(s, step) && step.ServerReply?
    ensures TrafficOk(Apply(s, step))
  {
    ReplyKeepsServer(s, step);
    ReplyKeepsReplies(s, step);
  }

  lemma StepKeepsTraffic(s: State, step: Step)
    requires TrafficOk(s) && Enabled(s, step)
    ensures TrafficOk(Apply(s, step))
  {
    if step.Send? {
      SendKeepsTraffic(s, step);
    } else if step.ServerTake? {
      TakeKeepsTraffic(s, step);
    } else if step.ServerReply? {
      ReplyKeepsTraffic(s, step);
    } else if step.SendPlain? {
      if step.ok {
        AddRequest(s.calls, s.toServer, s.server, s.handled, Tagged(Frame(step.message, NO_MESSAGE_ID, 0), None));
      }
    } else if !MovesFrames(step) {
      TrafficUntouched(s, step);
      CallsKeepSent(s, step);
      SentKeepsTraffic(s, Apply(s, step).calls);
    }
  }

  // ---------------------------------------------------------------------------------------
  // Ids in use
  // ---------------------------------------------------------------------------------------

  predicate Carries(tagged: Tagged, t: nat) { tagged.origin == Some(t) }

  /** A call that has not finished, or one of whose frames is still on its way. */
  ghost predicate IdInUse(s: State, t: nat)
    requires t < |s.calls|
  {
    && HasId(s.calls[t])
    && (|| !s.calls[t].pc.Done?
        || (exists i :: 0 <= i < |s.toServer| && Carries(s.toServer[i], t))
        || (s.server.Working? && Carries(s.server.tagged, t))
        || (exists i :: 0 <= i < |s.toClient| && Carries(s.toClient[i], t))
        || (s.receiver.Dispatching? && Carries(s.receiver.tagged, t)))
  }

  /** Every id in use was drawn among the last 2^32 draws. */
  ghost predicate InWindow(s: State) {
    forall t :: 0 <= t < |s.calls| && IdInUse(s, t) ==> Prompt(s, t)
  }

  ghost predicate AlwaysInWindow(s: State, steps: seq<Step>)
    decreases |steps|
  {
    InWindow(s) && (steps != [] && Enabled(s, steps[0]) ==> AlwaysInWindow(Apply(s, steps[0]), steps[1..]))
  }

  lemma {:induction false} DrawsGrow(s: State, steps: seq<Step>, s': State)
    requires Reachable(s, steps, s')
    ensures |s.drawn| <= |s'.drawn|
    decreases |steps|
  {
    if steps != [] {
      DrawsGrow(Apply(s, steps[0]), steps[1..], s');
    }
  }

  /** A run with at most 2^32 draws never leaves the window. */
  lemma {:induction false} FewDrawsStayInWindow(s: State, steps: seq<Step>, s': State)
    requires Reachable(s, steps, s') && |s'.drawn| <= TWO_32
    ensures AlwaysInWindow(s, steps)
    decreases |steps|
  {
    DrawsGrow(s, steps, s');
    if steps != [] {
      FewDrawsStayInWindow(Apply(s, steps[0]), steps[1..], s');
    }
  }

  // ---------------------------------------------------------------------------------------
  // Answers
  // ---------------------------------------------------------------------------------------

  /** Every answer is the handler's for the very request, and nobody erased another's entry. */
  ghost predicate AnswersOk(calls: seq<Call>, handled: map<nat, Handling>, promises: map<nat, Promise>) {
    forall t :: t in promises ==>
      && (promises[t].Answered? ==> HandledFor(calls, handled, t, promises[t].message))
      && (promises[t].Erased? ==> promises[t].request == t && t < |calls| && ErasesItself(calls[t]))
  }

  predicate ErasesItself(c: Call) { c.pc == Done(SendFailure) || c.pc == Done(Expiry) }

  ghost predicate Inv(s: State) {
    && WindowInv(s) && TrafficOk(s)
    && AnswersOk(s.calls, s.handled, s.client.promises)
  }

  /** Within the window two ids in use are only equal if they are the same call's. */
  lemma SameCall(s: State, t: nat, u: nat)
    requires IdsTraced(s.client.next, s.drawn, s.calls)
    requires t < |s.calls| && u < |s.calls| && HasId(s.calls[t]) && HasId(s.calls[u])
    requires Prompt(s, t) && Prompt(s, u) && s.calls[t].id == s.calls[u].id
    ensures t == u
  {
    var d, e := s.calls[t].draw, s.calls[u].draw;
    assert Traced(s.drawn, s.calls[t], t) && Traced(s.drawn, s.calls[u], u);
    if d < e {
      SameIdApart(d, e);
    } else if e < d {
      SameIdApart(e, d);
    }
  }

  lemma DispatchFindsOrigin(s: State)
    requires Inv(s) && InWindow(s) && s.receiver.Dispatching?
    requires IsAnswer(s.receiver.tagged.frame) && s.receiver.tagged.frame.messageId in s.client.pending
    ensures s.receiver.tagged.origin == Some(s.client.pending[s.receiver.tagged.frame.messageId])
  {
    var tagged := s.receiver.tagged;
    var id := tagged.frame.messageId;
    var t := s.client.pending[id];
    assert EntryConsistent(s.calls, id, t, s.client.promises);
    var u := tagged.origin.value;
    assert Carries(tagged, u);
    assert IdInUse(s, u) && IdInUse(s, t);
    SameCall(s, t, u);
  }

  lemma DispatchKeepsAnswers(s: State, step: Step)
    requires Inv(s) && InWindow(s) && Enabled(s, step) && step.DispatchOne?
    ensures AnswersOk(s.calls, s.handled, Apply(s, step).client.promises)
  {
    var f := s.receiver.tagged.frame;
    if IsAnswer(f) && f.messageId in s.client.pending {
      DispatchFindsOrigin(s);
    }
  }

  lemma EraseFindsOwn(s: State, me: nat)
    requires Inv(s) && InWindow(s) && (At(s, me, SendFailed) || At(s, me, Expired))
    requires s.calls[me].id in s.client.pending
    ensures s.client.pending[s.calls[me].id] == me
  {
    var id := s.calls[me].id;
    assert EntryConsistent(s.calls, id, s.client.pending[id], s.client.promises);
    assert IdInUse(s, me) && IdInUse(s, s.client.pending[id]);
    SameCall(s, me, s.client.pending[id]);
  }

  lemma EraseKeepsAnswers(s: State, step: Step)
    requires Inv(s) && InWindow(s) && Enabled(s, step) && (step.EraseFailed? || step.EraseExpired?)
    ensures var s' := Apply(s, step); AnswersOk(s'.calls, s'.handled, s'.client.promises)
  {
    var me := step.call;
    CallStepShape(s, step);
    if s.calls[me].id in s.client.pending {
      EraseFindsOwn(s, me);
    }
    ErasedIsDone(s, me);
  }

  /** An erased promise belongs to a call that has finished. */
  lemma ErasedIsDone(s: State, t: nat)
    requires AnswersOk(s.calls, s.handled, s.client.promises) && t < |s.calls| && !s.calls[t].pc.Done?
    ensures t in s.client.promises ==> !s.client.promises[t].Erased?
  {}

  lemma MoveKeepsAnswers(calls: seq<Call>, calls': seq<Call>, handled: map<nat, Handling>, handled': map<nat, Handling>,
                         promises: map<nat, Promise>, promises': map<nat, Promise>)
    requires AnswersOk(calls, handled, promises) && KeepsSent(calls, calls')
    requires forall t :: 0 <= t < |calls| && calls[t].pc.Done? ==> calls'[t] == calls[t]
    requires forall t :: t in handled ==> t in handled' && handled'[t] == handled[t]
    requires forall t :: t in promises' && (promises'[t].Answered? || promises'[t].Erased?) ==>
               t in promises && promises[t] == promises'[t]
    ensures AnswersOk(calls', handled', promises')
  {}

  lemma HandledGrows(s: State, step: Step)
    requires TrafficOk(s) && Enabled(s, step)
    ensures forall t :: t in s.handled ==> t in Apply(s, step).handled && Apply(s, step).handled[t] == s.handled[t]
  {
    if !step.ServerReply? {
      HandledUntouched(s, step);
    }
  }

  lemma HandledUntouched(s: State, step: Step)
    requires Enabled(s, step) && !step.ServerReply?
    ensures Apply(s, step).handled == s.handled
  {
    if IsCallStep(step) {
      EffectLeavesTraffic(s, step);
    }
  }

  lemma DoneCallsStay(s: State, step: Step, t: nat)
    requires Enabled(s, step) && t < |s.calls| && s.calls[t].pc.Done?
    ensures t < |Apply(s, step).calls| && Apply(s, step).calls[t] == s.calls[t]
  {
    if IsCallStep(step) {
      CallStepShape(s, step);
    } else if !step.Begin? {
      OtherStepShape(s, step);
    }
  }

  lemma OthersSettleNothing(s: State, step: Step, t: nat)
    requires Enabled(s, step) && !step.DispatchOne? && !step.EraseFailed? && !step.EraseExpired?
    requires var ps := Apply(s, step).client.promises; t in ps && (ps[t].Answered? || ps[t].Erased?)
    ensures t in s.client.promises && s.client.promises[t] == Apply(s, step).client.promises[t]
  {
    if !TouchesTable(step) {
      TableUntouched(s, step);
    }
  }

  lemma OtherKeepsAnswers(s: State, step: Step)
    requires Inv(s) && Enabled(s, step) && !step.DispatchOne? && !step.EraseFailed? && !step.EraseExpired?
    ensures var s' := Apply(s, step); AnswersOk(s'.calls, s'.handled, s'.client.promises)
  {
    var s' := Apply(s, step);
    CallsKeepSent(s, step);
    HandledGrows(s, step);
    forall t | 0 <= t < |s.calls| && s.calls[t].pc.Done? ensures s'.calls[t] == s.calls[t] {
      DoneCallsStay(s, step, t);
    }
    forall t | t in s'.client.promises && (s'.client.promises[t].Answered? || s'.client.promises[t].Erased?)
      ensures t in s.client.promises && s.client.promises[t] == s'.client.promises[t]
    {
      OthersSettleNothing(s, step, t);
    }
    MoveKeepsAnswers(s.calls, s'.calls, s.handled, s'.handled, s.client.promises, s'.client.promises);
  }

  lemma EnterIsPrompt(s: State, step: Step)
    requires InWindow(s) && Enabled(s, step) && step.Enter?
    ensures Prompt(s, step.call)
  {
    assert IdInUse(s, step.call);
  }

  lemma StepKeepsInv(s: State, step: Step)
    requires Inv(s) && InWindow(s) && Enabled(s, step)
    ensures Inv(Apply(s, step))
  {
    if step.Enter? {
      EnterIsPrompt(s, step);
    }
    StepKeepsWindowInv(s, step);
    StepKeepsTraffic(s, step);
    if step.DispatchOne? {
      OtherStepShape(s, step);
      TrafficUntouched(s, step);
      DispatchKeepsAnswers(s, step);
    } else if step.EraseFailed? || step.EraseExpired? {
      EraseKeepsAnswers(s, step);
    } else {
      OtherKeepsAnswers(s, step);
    }
  }

  lemma {:induction false} RunKeepsInv(s: State, steps: seq<Step>, s': State)
    requires Inv(s) && Reachable(s, steps, s') && AlwaysInWindow(s, steps)
    ensures Inv(s')
    decreases |steps|
  {
    if steps != [] {
      StepKeepsInv(s, steps[0]);
      RunKeepsInv(Apply(s, steps[0]), steps[1..], s');
    }
  }

  lemma InitialInv(s: State)
    requires Initial(s)
    ensures Inv(s)
  {
    InitialWindowInv(s);
  }

  /**
    End to end: in every interleaving that stays in the window, a call that returned normally
    returned the handler's answer to its own request (the empty message if the handler threw).
  */
  lemma Correlation(s0: State, steps: seq<Step>, s: State, t: nat)
    requires Initial(s0) && Reachable(s0, steps, s) && AlwaysInWindow(s0, steps)
    requires t < |s.calls| && s.calls[t].pc.Done? && s.calls[t].pc.outcome.Success?
    ensures HandledFor(s.calls, s.handled, t, s.calls[t].pc.outcome.message)
  {
    InitialInv(s0);
    RunKeepsInv(s0, steps, s);
    assert CallConsistent(s.calls[t], t, s.client.pending, s.client.promises);
  }

  /** The same for a handler that is a function, in terms of the number of draws. */
  lemma CorrelationForFewDraws(s0: State, steps: seq<Step>, s: State, t: nat, handler: Handler)
    requires Initial(s0) && Reachable(s0, steps, s) && |s.drawn| <= TWO_32
    requires forall u :: u in s.handled ==> s.handled[u].result == handler(s.handled[u].request)
    requires t < |s.calls| && s.calls[t].pc.Done? && s.calls[t].pc.outcome.Success?
    ensures match handler(s.calls[t].request)
            case Returned(m) => s.calls[t].pc.outcome == Success(m)
            case Threw => s.calls[t].pc.outcome == Success([])
  {
    FewDrawsStayInWindow(s0, steps, s);
    Correlation(s0, steps, s, t);
  }

  /**
    Within the window a promise leaves the table by a response, by the disconnection, or by
    its own call's failed send or timeout, and no call sees a broken promise.
  */
  lemma FourWaysOut(s0: State, steps: seq<Step>, s: State, t: nat)
    requires Initial(s0) && Reachable(s0, steps, s) && AlwaysInWindow(s0, steps) && t in s.client.promises
    ensures t < |s.calls|
    ensures match s.client.promises[t]
            case Unset => Owns(s.client.pending, s.calls[t].id, t)
            case Answered(m) => HandledFor(s.calls, s.handled, t, m)
            case Disconnected(_) => true
            case Erased(u) => u == t && ErasesItself(s.calls[t])
            case Overwritten(_) => false
    ensures s.calls[t].pc != Done(BrokenPromise)
  {
    InitialInv(s0);
    RunKeepsInv(s0, steps, s);
    assert CallConsistent(s.calls[t], t, s.client.pending, s.client.promises);
  }
}
