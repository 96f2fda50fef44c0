/**
  What happens outside the window: concrete runs in which the counter goes round once. Calls
  whose send fails at once use up the draws in between.
*/
module RpcWrap {
  import opened Words
  import opened Frames
  import opened RpcIds
  import opened RpcClient
  import opened RpcServer
  import opened RpcProtocol
  import opened RpcResolution
  import opened RpcCorrelation

  /** Nothing moves except new calls; call 0 is c0 and the server is where it was. */
  ghost predicate Quiet(s: State, n: nat, c0: Call, server: Server) {
    && |s.drawn| == n && s.client.next == DrawnAt(n)
    && s.calls != [] && s.calls[0] == c0 && s.server == server
    && s.toServer == [] && s.toClient == [] && s.receiver.Looping? && !s.stop && s.handled == map[]
    && forall t :: t in s.client.promises ==> t < |s.calls|
  }

  ghost predicate Idle(s: State, n: nat, c0: Call, server: Server) {
    Quiet(s, n, c0, server) && s.holder.None? && s.client.pending == map[]
  }

  /** The newest call is at pc with the given id and has not registered. */
  ghost predicate Newest(s: State, n: nat, c0: Call, server: Server, request: Message, pc: Pc, id: U32) {
    && Quiet(s, n, c0, server) && s.holder.None? && s.client.pending == map[]
    && |s.calls| > 1 && s.calls[|s.calls| - 1].request == request
    && s.calls[|s.calls| - 1].pc == pc && s.calls[|s.calls| - 1].id == id
    && |s.calls| - 1 !in s.client.promises
  }

  lemma Advance(s0: State, steps: seq<Step>, s: State, step: Step) returns (steps': seq<Step>, s': State)
    requires Reachable(s0, steps, s) && Enabled(s, step)
    ensures s' == Apply(s, step) && Reachable(s0, steps', s')
  {
    ReachableSnoc(s0, steps, s, step);
    steps', s' := steps + [step], Apply(s, step);
  }

  lemma BeginCall(s0: State, steps: seq<Step>, s: State, n: nat, c0: Call, server: Server, request: Message)
    returns (steps': seq<Step>, s': State)
    requires Reachable(s0, steps, s) && Idle(s, n, c0, server)
    ensures Reachable(s0, steps', s') && Newest(s', n, c0, server, request, Drawing(false), 0)
  {
    steps', s' := Advance(s0, steps, s, Begin(request, true));
  }

  lemma DrawOnce(s0: State, steps: seq<Step>, s: State, n: nat, c0: Call, server: Server, request: Message, pc: Pc, id: U32)
    returns (steps': seq<Step>, s': State)
    requires Reachable(s0, steps, s) && Newest(s, n, c0, server, request, pc, id)
    requires pc == Drawing(false) || pc == Redrawing(false)
    ensures Reachable(s0, steps', s')
    ensures Newest(s', n + 1, c0, server, request,
                   if pc.Drawing? && Reserved(DrawnAt(n)) then Redrawing(false) else Drawn(false), DrawnAt(n))
  {
    DrawnAtSucc(n);
    steps', s' := Advance(s0, steps, s, Draw(|s.calls| - 1));
  }

  lemma CheckId(s0: State, steps: seq<Step>, s: State, n: nat, c0: Call, server: Server, request: Message, id: U32)
    returns (steps': seq<Step>, s': State)
    requires Reachable(s0, steps, s) && Newest(s, n, c0, server, request, Drawn(false), id)
    ensures Reachable(s0, steps', s') && Newest(s', n, c0, server, request, Checked, id)
  {
    var m;
    var k := |s.calls| - 1;
    steps', m := Advance(s0, steps, s, Lock(k));
    assert At(m, k, Drawn(true)) && m.holder == Some(k);
    steps', s' := Advance(s0, steps', m, Probe(k));
  }

  /** The newest call has registered and stands at pc. */
  ghost predicate Entered(s: State, n: nat, c0: Call, server: Server, request: Message, pc: Pc, id: U32) {
    && Quiet(s, n, c0, server) && s.holder.None?
    && |s.calls| > 1 && s.calls[|s.calls| - 1].request == request
    && s.calls[|s.calls| - 1].pc == pc && s.calls[|s.calls| - 1].id == id
    && s.client.pending == map[id := |s.calls| - 1]
    && |s.calls| - 1 in s.client.promises && s.client.promises[|s.calls| - 1].Unset?
  }

  lemma EnterTable(s0: State, steps: seq<Step>, s: State, n: nat, c0: Call, server: Server, request: Message, id: U32)
    returns (steps': seq<Step>, s': State)
    requires Reachable(s0, steps, s) && Newest(s, n, c0, server, request, Checked, id)
    ensures Reachable(s0, steps', s') && Entered(s', n, c0, server, request, InTable, id)
  {
    steps', s' := Advance(s0, steps, s, Enter(|s.calls| - 1));
  }

  lemma FailSend(s0: State, steps: seq<Step>, s: State, n: nat, c0: Call, server: Server, request: Message, id: U32)
    returns (steps': seq<Step>, s': State)
    requires Reachable(s0, steps, s) && Entered(s, n, c0, server, request, InTable, id)
    ensures Reachable(s0, steps', s') && Idle(s', n, c0, server)
  {
    var m;
    var k := |s.calls| - 1;
    steps', m := Advance(s0, steps, s, Send(k, false));
    assert Entered(m, n, c0, server, request, SendFailed, id);
    steps', s' := Advance(s0, steps', m, EraseFailed(k));
    assert s'.client.pending == map[];
  }

  /** A call from its first draw to its check; the reserved ids cost a second draw. */
  lemma OneSearch(s0: State, steps: seq<Step>, s: State, n: nat, c0: Call, server: Server, request: Message)
    returns (steps': seq<Step>, s': State)
    requires Reachable(s0, steps, s) && Idle(s, n, c0, server)
    ensures Reachable(s0, steps', s')
    ensures if Reserved(DrawnAt(n)) then Newest(s', n + 2, c0, server, request, Checked, DrawnAt(n + 1))
            else Newest(s', n + 1, c0, server, request, Checked, DrawnAt(n))
  {
    var m;
    steps', m := BeginCall(s0, steps, s, n, c0, server, request);
    steps', m := DrawOnce(s0, steps', m, n, c0, server, request, Drawing(false), 0);
    if Reserved(DrawnAt(n)) {
      steps', m := DrawOnce(s0, steps', m, n + 1, c0, server, request, Redrawing(false), DrawnAt(n));
      steps', s' := CheckId(s0, steps', m, n + 2, c0, server, request, DrawnAt(n + 1));
    } else {
      steps', s' := CheckId(s0, steps', m, n + 1, c0, server, request, DrawnAt(n));
    }
  }

  lemma FailedCall(s0: State, steps: seq<Step>, s: State, n: nat, c0: Call, server: Server)
    returns (steps': seq<Step>, s': State)
    requires Reachable(s0, steps, s) && Idle(s, n, c0, server)
    ensures Reachable(s0, steps', s')
    ensures Idle(s', if Reserved(DrawnAt(n)) then n + 2 else n + 1, c0, server)
  {
    var m;
    steps', m := OneSearch(s0, steps, s, n, c0, server, []);
    var n', id := |m.drawn|, m.calls[|m.calls| - 1].id;
    steps', m := EnterTable(s0, steps', m, n', c0, server, [], id);
    steps', s' := FailSend(s0, steps', m, n', c0, server, [], id);
  }

  /** From the second draw up to the one that will give the upper reserved id. */
  lemma {:induction false} ManyFailedCalls(s0: State, steps: seq<Step>, s: State, c0: Call, server: Server, n: nat)
    returns (steps': seq<Step>, s': State)
    requires Reachable(s0, steps, s) && Idle(s, 1, c0, server) && 1 <= n <= TWO_32 - 2
    ensures Reachable(s0, steps', s') && Idle(s', n, c0, server)
    decreases n
  {
    if n == 1 {
      steps', s' := steps, s;
    } else {
      var m;
      steps', m := ManyFailedCalls(s0, steps, s, c0, server, n - 1);
      SmallDraw(n - 1);
      steps', s' := FailedCall(s0, steps', m, n - 1, c0, server);
    }
  }

  lemma SmallDraw(d: nat)
    requires d <= TWO_32 - 2
    ensures DrawnAt(d) == d + 1
  {}

  /** Once round: the call after these draws the id 1 again. */
  lemma OnceRound(s0: State, steps: seq<Step>, s: State, c0: Call, server: Server, request: Message)
    returns (steps': seq<Step>, s': State)
    requires Reachable(s0, steps, s) && Idle(s, 1, c0, server)
    ensures Reachable(s0, steps', s')
    ensures Newest(s', TWO_32 + 1, c0, server, request, Checked, 1)
  {
    var m;
    steps', m := ManyFailedCalls(s0, steps, s, c0, server, TWO_32 - 2);
    SmallDraw(TWO_32 - 2);
    steps', m := FailedCall(s0, steps', m, TWO_32 - 2, c0, server);
    DrawnAtStart();
    assert DrawnAt(TWO_32) == 1;
    steps', s' := OneSearch(s0, steps', m, TWO_32, c0, server, request);
  }

  lemma EnterOver(s0: State, steps: seq<Step>, s: State, n: nat, c0: Call, b: Message)
    returns (steps': seq<Step>, s': State, u: nat)
    requires Initial(s0) && Reachable(s0, steps, s)
    requires Entered(s, n, c0, Serving, b, InTable, 1) && c0.pc.Checked? && c0.id == 1
    ensures Reachable(s0, steps', s') && s'.drawn == s.drawn
    ensures 0 < u < |s'.calls| && s'.calls[u].pc.InTable? && s'.calls[0].draw == c0.draw
    ensures u in s'.client.promises && s'.client.promises[u] == Overwritten(0)
  {
    u := |s.calls| - 1;
    RunKeepsTable(s0, steps, s);
    assert CallConsistent(s.calls[0], 0, s.client.pending, s.client.promises);
    steps', s' := Advance(s0, steps, s, Enter(0));
  }

  /**
    The window of a registration is tight: a call that dawdles for a whole turn between its
    check and its registration replaces the entry of the call that has the id by now.
  */
  lemma LateRegistrationOverwrites(a: Message, b: Message) returns (s0: State, steps: seq<Step>, s: State, u: nat)
    ensures Initial(s0) && Reachable(s0, steps, s)
    ensures 0 < u < |s.calls| && s.calls[u].pc.InTable?
    ensures u in s.client.promises && s.client.promises[u] == Overwritten(0)
    ensures |s.drawn| == s.calls[0].draw + TWO_32 + 1
  {
    s0, steps, s := OneIdChecked(a, true);
    var c0 := s.calls[0];
    DrawnAtSucc(0);
    DrawnAtStart();
    steps, s := OnceRound(s0, steps, s, c0, Serving, b);
    steps, s := EnterTable(s0, steps, s, TWO_32 + 1, c0, Serving, b, 1);
    steps, s, u := EnterOver(s0, steps, s, TWO_32 + 1, c0, b);
  }

  lemma GiveUp(s0: State, steps: seq<Step>, s: State, a: Message, server: Server)
    returns (steps': seq<Step>, s': State)
    requires Reachable(s0, steps, s) && Quiet(s, 1, Call(a, false, Waiting, 1, 0, false, 0), server)
    requires |s.calls| == 1 && s.holder.None? && s.client.pending == map[1 := 0] && s.client.promises == map[0 := Unset]
    ensures Reachable(s0, steps', s') && Idle(s', 1, Call(a, false, Done(Expiry), 1, 0, false, 0), server)
  {
    var m;
    steps', m := Advance(s0, steps, s, Expire(0));
    steps', s' := Advance(s0, steps', m, EraseExpired(0));
    assert s'.client.pending == map[];
  }

  /** The server is busy with call 0, which has given up. */
  lemma SlowAnswer(a: Message) returns (s0: State, steps: seq<Step>, s: State)
    requires |a| < TWO_32
    ensures Initial(s0) && Reachable(s0, steps, s)
    ensures Idle(s, 1, Call(a, false, Done(Expiry), 1, 0, false, 0), Working(Tagged(Frame(a, 1, FLAG_REQUEST), Some(0))))
  {
    s0, steps, s := OneRequestSent(a, false);
    DrawnAtSucc(0);
    DrawnAtStart();
    steps, s := Advance(s0, steps, s, ServerTake);
    steps, s := GiveUp(s0, steps, s, a, s.server);
  }

  /** The newest call has sent its request, and the answer to call 0 is on its way. */
  lemma AnswerUnderway(s0: State, steps: seq<Step>, s: State, n: nat, c0: Call, a: Message, b: Message, result: HandlerResult)
    returns (steps': seq<Step>, s': State)
    requires Reachable(s0, steps, s) && |b| < TWO_32 && |Answer(result)| < TWO_32
    requires Entered(s, n, c0, Working(Tagged(Frame(a, 1, FLAG_REQUEST), Some(0))), b, InTable, 1)
    ensures Reachable(s0, steps', s') && |s'.calls| == |s.calls| > 1 && s'.drawn == s.drawn
    ensures s'.calls[|s.calls| - 1].request == b && s'.calls[|s.calls| - 1].pc == Waiting
    ensures s'.client.pending == map[1 := |s.calls| - 1]
    ensures s'.handled == map[0 := Handling(a, result)] && s'.holder.None? && s'.receiver.Receiving?
    ensures s'.toClient == [Tagged(Frame(Answer(result), 1, FLAG_RESPONSE), Some(0))]
  {
    var m;
    steps', m := Advance(s0, steps, s, Send(|s.calls| - 1, true));
    steps', s' := ReplyNow(s0, steps', m, a, result);
  }

  lemma ReplyNow(s0: State, steps: seq<Step>, s: State, a: Message, result: HandlerResult)
    returns (steps': seq<Step>, s': State)
    requires Reachable(s0, steps, s) && |Answer(result)| < TWO_32
    requires s.server == Working(Tagged(Frame(a, 1, FLAG_REQUEST), Some(0)))
    requires s.toClient == [] && s.handled == map[] && s.receiver.Looping? && !s.stop
    ensures Reachable(s0, steps', s') && s'.calls == s.calls && s'.client == s.client && s'.holder == s.holder
    ensures s'.drawn == s.drawn
    ensures s'.handled == map[0 := Handling(a, result)] && s'.receiver.Receiving?
    ensures s'.toClient == [Tagged(Frame(Answer(result), 1, FLAG_RESPONSE), Some(0))]
  {
    var m;
    steps', m := Advance(s0, steps, s, ServerReply(result, ReplySent));
    steps', s' := Advance(s0, steps', m, ReadStopFlag);
  }

  /** The answer to call 0 arrives while the newest call waits under the same id. */
  lemma LateAnswer(s0: State, steps: seq<Step>, s: State, n: nat, c0: Call, a: Message, b: Message, result: HandlerResult)
    returns (steps': seq<Step>, s': State)
    requires Reachable(s0, steps, s) && |b| < TWO_32 && |Answer(result)| < TWO_32
    requires Entered(s, n, c0, Working(Tagged(Frame(a, 1, FLAG_REQUEST), Some(0))), b, InTable, 1)
    ensures Reachable(s0, steps', s') && |s'.calls| == |s.calls| && s'.drawn == s.drawn
    ensures s'.calls[|s.calls| - 1].request == b
    ensures s'.calls[|s.calls| - 1].pc == Done(Success(Answer(result)))
    ensures s'.handled == map[0 := Handling(a, result)]
  {
    var m;
    steps', m := AnswerUnderway(s0, steps, s, n, c0, a, b, result);
    steps', m := DeliverOne(s0, steps', m, m.toClient[0]);
    steps', s' := Advance(s0, steps', m, Collect(|s.calls| - 1, 0));
  }

  lemma DeliverOne(s0: State, steps: seq<Step>, s: State, reply: Tagged) returns (steps': seq<Step>, s': State)
    requires Reachable(s0, steps, s) && s.receiver.Receiving? && s.toClient == [reply] && s.holder.None?
    requires IsAnswer(reply.frame) && reply.frame.messageId in s.client.pending
    ensures Reachable(s0, steps', s') && s'.calls == s.calls && s'.handled == s.handled && s'.drawn == s.drawn
    ensures s'.client.promises == s.client.promises[s.client.pending[reply.frame.messageId] := Answered(reply.frame.payload)]
  {
    var m;
    steps', m := Advance(s0, steps, s, Receive);
    steps', s' := Advance(s0, steps', m, DispatchOne);
  }

  /**
    The window of the correlation is needed: a late answer can meet a call that was given the
    same id one turn later, and that call returns another request's answer.
  */
  lemma LateAnswerMisleads(a: Message, b: Message, result: HandlerResult)
    returns (s0: State, steps: seq<Step>, s: State, u: nat)
    requires |a| < TWO_32 && |b| < TWO_32 && |Answer(result)| < TWO_32
    ensures Initial(s0) && Reachable(s0, steps, s) && 0 < u < |s.calls|
    ensures s.calls[u].request == b && s.calls[u].pc == Done(Success(Answer(result)))
    ensures s.handled == map[0 := Handling(a, result)]
    ensures !HandledFor(s.calls, s.handled, u, Answer(result))
    ensures |s.drawn| == TWO_32 + 1
  {
    s0, steps, s := SlowAnswer(a);
    var c0, server := s.calls[0], s.server;
    steps, s := OnceRound(s0, steps, s, c0, server, b);
    steps, s := EnterTable(s0, steps, s, TWO_32 + 1, c0, server, b, 1);
    u := |s.calls| - 1;
    steps, s := LateAnswer(s0, steps, s, TWO_32 + 1, c0, a, b, result);
  }

  ghost predicate AllCorrelated(s: State) {
    forall t :: 0 <= t < |s.calls| && s.calls[t].pc.Done? && s.calls[t].pc.outcome.Success? ==>
      HandledFor(s.calls, s.handled, t, s.calls[t].pc.outcome.message)
  }

  ghost predicate CorrelatesUpTo(n: nat) {
    forall s0, steps, s :: Initial(s0) && Reachable(s0, steps, s) && |s.drawn| <= n ==> AllCorrelated(s)
  }

  /** 2^32 is the exact number of draws up to which every call gets its own answer in every run. */
  lemma CorrelationBound(n: nat)
    ensures CorrelatesUpTo(n) <==> n <= TWO_32
  {
    if n <= TWO_32 {
      forall s0, steps, s | Initial(s0) && Reachable(s0, steps, s) && |s.drawn| <= n ensures AllCorrelated(s) {
        FewDrawsStayInWindow(s0, steps, s);
        forall t | 0 <= t < |s.calls| && s.calls[t].pc.Done? && s.calls[t].pc.outcome.Success?
          ensures HandledFor(s.calls, s.handled, t, s.calls[t].pc.outcome.message)
        {
          Correlation(s0, steps, s, t);
        }
      }
    } else {
      var s0, steps, s, u := LateAnswerMisleads([], [], Threw);
      assert !AllCorrelated(s);
    }
  }
}
