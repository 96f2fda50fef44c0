/** How the end of each call and each error that is raised follow from the steps of the run. */
module RpcHistory {
  import opened Words
  import opened RpcIds
  import opened RpcClient
  import opened RpcProtocol
  import opened RpcResolution
  import P = PosixPipe

  ghost predicate Collected(past: set<Step>, t: nat) {
    exists rtt :: Collect(t, rtt) in past
  }

  /** A call ends by what it collects, or by its own failed send or expired wait. */
  ghost predicate EndsBy(past: set<Step>, c: Call, t: nat, p: Promise)
    requires c.pc.Done?
  {
    match c.pc.outcome
    case Success(m) => Collect(t, c.rtt) in past && p == Answered(m)
    case Disconnection(e) => Collected(past, t) && p == Disconnected(e)
    case BrokenPromise => Collected(past, t) && (p.Erased? || p.Overwritten?)
    case SendFailure => !Collected(past, t) && Send(t, false) in past && EraseFailed(t) in past
    case Expiry => !Collected(past, t) && Expire(t) in past && EraseExpired(t) in past && !c.forever
  }

  /** Where a call is, against the steps so far. */
  ghost predicate CallFollows(past: set<Step>, c: Call, t: nat, promises: map<nat, Promise>) {
    && (c.pc.SendFailed? ==> Send(t, false) in past)
    && (c.pc.Expired? ==> Expire(t) in past && !c.forever)
    && (!c.pc.Done? ==> !Collected(past, t))
    && (c.pc.Done? ==> t in promises && !promises[t].Unset? && EndsBy(past, c, t, promises[t]))
  }

  ghost predicate CallsFollow(past: set<Step>, calls: seq<Call>, promises: map<nat, Promise>) {
    && (forall t :: 0 <= t < |calls| ==> CallFollows(past, calls[t], t, promises))
    && (forall t: nat, rtt: U64 :: Collect(t, rtt) in past ==> t < |calls|)
  }

  /** Every error anybody is told comes from a receive that failed with it. */
  ghost predicate ErrorsFollow(past: set<Step>, s: State) {
    && (s.receiver.Rejecting? || s.receiver.Announcing? ==> RecvFails(s.receiver.error) in past)
    && (s.client.recvExc.Some? ==> RecvFails(s.client.recvExc.value) in past)
    && (s.raised.Some? ==> RecvFails(s.raised.value) in past)
    && (forall t :: t in s.client.promises && s.client.promises[t].Disconnected? ==>
          RecvFails(s.client.promises[t].error) in past)
  }

  lemma StepKeepsErrors(past: set<Step>, s: State, step: Step)
    requires ErrorsFollow(past, s) && Enabled(s, step)
    ensures ErrorsFollow(past + {step}, Apply(s, step))
  {
    if IsCallStep(step) {
      EffectLeavesErrors(s, step);
    }
  }

  lemma EffectLeavesErrors(s: State, step: Step)
    requires Enabled(s, step) && IsCallStep(step)
    ensures var s' := Effect(s, step);
            && s'.receiver == s.receiver && s'.client.recvExc == s.client.recvExc && s'.raised == s.raised
            && forall t :: t in s'.client.promises && s'.client.promises[t].Disconnected? ==>
                 t in s.client.promises && s'.client.promises[t] == s.client.promises[t]
  {}

  lemma CollectFollows(past: set<Step>, s: State, step: Step)
    requires Enabled(s, step) && step.Collect?
    ensures CallFollows(past + {step}, Moved(s, step), step.call, s.client.promises)
  {
    assert Collect(step.call, step.rtt) in past + {step};
    assert Collected(past + {step}, step.call);
  }

  lemma EarlierFollows(past: set<Step>, s: State, step: Step, promises: map<nat, Promise>)
    requires Enabled(s, step) && IsCallStep(step) && !step.Collect?
    requires CallFollows(past, s.calls[step.call], step.call, s.client.promises)
    requires step.EraseFailed? || step.EraseExpired? ==> step.call in promises && !promises[step.call].Unset?
    ensures CallFollows(past + {step}, Moved(s, step), step.call, promises)
  {
    assert Collected(past + {step}, step.call) <==> Collected(past, step.call);
  }

  /** The step of a call, seen from the call. */
  lemma MoveFollows(past: set<Step>, s: State, step: Step)
    requires TableOk(s) && Enabled(s, step) && IsCallStep(step)
    requires CallFollows(past, s.calls[step.call], step.call, s.client.promises)
    ensures CallFollows(past + {step}, Moved(s, step), step.call, Apply(s, step).client.promises)
  {
    var t, s' := step.call, Apply(s, step);
    if step.Collect? {
      CollectFollows(past, s, step);
      TableUntouched(s, step);
    } else {
      StepKeepsTable(s, step);
      CallStepShape(s, step);
      assert CallConsistent(s'.calls[t], t, s'.client.pending, s'.client.promises);
      EarlierFollows(past, s, step, s'.client.promises);
    }
  }

  /** The other calls: what was settled stays. */
  lemma OthersFollow(past: set<Step>, step: Step, c: Call, t: nat, promises: map<nat, Promise>, promises': map<nat, Promise>)
    requires CallFollows(past, c, t, promises) && (step.Collect? ==> step.call != t)
    requires t in promises && !promises[t].Unset? ==> t in promises' && promises'[t] == promises[t]
    ensures CallFollows(past + {step}, c, t, promises')
  {
    assert Collected(past + {step}, t) <==> Collected(past, t);
  }

  lemma StepKeepsCalls(past: set<Step>, s: State, step: Step)
    requires TableOk(s) && CallsFollow(past, s.calls, s.client.promises) && Enabled(s, step)
    ensures CallsFollow(past + {step}, Apply(s, step).calls, Apply(s, step).client.promises)
  {
    var s' := Apply(s, step);
    StepKeepsSettled(s, step);
    if IsCallStep(step) {
      CallStepShape(s, step);
      MoveFollows(past, s, step);
    } else if !step.Begin? {
      OtherStepShape(s, step);
    }
    forall t | 0 <= t < |s'.calls| ensures CallFollows(past + {step}, s'.calls[t], t, s'.client.promises) {
      if t < |s.calls| && !(IsCallStep(step) && step.call == t) {
        OthersFollow(past, step, s.calls[t], t, s.client.promises, s'.client.promises);
      }
    }
  }

  function StepsOf(steps: seq<Step>): set<Step> {
    set step | step in steps
  }

  lemma {:induction false} RunFollows(past: set<Step>, s: State, steps: seq<Step>, s': State)
    requires TableOk(s) && CallsFollow(past, s.calls, s.client.promises) && ErrorsFollow(past, s)
    requires Reachable(s, steps, s')
    ensures CallsFollow(past + StepsOf(steps), s'.calls, s'.client.promises) && ErrorsFollow(past + StepsOf(steps), s')
    decreases |steps|
  {
    if steps == [] {
      assert past + StepsOf(steps) == past;
    } else {
      var m := Apply(s, steps[0]);
      StepKeepsTable(s, steps[0]);
      StepKeepsCalls(past, s, steps[0]);
      StepKeepsErrors(past, s, steps[0]);
      RunFollows(past + {steps[0]}, m, steps[1..], s');
      assert past + {steps[0]} + StepsOf(steps[1..]) == past + StepsOf(steps);
    }
  }

  lemma InitialFollows(s0: State, steps: seq<Step>, s: State)
    requires Initial(s0) && Reachable(s0, steps, s)
    ensures CallsFollow(StepsOf(steps), s.calls, s.client.promises) && ErrorsFollow(StepsOf(steps), s)
  {
    RunFollows({}, s0, steps, s);
    assert {} + StepsOf(steps) == StepsOf(steps);
  }

  /** The outcome that a settled promise gives the call that collects it. */
  ghost predicate Tells(p: Promise, outcome: Outcome) {
    match p
    case Unset => false
    case Answered(m) => outcome == Success(m)
    case Disconnected(e) => outcome == Disconnection(e)
    case _ => outcome == BrokenPromise
  }

  /**
    A call that has collected its promise returns the answer exactly if the promise is
    answered and raises a disconnection exactly if it was rejected with that error, which some
    receive has failed with. The calls that end without collecting are those whose own send
    failed and those that have a limit and saw it expire.
  */
  lemma CallEnds(s0: State, steps: seq<Step>, s: State, t: nat)
    requires Initial(s0) && Reachable(s0, steps, s)
    ensures Collected(StepsOf(steps), t) ==>
              && t < |s.calls| && s.calls[t].pc.Done? && t in s.client.promises
              && Tells(s.client.promises[t], s.calls[t].pc.outcome)
    ensures t < |s.calls| && s.calls[t].pc.Done? && !Collected(StepsOf(steps), t) ==>
              if s.calls[t].pc.outcome == Expiry then !s.calls[t].forever && Expire(t) in steps && EraseExpired(t) in steps
              else s.calls[t].pc.outcome == SendFailure && Send(t, false) in steps && EraseFailed(t) in steps
    ensures t < |s.calls| && s.calls[t].pc.Done? && s.calls[t].pc.outcome.Success? ==> Collect(t, s.calls[t].rtt) in steps
    ensures t < |s.calls| && s.calls[t].pc.Done? && s.calls[t].pc.outcome.Disconnection? ==>
              RecvFails(s.calls[t].pc.outcome.error) in steps
  {
    InitialFollows(s0, steps, s);
    if t < |s.calls| {
      assert CallFollows(StepsOf(steps), s.calls[t], t, s.client.promises);
    }
  }

  /** A promise that was rejected has its error from a receive that failed, as has whatever receive() raises. */
  lemma ErrorsAreReceived(s0: State, steps: seq<Step>, s: State)
    requires Initial(s0) && Reachable(s0, steps, s)
    ensures forall t :: t in s.client.promises && s.client.promises[t].Disconnected? ==>
              RecvFails(s.client.promises[t].error) in steps
    ensures s.client.recvExc.Some? ==> RecvFails(s.client.recvExc.value) in steps
    ensures s.raised.Some? ==> RecvFails(s.raised.value) in steps
  {
    InitialFollows(s0, steps, s);
  }
  // ---------------------------------------------------------------------------------------
  // The ends of the two loops
  // ---------------------------------------------------------------------------------------

  ghost predicate ReplyEnded(past: set<Step>) {
    exists r :: ServerReply(r, ReplyFatal) in past
  }

  ghost predicate ReceiveFailed(past: set<Step>) {
    exists e :: RecvFails(e) in past
  }

  ghost predicate EndsFollow(past: set<Step>, s: State) {
    && (s.server.Closed? ==> ServerStop in past || ReplyEnded(past))
    && (s.stop || s.receiver == Stopped(false) ==> Close in past)
    && (s.receiver.Rejecting? || s.receiver.Announcing? || s.receiver == Stopped(true) ==> ReceiveFailed(past))
  }

  lemma EffectLeavesEnds(s: State, step: Step)
    requires Enabled(s, step) && IsCallStep(step)
    ensures Effect(s, step).server == s.server && Effect(s, step).stop == s.stop && Effect(s, step).receiver == s.receiver
  {}

  lemma MorePast(past: set<Step>, step: Step)
    ensures ReplyEnded(past) ==> ReplyEnded(past + {step})
    ensures ReceiveFailed(past) ==> ReceiveFailed(past + {step})
    ensures step.ServerReply? && step.fate.ReplyFatal? ==> ReplyEnded(past + {step})
    ensures step.RecvFails? ==> ReceiveFailed(past + {step})
  {
    if ReplyEnded(past) {
      var r :| ServerReply(r, ReplyFatal) in past;
      assert ServerReply(r, ReplyFatal) in past + {step};
    }
    if ReceiveFailed(past) {
      var e :| RecvFails(e) in past;
      assert RecvFails(e) in past + {step};
    }
    assert step in past + {step};
  }

  lemma StepKeepsEnds(past: set<Step>, s: State, step: Step)
    requires EndsFollow(past, s) && Enabled(s, step)
    ensures EndsFollow(past + {step}, Apply(s, step))
  {
    MorePast(past, step);
    if IsCallStep(step) {
      EffectLeavesEnds(s, step);
    }
  }

  lemma {:induction false} RunKeepsEnds(past: set<Step>, s: State, steps: seq<Step>, s': State)
    requires EndsFollow(past, s) && Reachable(s, steps, s')
    ensures EndsFollow(past + StepsOf(steps), s')
    decreases |steps|
  {
    if steps == [] {
      assert past + StepsOf(steps) == past;
    } else {
      StepKeepsEnds(past, s, steps[0]);
      RunKeepsEnds(past + {steps[0]}, Apply(s, steps[0]), steps[1..], s');
      assert past + {steps[0]} + StepsOf(steps[1..]) == past + StepsOf(steps);
    }
  }

  /**
    The server ends only when it is told to or by a reply that failed, not by one that timed
    out; the receiver only by an error it was given or after close() has set the stop flag.
  */
  lemma LoopsEnd(s0: State, steps: seq<Step>, s: State)
    requires Initial(s0) && Reachable(s0, steps, s)
    ensures s.server.Closed? ==> ServerStop in steps || exists r :: ServerReply(r, ReplyFatal) in steps
    ensures s.receiver == Stopped(false) ==> Close in steps
    ensures s.receiver == Stopped(true) ==> exists e :: RecvFails(e) in steps
  {
    RunKeepsEnds({}, s0, steps, s);
    assert {} + StepsOf(steps) == StepsOf(steps);
    if s.server.Closed? && ServerStop !in steps {
      var r :| ServerReply(r, ReplyFatal) in StepsOf(steps);
    }
    if s.receiver == Stopped(true) {
      var e :| RecvFails(e) in StepsOf(steps);
    }
  }

  lemma ClosedStays(s: State, step: Step)
    requires Enabled(s, step) && s.server.Closed?
    ensures Apply(s, step).server.Closed? && Apply(s, step).handled == s.handled
  {
    if IsCallStep(step) {
      EffectLeavesEnds(s, step);
      EffectLeavesHandled(s, step);
    }
  }

  lemma EffectLeavesHandled(s: State, step: Step)
    requires Enabled(s, step) && IsCallStep(step)
    ensures Effect(s, step).handled == s.handled
  {}

  lemma {:induction false} NothingHandled(s: State, steps: seq<Step>, s': State)
    requires s.server.Closed? && Reachable(s, steps, s')
    ensures s'.handled == s.handled
    decreases |steps|
  {
    if steps != [] {
      ClosedStays(s, steps[0]);
      NothingHandled(Apply(s, steps[0]), steps[1..], s');
    }
  }

  /** After a reply that failed, nothing more is handled. */
  lemma FatalReplyEnds(s: State, step: Step, steps: seq<Step>, s': State)
    requires Enabled(s, step) && step.ServerReply? && step.fate.ReplyFatal?
    requires Reachable(Apply(s, step), steps, s')
    ensures s'.handled == Apply(s, step).handled
  {
    NothingHandled(Apply(s, step), steps, s');
  }

  // ---------------------------------------------------------------------------------------
  // Reserved ids
  // ---------------------------------------------------------------------------------------

  /** A reserved id is drawn again once; only the second draw of a round can leave a call with one. */
  ghost predicate RedrawnFrom(drawn: seq<nat>, c: Call, t: nat) {
    && (c.pc.Redrawing? ==> Reserved(c.id))
    && (HasId(c) && Reserved(c.id) && !c.pc.Redrawing? ==>
          exists d :: 0 <= d < c.draw && d < |drawn| && drawn[d] == t && Reserved(DrawnAt(d)))
  }

  ghost predicate Redrawn(drawn: seq<nat>, calls: seq<Call>) {
    forall t :: 0 <= t < |calls| ==> RedrawnFrom(drawn, calls[t], t)
  }

  lemma DrawKeepsRedrawn(s: State, t: nat)
    requires IdsTraced(s.client.next, s.drawn, s.calls) && Redrawn(s.drawn, s.calls) && Enabled(s, Draw(t))
    ensures Redrawn(Apply(s, Draw(t)).drawn, Apply(s, Draw(t)).calls)
  {
    var s', c := Apply(s, Draw(t)), s.calls[t];
    forall u | 0 <= u < |s'.calls| ensures RedrawnFrom(s'.drawn, s'.calls[u], u) {
      assert RedrawnFrom(s.drawn, s.calls[u], u);
      if u == t && c.pc.Redrawing? {
        assert Traced(s.drawn, c, t);
        assert s'.drawn[c.draw] == t && Reserved(DrawnAt(c.draw));
      } else if u != t && HasId(s.calls[u]) && Reserved(s.calls[u].id) && !s.calls[u].pc.Redrawing? {
        var d :| 0 <= d < s.calls[u].draw && d < |s.drawn| && s.drawn[d] == u && Reserved(DrawnAt(d));
        assert s'.drawn[d] == u;
      }
    }
  }

  lemma OthersKeepRedrawn(s: State, step: Step)
    requires Redrawn(s.drawn, s.calls) && Enabled(s, step) && !step.Draw?
    ensures Redrawn(Apply(s, step).drawn, Apply(s, step).calls)
  {
    var s' := Apply(s, step);
    StepKeepsIds(s, step);
    forall u | 0 <= u < |s'.calls| ensures RedrawnFrom(s'.drawn, s'.calls[u], u) {
      if u < |s.calls| {
        assert RedrawnFrom(s.drawn, s.calls[u], u);
        RedrawsStay(s, step, u);
      }
    }
  }

  lemma RedrawsStay(s: State, step: Step, u: nat)
    requires Enabled(s, step) && !step.Draw? && u < |s.calls|
    ensures u < |Apply(s, step).calls|
    ensures Apply(s, step).calls[u].pc.Redrawing? <==> s.calls[u].pc.Redrawing?
    ensures Apply(s, step).calls[u].pc.Redrawing? ==> Apply(s, step).calls[u].id == s.calls[u].id
  {
    if IsCallStep(step) {
      CallStepShape(s, step);
    } else if !step.Begin? {
      OtherStepShape(s, step);
    }
  }

  lemma {:induction false} RunKeepsRedrawn(s: State, steps: seq<Step>, s': State)
    requires IdsTraced(s.client.next, s.drawn, s.calls) && Redrawn(s.drawn, s.calls) && Reachable(s, steps, s')
    ensures Redrawn(s'.drawn, s'.calls)
    decreases |steps|
  {
    if steps != [] {
      var m := Apply(s, steps[0]);
      StepTracesIds(s, steps[0]);
      if steps[0].Draw? {
        DrawKeepsRedrawn(s, steps[0].call);
      } else {
        OthersKeepRedrawn(s, steps[0]);
      }
      RunKeepsRedrawn(m, steps[1..], s');
    }
  }

  /** A call that is registered under a reserved id has drawn a reserved value before that. */
  lemma ReservedIsRedrawn(s0: State, steps: seq<Step>, s: State, t: nat)
    requires Initial(s0) && Reachable(s0, steps, s) && t < |s.calls|
    requires HasRegistered(s.calls[t]) && Reserved(s.calls[t].id)
    ensures exists d :: 0 <= d < s.calls[t].draw && d < |s.drawn| && s.drawn[d] == t && Reserved(DrawnAt(d))
  {
    DrawnAtStart();
    RunKeepsRedrawn(s0, steps, s);
    assert RedrawnFrom(s.drawn, s.calls[t], t);
  }
}
