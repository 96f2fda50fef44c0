/** What happens to the promise of every request, in every run of one connection. */
module RpcResolution {
  import opened Words
  import opened Frames
  import opened RpcClient
  import opened RpcProtocol

  // ---------------------------------------------------------------------------------------
  // Once and for all
  // ---------------------------------------------------------------------------------------

  /** A promise that was set or destroyed stays as it is. */
  ghost predicate KeepsSettled(before: map<nat, Promise>, after: map<nat, Promise>) {
    forall t :: t in before ==> t in after && (before[t].Unset? || after[t] == before[t])
  }

  lemma StepKeepsSettled(s: State, step: Step)
    requires TableOk(s) && Enabled(s, step)
    ensures KeepsSettled(s.client.promises, Apply(s, step).client.promises)
  {
    if TouchesTable(step) {
      TableIsValid(s);
    } else {
      TableUntouched(s, step);
    }
  }

  lemma {:induction false} RunKeepsTable(s: State, steps: seq<Step>, s': State)
    requires TableOk(s) && Reachable(s, steps, s')
    ensures TableOk(s') && KeepsSettled(s.client.promises, s'.client.promises)
    decreases |steps|
  {
    if steps != [] {
      StepKeepsTable(s, steps[0]);
      StepKeepsSettled(s, steps[0]);
      RunKeepsTable(Apply(s, steps[0]), steps[1..], s');
    }
  }

  /**
    In every run a request has its own table entry exactly as long as its promise is unset
    and it has not finished; what then happens to the promise is final, and it is what the
    caller gets to see.
  */
  lemma ResolvedOnce(s0: State, steps: seq<Step>, m: State, more: seq<Step>, s: State, t: nat)
    requires Initial(s0) && Reachable(s0, steps, m) && Reachable(m, more, s) && t < |m.calls|
    ensures InFlight(m.calls[t]) ==>
              t in m.client.promises
              && (m.client.promises[t].Unset? <==> Owns(m.client.pending, m.calls[t].id, t))
    ensures m.calls[t].pc.Done? ==>
              t in m.client.promises && Fits(m.calls[t].pc.outcome, m.client.promises[t])
    ensures Owns(m.client.pending, m.calls[t].id, t) ==> InFlight(m.calls[t])
    ensures t in m.client.promises && !m.client.promises[t].Unset? ==>
              t in s.client.promises && s.client.promises[t] == m.client.promises[t]
  {
    RunKeepsTable(s0, steps, m);
    RunKeepsTable(m, more, s);
    assert CallConsistent(m.calls[t], t, m.client.pending, m.client.promises);
    if Owns(m.client.pending, m.calls[t].id, t) {
      assert EntryConsistent(m.calls, m.calls[t].id, t, m.client.promises);
    }
  }

  /** Registering and waiting are never blocked by more than the mutex or the missing answer. */
  lemma CallsCanGoOn(s0: State, steps: seq<Step>, s: State, t: nat, rtt: U64)
    requires Initial(s0) && Reachable(s0, steps, s) && t < |s.calls|
    ensures s.calls[t].pc.Checked? && s.holder.None? ==> Enabled(s, Enter(t))
    ensures s.calls[t].pc.Waiting? ==>
              Enabled(s, Collect(t, rtt)) || Owns(s.client.pending, s.calls[t].id, t)
    ensures s.calls[t].pc.Waiting? && !s.calls[t].forever ==> Enabled(s, Collect(t, rtt)) || Enabled(s, Expire(t))
    ensures Enabled(s, Expire(t)) ==> !s.calls[t].forever && Owns(s.client.pending, s.calls[t].id, t)
  {
    RunKeepsTable(s0, steps, s);
    assert CallConsistent(s.calls[t], t, s.client.pending, s.client.promises);
  }

  // ---------------------------------------------------------------------------------------
  // Requests with id 0
  // ---------------------------------------------------------------------------------------

  ghost predicate ZeroUnanswered(calls: seq<Call>, promises: map<nat, Promise>) {
    forall t :: t in promises && promises[t].Answered? ==> t < |calls| && HasId(calls[t]) && calls[t].id != NO_MESSAGE_ID
  }

  lemma DispatchKeepsZeroUnanswered(s: State, step: Step)
    requires TableOk(s) && ZeroUnanswered(s.calls, s.client.promises) && Enabled(s, step) && step.DispatchOne?
    ensures ZeroUnanswered(s.calls, Apply(s, step).client.promises)
  {
    var f := s.receiver.tagged.frame;
    if f.messageId in s.client.pending {
      assert EntryConsistent(s.calls, f.messageId, s.client.pending[f.messageId], s.client.promises);
    }
  }

  /** Only the dispatch of an answer makes a promise answered. */
  lemma OthersAnswerNothing(s: State, step: Step, t: nat)
    requires Enabled(s, step) && !step.DispatchOne?
    requires t in Apply(s, step).client.promises && Apply(s, step).client.promises[t].Answered?
    ensures t in s.client.promises && s.client.promises[t].Answered?
  {
    if !TouchesTable(step) {
      TableUntouched(s, step);
    }
  }

  lemma StepKeepsZeroUnanswered(s: State, step: Step)
    requires TableOk(s) && ZeroUnanswered(s.calls, s.client.promises) && Enabled(s, step)
    ensures var s' := Apply(s, step); ZeroUnanswered(s'.calls, s'.client.promises)
  {
    var s' := Apply(s, step);
    if step.DispatchOne? {
      DispatchKeepsZeroUnanswered(s, step);
    } else {
      if IsCallStep(step) {
        CallStepShape(s, step);
        assert CallConsistent(s.calls[step.call], step.call, s.client.pending, s.client.promises);
      } else if !step.Begin? {
        OtherStepShape(s, step);
      }
      forall t | t in s'.client.promises && s'.client.promises[t].Answered?
        ensures t < |s'.calls| && HasId(s'.calls[t]) && s'.calls[t].id != NO_MESSAGE_ID
      {
        OthersAnswerNothing(s, step, t);
      }
    }
  }

  lemma {:induction false} RunKeepsZeroUnanswered(s: State, steps: seq<Step>, s': State)
    requires TableOk(s) && ZeroUnanswered(s.calls, s.client.promises) && Reachable(s, steps, s')
    ensures TableOk(s') && ZeroUnanswered(s'.calls, s'.client.promises)
    decreases |steps|
  {
    if steps != [] {
      StepKeepsTable(s, steps[0]);
      StepKeepsZeroUnanswered(s, steps[0]);
      RunKeepsZeroUnanswered(Apply(s, steps[0]), steps[1..], s');
    }
  }

  /** A call that was given the id 0 by the single redraw never returns a response. */
  lemma ZeroIdNeverSucceeds(s0: State, steps: seq<Step>, s: State, t: nat)
    requires Initial(s0) && Reachable(s0, steps, s) && t < |s.calls|
    requires s.calls[t].pc.Done? && s.calls[t].id == NO_MESSAGE_ID
    ensures !s.calls[t].pc.outcome.Success?
  {
    RunKeepsZeroUnanswered(s0, steps, s);
    assert CallConsistent(s.calls[t], t, s.client.pending, s.client.promises);
  }

  // ---------------------------------------------------------------------------------------
  // Entries that the receiver leaves behind
  // ---------------------------------------------------------------------------------------

  ghost predicate LateOk(s: State) {
    && (Rejected(s) ==>
          forall id :: id in s.client.pending ==> s.client.pending[id] < |s.calls| && s.calls[s.client.pending[id]].late)
    && (!Rejected(s) ==> forall t :: 0 <= t < |s.calls| ==> !s.calls[t].late)
  }

  lemma CallStepKeepsLate(s: State, step: Step)
    requires LateOk(s) && Enabled(s, step) && IsCallStep(step)
    ensures LateOk(Apply(s, step))
  {
    CallStepShape(s, step);
  }

  /** The steps of no call only take entries away, all of them when they are rejected. */
  lemma OtherStepShrinksTable(s: State, step: Step)
    requires Enabled(s, step) && !IsCallStep(step)
    ensures var s' := Apply(s, step);
            && (step.RejectPending? ==> s'.client.pending == map[])
            && (!step.RejectPending? ==> (Rejected(s') <==> Rejected(s)))
            && forall id :: id in s'.client.pending ==> id in s.client.pending && s'.client.pending[id] == s.client.pending[id]
  {}

  lemma OtherStepKeepsLate(s: State, s': State, rejects: bool)
    requires LateOk(s) && s'.calls == s.calls
    requires if rejects then s'.client.pending == map[] && Rejected(s') else (Rejected(s') <==> Rejected(s))
    requires forall id :: id in s'.client.pending ==> id in s.client.pending && s'.client.pending[id] == s.client.pending[id]
    ensures LateOk(s')
  {}

  lemma StepKeepsLate(s: State, step: Step)
    requires LateOk(s) && Enabled(s, step)
    ensures LateOk(Apply(s, step))
  {
    if IsCallStep(step) {
      CallStepKeepsLate(s, step);
    } else if !step.Begin? {
      OtherStepShape(s, step);
      OtherStepShrinksTable(s, step);
      OtherStepKeepsLate(s, Apply(s, step), step.RejectPending?);
    }
  }

  lemma {:induction false} RunKeepsLate(s: State, steps: seq<Step>, s': State)
    requires LateOk(s) && TableOk(s) && Reachable(s, steps, s')
    ensures LateOk(s') && TableOk(s')
    decreases |steps|
  {
    if steps != [] {
      StepKeepsLate(s, steps[0]);
      StepKeepsTable(s, steps[0]);
      RunKeepsLate(Apply(s, steps[0]), steps[1..], s');
    }
  }

  ghost predicate OnlyLateEntries(s: State) {
    forall id :: id in s.client.pending ==> s.client.pending[id] < |s.calls| && s.calls[s.client.pending[id]].late
  }

  /**
    Once the receiver has ended, every entry still there was registered after the pending
    requests were rejected, if and only if the receiver ended by an error or no entry is
    left: leaving the loop because of the stop flag rejects nothing.
  */
  lemma LeftoverEntries(s0: State, steps: seq<Step>, s: State)
    requires Initial(s0) && Reachable(s0, steps, s) && s.receiver.Stopped?
    ensures OnlyLateEntries(s) <==> s.receiver.afterError || s.client.pending == map[]
  {
    RunKeepsLate(s0, steps, s);
  }

  lemma {:induction false} ReachableSnoc(s: State, steps: seq<Step>, m: State, step: Step)
    requires Reachable(s, steps, m) && Enabled(m, step)
    ensures Reachable(s, steps + [step], Apply(m, step))
    decreases |steps|
  {
    if steps == [] {
      assert [step][1..] == [];
      assert Reachable(Apply(s, step), [], Apply(m, step));
      assert steps + [step] == [step];
    } else {
      ReachableSnoc(Apply(s, steps[0]), steps[1..], m, step);
      assert (steps + [step])[1..] == steps[1..] + [step];
    }
  }

  /** A call that waits without limit while the receiver is gone. */
  ghost predicate Stranded(s: State, t: nat) {
    && s.receiver.Stopped?
    && t < |s.calls| && s.calls[t].forever
    && (s.calls[t].pc.Waiting? || s.calls[t].pc == Done(BrokenPromise))
    && t in s.client.promises && !s.client.promises[t].Answered? && !s.client.promises[t].Disconnected?
  }

  lemma StepKeepsStranded(s: State, step: Step, t: nat)
    requires Stranded(s, t) && Enabled(s, step)
    ensures Stranded(Apply(s, step), t)
  {
    if IsCallStep(step) {
      CallStepShape(s, step);
    } else if !step.Begin? {
      OtherStepShape(s, step);
    }
  }

  /** Nothing that happens on the connection afterwards lets it return or raise the disconnection. */
  lemma {:induction false} StrandedForGood(s: State, steps: seq<Step>, s': State, t: nat)
    requires Stranded(s, t) && Reachable(s, steps, s')
    ensures Stranded(s', t)
    decreases |steps|
  {
    if steps != [] {
      StepKeepsStranded(s, steps[0], t);
      StrandedForGood(Apply(s, steps[0]), steps[1..], s', t);
    }
  }

  function Fresh(calls: seq<Call>, drawn: seq<nat>, holder: Option<nat>, next: U32): State {
    State(Shared(next, map[], map[], [], None, PipeStats.ZERO), calls, drawn, holder, [], [],
          Looping, Serving, false, map[], [], [], [], None, Tally(0, 0, 0))
  }

  lemma OneIdDrawn(request: Message, forever: bool) returns (s0: State, steps: seq<Step>, s: State)
    ensures Initial(s0) && Reachable(s0, steps, s)
    ensures s == Fresh([Call(request, forever, Drawn(false), 1, 0, false, 0)], [0], None, 2)
  {
    s0 := Fresh([], [], None, 1);
    var c := Call(request, forever, Drawing(false), 0, 0, false, 0);
    steps, s := [], s0;
    ReachableSnoc(s0, steps, s, Begin(request, forever));
    steps, s := steps + [Begin(request, forever)], Fresh([c], [], None, 1);
    ReachableSnoc(s0, steps, s, Draw(0));
    steps, s := steps + [Draw(0)], Apply(s, Draw(0));
    assert s.calls == [c.(pc := Drawn(false), id := 1)] && s.drawn == [0];
  }

  /** One call draws the id 1 and finds it unused. */
  lemma OneIdChecked(request: Message, forever: bool) returns (s0: State, steps: seq<Step>, s: State)
    ensures Initial(s0) && Reachable(s0, steps, s)
    ensures s == Fresh([Call(request, forever, Checked, 1, 0, false, 0)], [0], None, 2)
  {
    s0, steps, s := OneIdDrawn(request, forever);
    var c := s.calls[0];
    ReachableSnoc(s0, steps, s, Lock(0));
    steps, s := steps + [Lock(0)], Apply(s, Lock(0));
    assert s.calls == [c.(pc := Drawn(true))];
    ReachableSnoc(s0, steps, s, Probe(0));
    steps, s := steps + [Probe(0)], Apply(s, Probe(0));
    assert s.calls == [c.(pc := Checked)];
  }

  /** One call is registered and sent. */
  lemma OneRequestSent(request: Message, forever: bool) returns (s0: State, steps: seq<Step>, s: State)
    requires |request| < TWO_32
    ensures Initial(s0) && Reachable(s0, steps, s) && s.receiver.Looping? && !s.stop
    ensures |s.calls| == 1 && s.calls[0] == Call(request, forever, Waiting, 1, 0, false, 0)
    ensures s.client.pending == map[1 := 0] && s.client.promises == map[0 := Unset]
    ensures s.drawn == [0] && s.client.next == 2 && s.holder.None? && s.server.Serving? && s.handled == map[]
    ensures s.toServer == [Tagged(Frame(request, 1, FLAG_REQUEST), Some(0))] && s.toClient == []
  {
    s0, steps, s := OneIdChecked(request, forever);
    ReachableSnoc(s0, steps, s, Enter(0));
    steps, s := steps + [Enter(0)], Apply(s, Enter(0));
    ReachableSnoc(s0, steps, s, Send(0, true));
    steps, s := steps + [Send(0, true)], Apply(s, Send(0, true));
  }

  /** close() while the receiver is between two frames: a request registered before is never told. */
  lemma StopFlagStrands(request: Message) returns (s0: State, steps: seq<Step>, s: State)
    requires |request| < TWO_32
    ensures Initial(s0) && Reachable(s0, steps, s)
    ensures Stranded(s, 0) && s.calls[0].pc.Waiting? && !OnlyLateEntries(s)
  {
    s0, steps, s := OneRequestSent(request, true);
    ReachableSnoc(s0, steps, s, Close);
    steps, s := steps + [Close], Apply(s, Close);
    ReachableSnoc(s0, steps, s, ReadStopFlag);
    steps, s := steps + [ReadStopFlag], Apply(s, ReadStopFlag);
    assert 1 in s.client.pending;
  }
}
