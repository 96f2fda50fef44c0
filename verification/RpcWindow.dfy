/**
  Testing an id for membership and inserting it are two critical sections. What keeps an
  insertion from replacing a live entry is how few draws can happen in between.
*/
module RpcWindow {
  import opened Words
  import opened RpcIds
  import opened RpcClient
  import opened RpcProtocol

  /** Fewer than 2^32 draws since the call's own draw. */
  predicate Prompt(s: State, t: nat)
    requires t < |s.calls|
  {
    |s.drawn| <= s.calls[t].draw + TWO_32
  }

  /** Every call in the run registers promptly. */
  ghost predicate RegistersPromptly(s: State, steps: seq<Step>)
    decreases |steps|
  {
    steps != [] && Enabled(s, steps[0]) ==>
      && (steps[0].Enter? ==> Prompt(s, steps[0].call))
      && RegistersPromptly(Apply(s, steps[0]), steps[1..])
  }

  /** An entry in the way of a call about to register drew its id a whole turn later. */
  ghost predicate RivalsAreLater(calls: seq<Call>, pending: map<U32, nat>) {
    forall t :: 0 <= t < |calls| && calls[t].pc.Checked? ==> RivalIsLater(calls, pending, calls[t])
  }

  ghost predicate RivalIsLater(calls: seq<Call>, pending: map<U32, nat>, c: Call) {
    c.id in pending ==> pending[c.id] < |calls| && calls[pending[c.id]].draw >= c.draw + TWO_32
  }

  ghost predicate NoneOverwritten(promises: map<nat, Promise>) {
    forall t :: t in promises ==> !promises[t].Overwritten?
  }

  ghost predicate WindowInv(s: State) {
    && TableOk(s) && IdsTraced(s.client.next, s.drawn, s.calls)
    && RivalsAreLater(s.calls, s.client.pending) && NoneOverwritten(s.client.promises)
  }

  lemma OwnerHasDrawn(s: State, id: U32)
    requires WindowInv(s) && id in s.client.pending
    ensures s.client.pending[id] < |s.calls| && s.calls[s.client.pending[id]].draw < |s.drawn|
  {
    var u := s.client.pending[id];
    assert EntryConsistent(s.calls, id, u, s.client.promises);
    assert Traced(s.drawn, s.calls[u], u);
  }

  lemma PromptFindsFree(s: State, t: nat)
    requires WindowInv(s) && At(s, t, Checked) && Prompt(s, t)
    ensures s.calls[t].id !in s.client.pending
  {
    assert RivalIsLater(s.calls, s.client.pending, s.calls[t]);
    if s.calls[t].id in s.client.pending {
      OwnerHasDrawn(s, s.calls[t].id);
    }
  }

  lemma EnterKeepsRivalsLater(s: State, step: Step)
    requires WindowInv(s) && Enabled(s, step) && step.Enter? && Prompt(s, step.call)
    ensures var s' := Apply(s, step); RivalsAreLater(s'.calls, s'.client.pending)
  {
    var s', me := Apply(s, step), step.call;
    PromptFindsFree(s, me);
    CallStepShape(s, step);
    forall t | 0 <= t < |s'.calls| && s'.calls[t].pc.Checked?
      ensures RivalIsLater(s'.calls, s'.client.pending, s'.calls[t])
    {
      assert RivalIsLater(s.calls, s.client.pending, s.calls[t]);
      assert Traced(s.drawn, s.calls[t], t) && Traced(s.drawn, s.calls[me], me);
      if s.calls[t].id == s.calls[me].id {
        if s.calls[me].draw < s.calls[t].draw {
          SameIdApart(s.calls[me].draw, s.calls[t].draw);
        } else if s.calls[t].draw < s.calls[me].draw {
          SameIdApart(s.calls[t].draw, s.calls[me].draw);
        }
      }
    }
  }

  lemma NoNewEntries(s: State, step: Step)
    requires Enabled(s, step) && !step.Enter?
    ensures forall id :: id in Apply(s, step).client.pending ==>
              id in s.client.pending && Apply(s, step).client.pending[id] == s.client.pending[id]
  {
    if !TouchesTable(step) {
      TableUntouched(s, step);
    }
  }

  lemma RivalsKept(calls: seq<Call>, calls': seq<Call>, pending: map<U32, nat>, pending': map<U32, nat>)
    requires RivalsAreLater(calls, pending)
    requires forall id :: id in pending' ==> id in pending && pending'[id] == pending[id]
    requires forall t :: 0 <= t < |calls'| && calls'[t].pc.Checked? && calls'[t].id in pending ==>
               t < |calls| && calls[t].pc.Checked? && calls[t].id == calls'[t].id && calls[t].draw == calls'[t].draw
    requires forall id :: id in pending && pending[id] < |calls| ==>
               pending[id] < |calls'| && calls'[pending[id]].draw == calls[pending[id]].draw
    ensures RivalsAreLater(calls', pending')
  {
    forall t | 0 <= t < |calls'| && calls'[t].pc.Checked? ensures RivalIsLater(calls', pending', calls'[t]) {
      if calls'[t].id in pending' {
        assert RivalIsLater(calls, pending, calls[t]);
      }
    }
  }

  lemma OwnersKeepDraws(s: State, step: Step, t: nat)
    requires Enabled(s, step) && t < |s.calls| && InFlight(s.calls[t])
    ensures t < |Apply(s, step).calls| && Apply(s, step).calls[t].draw == s.calls[t].draw
  {
    if IsCallStep(step) {
      CallStepShape(s, step);
    } else if !step.Begin? {
      OtherStepShape(s, step);
    }
  }

  lemma OtherKeepsRivalsLater(s: State, step: Step)
    requires WindowInv(s) && Enabled(s, step) && !step.Enter?
    ensures var s' := Apply(s, step); RivalsAreLater(s'.calls, s'.client.pending)
  {
    var calls', pending' := Apply(s, step).calls, Apply(s, step).client.pending;
    NoNewEntries(s, step);
    forall t | 0 <= t < |calls'| && calls'[t].pc.Checked? && calls'[t].id in s.client.pending
      ensures t < |s.calls| && s.calls[t].pc.Checked? && s.calls[t].id == calls'[t].id && s.calls[t].draw == calls'[t].draw
    {
      CheckedBefore(s, step, t);
    }
    forall id | id in s.client.pending
      ensures s.client.pending[id] < |calls'| && calls'[s.client.pending[id]].draw == s.calls[s.client.pending[id]].draw
    {
      assert EntryConsistent(s.calls, id, s.client.pending[id], s.client.promises);
      OwnersKeepDraws(s, step, s.client.pending[id]);
    }
    RivalsKept(s.calls, calls', s.client.pending, pending');
  }

  /** A call that is Checked was so before, or has just seen that its id is free. */
  lemma CheckedBefore(s: State, step: Step, t: nat)
    requires Enabled(s, step) && At(Apply(s, step), t, Checked)
    requires Apply(s, step).calls[t].id in s.client.pending
    ensures At(s, t, Checked) && s.calls[t].id == Apply(s, step).calls[t].id && s.calls[t].draw == Apply(s, step).calls[t].draw
  {
    if IsCallStep(step) {
      CallStepShape(s, step);
    } else if !step.Begin? {
      OtherStepShape(s, step);
    }
  }

  lemma OthersOverwriteNothing(s: State, step: Step, t: nat)
    requires Enabled(s, step) && !step.Enter?
    requires t in Apply(s, step).client.promises && Apply(s, step).client.promises[t].Overwritten?
    ensures t in s.client.promises && s.client.promises[t].Overwritten?
  {
    if !TouchesTable(step) {
      TableUntouched(s, step);
    }
  }

  lemma StepKeepsNoneOverwritten(s: State, step: Step)
    requires WindowInv(s) && Enabled(s, step) && (step.Enter? ==> Prompt(s, step.call))
    ensures NoneOverwritten(Apply(s, step).client.promises)
  {
    if step.Enter? {
      PromptFindsFree(s, step.call);
    } else {
      forall t | t in Apply(s, step).client.promises ensures !Apply(s, step).client.promises[t].Overwritten? {
        if Apply(s, step).client.promises[t].Overwritten? {
          OthersOverwriteNothing(s, step, t);
        }
      }
    }
  }

  lemma StepKeepsWindowInv(s: State, step: Step)
    requires WindowInv(s) && Enabled(s, step) && (step.Enter? ==> Prompt(s, step.call))
    ensures WindowInv(Apply(s, step))
  {
    StepKeepsTable(s, step);
    StepTracesIds(s, step);
    StepKeepsNoneOverwritten(s, step);
    if step.Enter? {
      EnterKeepsRivalsLater(s, step);
    } else {
      OtherKeepsRivalsLater(s, step);
    }
  }

  lemma {:induction false} RunKeepsWindowInv(s: State, steps: seq<Step>, s': State)
    requires WindowInv(s) && Reachable(s, steps, s') && RegistersPromptly(s, steps)
    ensures WindowInv(s')
    decreases |steps|
  {
    if steps != [] {
      StepKeepsWindowInv(s, steps[0]);
      RunKeepsWindowInv(Apply(s, steps[0]), steps[1..], s');
    }
  }

  lemma InitialWindowInv(s: State)
    requires Initial(s)
    ensures WindowInv(s)
  {
    DrawnAtStart();
  }

  /** While every registration is prompt, none replaces an entry, although the check came earlier. */
  lemma NoOverwrite(s0: State, steps: seq<Step>, s: State)
    requires Initial(s0) && Reachable(s0, steps, s) && RegistersPromptly(s0, steps)
    ensures NoneOverwritten(s.client.promises)
    ensures forall t :: 0 <= t < |s.calls| && s.calls[t].pc.Checked? && Prompt(s, t) ==>
              s.calls[t].id !in s.client.pending
  {
    InitialWindowInv(s0);
    RunKeepsWindowInv(s0, steps, s);
    forall t | 0 <= t < |s.calls| && s.calls[t].pc.Checked? && Prompt(s, t)
      ensures s.calls[t].id !in s.client.pending
    {
      PromptFindsFree(s, t);
    }
  }
}
