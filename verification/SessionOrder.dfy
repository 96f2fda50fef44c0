/**
  Between the exchange of serving_ and the start of the acceptor thread, serve() sets up the
  session. What goes wrong when stop() gets in between, and what holds when it does not.
*/
module SessionOrder {
  import opened Sums
  import opened MultiServer
  import opened StopProtocol
  import opened ExtraPermits

  /** stop() sets its flag before serve() clears it, or joins before there is a thread to join. */
  predicate Disturbs(s: State, step: Step) {
    || (step.SetFlag? && s.serve.ClearingFlag?)
    || (step.Join? && InSetUp(s.serve))
  }

  ghost predicate Orderly(s: State, steps: seq<Step>)
    decreases |steps|
  {
    steps != [] && Enabled(s, steps[0]) ==>
      !Disturbs(s, steps[0]) && Orderly(Apply(s, steps[0]), steps[1..])
  }

  /** No step of stop() falls into the set-up at all. */
  ghost predicate SetUpAlone(s: State, steps: seq<Step>)
    decreases |steps|
  {
    steps != [] && Enabled(s, steps[0]) ==>
      !(InSetUp(s.serve) && IsStopStep(steps[0])) && SetUpAlone(Apply(s, steps[0]), steps[1..])
  }

  lemma {:induction false} SetUpAloneIsOrderly(s: State, steps: seq<Step>)
    requires SetUpAlone(s, steps)
    ensures Orderly(s, steps)
    decreases |steps|
  {
    if steps != [] && Enabled(s, steps[0]) {
      SetUpAloneIsOrderly(Apply(s, steps[0]), steps[1..]);
    }
  }

  // ---------------------------------------------------------------------------------------
  // Orderly runs
  // ---------------------------------------------------------------------------------------

  ghost predicate WithinBound(s: State) {
    AcceptorBound(s.acceptor) + Sum(Slots(s.threads)) <= s.max + s.ended
  }

  predicate FlagIsUp(p: StopPc) { p.Interrupting? || p.Posting? || Posted(p) }

  ghost predicate SessionOk(s: State) {
    && (BeforeEnd(s.stop) ==> s.serving)
    && (FlagIsUp(s.stop) ==> s.stopFlag && !s.serve.ClearingFlag?)
    && (s.stop.Draining? || s.stop.Finishing? || !s.serving || InSetUp(s.serve) ==> s.acceptor.Absent?)
    && (s.stop.Finishing? || !s.serving || InSetUp(s.serve) ==> s.activeCount == 0)
    && (InSetUp(s.serve) ==> s.serving && !s.stop.Draining? && !s.stop.Finishing?)
  }

  ghost predicate OrderInv(s: State) {
    CountsOk(s) && SessionOk(s) && WithinBound(s)
  }

  lemma ThreadStepKeepsOrder(s: State, step: Step)
    requires OrderInv(s) && Enabled(s, step) && IsThreadStep(step)
    ensures SessionOk(ApplyThread(s, step)) && WithinBound(ApplyThread(s, step))
  {
    ThreadStepShape(s, step);
    ThreadStepAndServe(s, step);
    UpdateSums(s.threads, step.i, ThreadAfter(s, step));
    SumsAtLeastZero(s.threads);
  }

  lemma ThreadStepAndServe(s: State, step: Step)
    requires Enabled(s, step) && IsThreadStep(step)
    ensures var s' := ApplyThread(s, step);
            s'.serve == s.serve || (s.serve.Blocked? && s'.serve.Blocked?)
  {}

  lemma AcceptorStepKeepsOrder(s: State, step: Step)
    requires OrderInv(s) && Enabled(s, step) && IsAcceptorStep(step)
    ensures SessionOk(ApplyAcceptor(s, step)) && WithinBound(ApplyAcceptor(s, step))
  {
    if step.Spawn? {
      AppendSums(s.threads, Thread(s.acceptor.conn, Starting));
    }
  }

  lemma ServeStepKeepsOrder(s: State, step: Step)
    requires OrderInv(s) && Enabled(s, step) && IsServeStep(step)
    ensures SessionOk(ApplyServe(s, step)) && WithinBound(ApplyServe(s, step))
  {}

  lemma StopStepKeepsOrder(s: State, step: Step)
    requires OrderInv(s) && Enabled(s, step) && IsStopStep(step) && !Disturbs(s, step)
    ensures SessionOk(ApplyStop(s, step)) && WithinBound(ApplyStop(s, step))
  {
    SumsAtLeastZero(s.threads);
  }

  lemma StepKeepsOrder(s: State, step: Step)
    requires OrderInv(s) && Enabled(s, step) && !Disturbs(s, step)
    ensures OrderInv(Apply(s, step))
  {
    StepKeepsCounts(s, step);
    if IsThreadStep(step) {
      ThreadStepKeepsOrder(s, step);
    } else if IsAcceptorStep(step) {
      AcceptorStepKeepsOrder(s, step);
    } else if IsServeStep(step) {
      ServeStepKeepsOrder(s, step);
    } else {
      StopStepKeepsOrder(s, step);
    }
  }

  lemma {:induction false} RunKeepsOrder(s: State, steps: seq<Step>, s': State)
    requires OrderInv(s) && Reachable(s, steps, s') && Orderly(s, steps)
    ensures OrderInv(s') && s'.max == s.max
    decreases |steps|
  {
    if steps != [] {
      MaxStays(s, steps[0]);
      StepKeepsOrder(s, steps[0]);
      RunKeepsOrder(Apply(s, steps[0]), steps[1..], s');
    }
  }

  lemma InitialOrder(s: State)
    requires Initial(s)
    ensures OrderInv(s)
  {}

  /**
    After k completed stops at most max + k handlers run at once; while a stop is in progress
    its extra permit lets no additional handler run.
  */
  lemma HandlersBounded(s0: State, steps: seq<Step>, s: State)
    requires Initial(s0) && Reachable(s0, steps, s) && Orderly(s0, steps)
    ensures Sum(RunningFlags(s.threads)) <= s0.max + s.ended
  {
    InitialOrder(s0);
    RunKeepsOrder(s0, steps, s);
    SumMonotone(RunningFlags(s.threads), Slots(s.threads));
  }

  /** The set-up of a session never meets an acceptor thread that was not joined. */
  lemma LaunchIsSafe(s0: State, steps: seq<Step>, s: State)
    requires Initial(s0) && Reachable(s0, steps, s) && Orderly(s0, steps) && s.serve.Launching?
    ensures Enabled(s, Launch)
  {
    InitialOrder(s0);
    RunKeepsOrder(s0, steps, s);
  }

  /** Every connection had exactly one fate and every session is in the accumulated statistics. */
  ghost predicate Quiet(s: State) {
    && s.acceptor.Absent?
    && (forall i :: 0 <= i < |s.threads| ==> !IsActive(s.threads[i]) && i in s.folded)
    && s.listed == {}
    && (forall c :: 0 <= c < s.accepted ==> (c in s.given <==> c !in s.dropped))
    && (forall c :: c in s.given ==> s.given[c] < |s.threads| && s.threads[s.given[c]].conn == c)
    && (forall i :: 0 <= i < |s.threads| ==> s.threads[i].conn in s.given && s.given[s.threads[i].conn] == i)
  }

  lemma NoneActive(s: State)
    requires OrderInv(s) && (s.stop.Finishing? || !s.serving || InSetUp(s.serve))
    ensures Sum(Slots(s.threads)) == 0 && forall i :: 0 <= i < |s.threads| ==> !IsActive(s.threads[i])
  {
    SumsAtLeastZero(s.threads);
    forall i | 0 <= i < |s.threads| ensures !IsActive(s.threads[i]) {}
    SumOfZeros(Slots(s.threads));
  }

  lemma IdlePlaces(s: State)
    requires PlacesOk(s) && SessionsOk(s) && s.acceptor.Absent?
    requires forall i :: 0 <= i < |s.threads| ==> !IsActive(s.threads[i])
    ensures Quiet(s)
  {
    forall c | 0 <= c < s.accepted ensures c in s.given <==> c !in s.dropped {
      assert PlacedOnce(s, c);
    }
    forall c | c in s.given ensures s.given[c] < |s.threads| && s.threads[s.given[c]].conn == c {
      assert PlacedOnce(s, c);
    }
  }

  /**
    From the moment stop() has seen the count at 0 until the next serve() no handler runs,
    each accepted connection went to exactly one thread or was dropped, and every session has
    been folded. Guard threads may still be about to notify.
  */
  lemma StopIsQuiet(s0: State, steps: seq<Step>, s: State)
    requires Initial(s0) && Reachable(s0, steps, s) && Orderly(s0, steps)
    requires s.stop.Finishing? || !s.serving
    ensures Quiet(s)
  {
    InitialOrder(s0);
    RunKeepsOrder(s0, steps, s);
    RunKeepsPlaces(s0, steps, s);
    NoneActive(s);
    IdlePlaces(s);
  }

  /** serve() returns only when its session has ended, and then everything is quiet. */
  lemma ServeReturnsQuiet(s0: State, steps: seq<Step>, s: State, step: Step)
    requires Initial(s0) && Reachable(s0, steps, s) && Orderly(s0, steps)
    requires Enabled(s, step) && s.serve.Blocked? && Apply(s, step).serve.NotServing?
    ensures !Apply(s, step).serving && Quiet(Apply(s, step))
  {
    OnlyTestReturns(s, step);
    StopIsQuiet(s0, steps, s);
    TestKeepsQuiet(s);
  }

  lemma TestKeepsQuiet(s: State)
    requires Quiet(s) && Enabled(s, ServeTest) && !s.serving
    ensures Quiet(Apply(s, ServeTest)) && !Apply(s, ServeTest).serving
  {}

  lemma OnlyTestReturns(s: State, step: Step)
    requires Enabled(s, step) && s.serve.Blocked? && Apply(s, step).serve.NotServing?
    ensures step == ServeTest && !s.serving
  {
    if IsThreadStep(step) {
      ThreadStepAndServe(s, step);
    } else if IsAcceptorStep(step) {
      AcceptorStepShape(s, step);
    } else if IsStopStep(step) {
      StopStepAndServe(s, step);
    }
  }

  lemma StopStepAndServe(s: State, step: Step)
    requires Enabled(s, step) && IsStopStep(step)
    ensures var s' := ApplyStop(s, step); s'.serve == s.serve || (s.serve.Blocked? && s'.serve.Blocked?)
  {}

  // ---------------------------------------------------------------------------------------
  // Why the acceptor ends
  // ---------------------------------------------------------------------------------------

  /** Flags, drops and the end of the acceptor against the steps so far. */
  ghost predicate AcceptorFollows(past: set<Step>, s: State) {
    && (s.stopFlag || s.acceptor.Restoring? || s.dropped != {} ==> SetFlag in past)
    && (s.acceptor.Exited? ==> SetFlag in past || AcceptFails(OtherError) in past)
  }

  lemma StepFollowsAcceptor(past: set<Step>, s: State, step: Step)
    requires AcceptorFollows(past, s) && Enabled(s, step)
    ensures AcceptorFollows(past + {step}, Apply(s, step))
  {
    if IsThreadStep(step) {
      ThreadStepShape(s, step);
      ThreadLeavesDropped(s, step);
    } else if IsAcceptorStep(step) {
      AcceptorStepFollows(past, s, step);
    }
  }

  lemma ThreadLeavesDropped(s: State, step: Step)
    requires Enabled(s, step) && IsThreadStep(step)
    ensures ApplyThread(s, step).dropped == s.dropped
  {}

  lemma AcceptorStepFollows(past: set<Step>, s: State, step: Step)
    requires AcceptorFollows(past, s) && Enabled(s, step) && IsAcceptorStep(step)
    ensures AcceptorFollows(past + {step}, ApplyAcceptor(s, step))
  {}

  function StepsOf(steps: seq<Step>): set<Step> {
    set step | step in steps
  }

  lemma {:induction false} RunFollowsAcceptor(past: set<Step>, s: State, steps: seq<Step>, s': State)
    requires AcceptorFollows(past, s) && Reachable(s, steps, s')
    ensures AcceptorFollows(past + StepsOf(steps), s')
    decreases |steps|
  {
    if steps == [] {
      assert past + StepsOf(steps) == past;
    } else {
      StepFollowsAcceptor(past, s, steps[0]);
      RunFollowsAcceptor(past + {steps[0]}, Apply(s, steps[0]), steps[1..], s');
      assert past + {steps[0]} + StepsOf(steps[1..]) == past + StepsOf(steps);
    }
  }

  /** In every run, only stop() and a failed accept, but no expired one, end the acceptor; only stop() drops a connection. */
  lemma AcceptorEnds(s0: State, steps: seq<Step>, s: State)
    requires Initial(s0) && Reachable(s0, steps, s)
    ensures s.acceptor.Exited? ==> SetFlag in steps || AcceptFails(OtherError) in steps
    ensures s.dropped != {} ==> SetFlag in steps
  {
    RunFollowsAcceptor({}, s0, steps, s);
    assert {} + StepsOf(steps) == StepsOf(steps);
  }

  lemma ExitedStays(s: State, step: Step)
    requires Enabled(s, step) && s.acceptor.Exited? && !step.Join?
    ensures Apply(s, step).acceptor.Exited? && Apply(s, step).accepted == s.accepted
  {
    if IsThreadStep(step) {
      ThreadStepShape(s, step);
      ThreadLeavesAccepted(s, step);
    }
  }

  lemma ThreadLeavesAccepted(s: State, step: Step)
    requires Enabled(s, step) && IsThreadStep(step)
    ensures ApplyThread(s, step).accepted == s.accepted
  {}

  lemma {:induction false} NothingAccepted(s: State, steps: seq<Step>, s': State)
    requires s.acceptor.Exited? && Reachable(s, steps, s') && Join !in steps
    ensures s'.acceptor.Exited? && s'.accepted == s.accepted
    decreases |steps|
  {
    if steps != [] {
      ExitedStays(s, steps[0]);
      NothingAccepted(Apply(s, steps[0]), steps[1..], s');
    }
  }

  /** After a failed accept, or one more look at a flag that is up, nothing is accepted until stop() has joined the thread. */
  lemma EndedForGood(s: State, step: Step, steps: seq<Step>, s': State)
    requires Enabled(s, step) && (step == AcceptFails(OtherError) || (step.TestFlag? && s.stopFlag))
    requires Reachable(Apply(s, step), steps, s') && Join !in steps
    ensures s'.acceptor.Exited? && s'.accepted == s.accepted
  {
    NothingAccepted(Apply(s, step), steps, s');
  }

  // ---------------------------------------------------------------------------------------
  // Disturbed runs
  // ---------------------------------------------------------------------------------------

  /** What HandlersBounded and StopIsQuiet exclude. */
  ghost predicate Broken(s: State) {
    Sum(RunningFlags(s.threads)) > s.max + s.ended || (!s.serving && !Quiet(s))
  }

  lemma NoneRunning(s: State)
    requires OrderInv(s) && InSetUp(s.serve)
    ensures Sum(RunningFlags(s.threads)) == 0
  {
    NoneActive(s);
    SumOfZeros(RunningFlags(s.threads));
  }

  /** The flag that stop() set is cleared; its permit then serves one handler too many. */
  lemma LostFlagOverfills(s0: State, steps: seq<Step>, s: State, total: nat) returns (steps': seq<Step>, s': State)
    requires Reachable(s0, steps, s) && s.serve.ClearingFlag? && s.stop.Interrupting? && s.acceptor.Absent?
    requires s.permits == total && Sum(RunningFlags(s.threads)) == 0
    ensures Reachable(s0, steps', s') && s'.ended == s.ended && s'.max == s.max && s'.posts == s.posts + 1
    ensures Sum(RunningFlags(s'.threads)) == total + 1 && s'.stop.Joining?
  {
    steps', s' := SetUp(s0, steps, s);
    steps', s' := InterruptAndPost(s0, steps', s');
    steps', s' := ManyHandlers(s0, steps', s', total + 1, total + 1);
  }

  lemma InterruptAndPost(s0: State, steps: seq<Step>, s: State) returns (steps': seq<Step>, s': State)
    requires Reachable(s0, steps, s) && s.stop.Interrupting?
    ensures Reachable(s0, steps', s') && s' == s.(permits := s.permits + 1, posts := s.posts + 1, stop := Joining)
  {
    steps', s' := AdvanceStop(s0, steps, s, Interrupt);
    InterruptThenPost(s);
    steps', s' := AdvanceStop(s0, steps', s', Post);
  }

  lemma InterruptThenPost(s: State)
    requires s.stop.Interrupting?
    ensures var m := ApplyStop(s, Interrupt);
            && m == s.(stop := Posting)
            && ApplyStop(m, Post) == s.(permits := s.permits + 1, posts := s.posts + 1, stop := Joining)
  {}

  /** A thread that still holds the mutex gives it back. */
  lemma FreeMutex(s0: State, steps: seq<Step>, s: State) returns (steps': seq<Step>, s': State)
    requires Reachable(s0, steps, s) && MutexOk(s) && InSetUp(s.serve) && s.stop == Draining(Locking)
    ensures Reachable(s0, steps', s') && s'.done.Nobody?
    ensures s'.serve == s.serve && s'.stop == s.stop && s'.activeCount == s.activeCount && s'.acceptor == s.acceptor
  {
    steps', s' := steps, s;
    if s.done.TheThread? {
      var i := s.done.i;
      if s.threads[i].pc.LastNotify? {
        steps', s' := Advance(s0, steps', s', NotifyLast(i));
      }
      steps', s' := Advance(s0, steps', s', UnlockLast(i));
    }
  }

  /** stop() has joined nothing; serve() then starts the acceptor of a session that has ended. */
  lemma EarlyJoinLeavesAcceptor(s0: State, steps: seq<Step>, s: State) returns (steps': seq<Step>, s': State)
    requires Reachable(s0, steps, s) && MutexOk(s) && s.acceptor.Absent? && s.activeCount == 0
    requires (s.serve.Creating? || s.serve.Launching?) && s.stop == Draining(Locking)
    ensures Reachable(s0, steps', s') && !s'.serving && s'.acceptor.AtLoop?
  {
    steps', s' := FreeMutex(s0, steps, s);
    steps', s' := Drain(s0, steps', s');
    if s'.serve.Creating? {
      steps', s' := AdvanceServe(s0, steps', s', Create);
    }
    steps', s' := AdvanceServe(s0, steps', s', Launch);
  }

  lemma SetFlagBreaks(s: State) returns (more: seq<Step>, s': State)
    requires OrderInv(s) && s.serve.ClearingFlag? && s.stop.SettingFlag?
    ensures Reachable(ApplyStop(s, SetFlag), more, s') && Broken(s')
  {
    NoneActive(s);
    NoneRunning(s);
    var m := ApplyStop(s, SetFlag);
    more, s' := LostFlagOverfills(m, [], m, s.max + s.ended);
  }

  lemma EarlyJoinBreaks(s: State) returns (more: seq<Step>, s': State)
    requires OrderInv(s) && WakeInv(s) && Enabled(s, Join) && InSetUp(s.serve)
    ensures Reachable(ApplyStop(s, Join), more, s') && Broken(s')
  {
    StopStepKeepsWake(s, Join);
    var m := ApplyStop(s, Join);
    more, s' := EarlyJoinLeavesAcceptor(m, [], m);
  }

  /**
    The condition is exact: after an orderly run any step that disturbs the set-up can be
    followed by steps that break the bound on handlers or leave an ended session unquiet.
  */
  lemma DisturbanceBreaks(s0: State, steps: seq<Step>, s: State, step: Step) returns (more: seq<Step>, s': State)
    requires Initial(s0) && Reachable(s0, steps, s) && Orderly(s0, steps)
    requires Enabled(s, step) && Disturbs(s, step)
    ensures Reachable(Apply(s, step), more, s') && Broken(s')
  {
    InitialOrder(s0);
    RunKeepsOrder(s0, steps, s);
    StopApplies(s, step);
    if step.SetFlag? {
      more, s' := SetFlagBreaks(s);
    } else {
      RunKeepsWake(s0, steps, s);
      more, s' := EarlyJoinBreaks(s);
    }
  }

  lemma StopApplies(s: State, step: Step)
    requires Enabled(s, step) && IsStopStep(step)
    ensures Apply(s, step) == ApplyStop(s, step)
  {}

  function NewServer(max: nat): State {
    State(max, max, false, false, 0, Nobody, NotServing, Idle, Absent, [], {}, {}, 0, 0, 0, map[], {})
  }

  lemma StopCalled(max: nat) returns (steps: seq<Step>, s: State)
    ensures Initial(NewServer(max)) && Reachable(NewServer(max), steps, s)
    ensures s == NewServer(max).(serving := true, serve := ClearingFlag, stop := SettingFlag)
  {
    steps, s := AdvanceServe(NewServer(max), [], NewServer(max), CallServe);
    steps, s := AdvanceStop(NewServer(max), steps, s, CallStop);
  }

  /** serve() has exchanged serving_, and stop() has set its flag. */
  lemma FlagInSetUp(max: nat) returns (steps: seq<Step>, s: State)
    ensures Initial(NewServer(max)) && Reachable(NewServer(max), steps, s)
    ensures s == NewServer(max).(serving := true, serve := ClearingFlag, stopFlag := true, stop := Interrupting)
  {
    steps, s := StopCalled(max);
    steps, s := AdvanceStop(NewServer(max), steps, s, SetFlag);
  }

  /** With a limit of one, two handlers run in the first session while stop() is in progress. */
  lemma TwoHandlersForOneSlot() returns (s0: State, steps: seq<Step>, s: State)
    ensures Initial(s0) && s0.max == 1 && Reachable(s0, steps, s)
    ensures s.ended == 0 && s.stop.Joining? && Sum(RunningFlags(s.threads)) == 2
  {
    s0 := NewServer(1);
    steps, s := FlagInSetUp(1);
    assert RunningFlags([]) == [];
    steps, s := LostFlagOverfills(s0, steps, s, 1);
  }

  lemma PostAndJoinNothing(max: nat) returns (steps: seq<Step>, s: State)
    ensures Initial(NewServer(max)) && Reachable(NewServer(max), steps, s)
    ensures s == NewServer(max).(permits := max + 1, posts := 1, serving := true, serve := ClearingFlag, stopFlag := true,
                                 stop := Draining(Locking))
  {
    steps, s := FlagInSetUp(max);
    steps, s := AdvanceStop(NewServer(max), steps, s, Interrupt);
    steps, s := AdvanceStop(NewServer(max), steps, s, Post);
    steps, s := AdvanceStop(NewServer(max), steps, s, Join);
  }

  /** serve() and stop() have both returned, and a handler runs. */
  lemma HandlerAfterStop(max: nat) returns (s0: State, steps: seq<Step>, s: State)
    requires 1 <= max < CEILING
    ensures Initial(s0) && s0.max == max && Reachable(s0, steps, s)
    ensures s.serve.NotServing? && s.stop.Idle? && !s.serving
    ensures Sum(RunningFlags(s.threads)) == 1 && !Quiet(s)
  {
    s0 := NewServer(max);
    steps, s := PostAndJoinNothing(max);
    steps, s := Drain(s0, steps, s);
    steps, s := NotifyServe(s0, steps, s);
    steps, s := SetUp(s0, steps, s);
    steps, s := EndServe(s0, steps, s);
    assert RunningFlags([]) == [];
    steps, s := AddHandler(s0, steps, s, max + 1, 0);
  }
}
