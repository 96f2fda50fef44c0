/**
  The permit that each stop() leaves behind is usable: the bound on running handlers is
  reached for every limit and every number of completed stops.
*/
module ExtraPermits {
  import opened Sums
  import opened MultiServer

  /** Between two sessions, before any connection. */
  ghost predicate Resting(s: State, max: nat, k: nat) {
    && s.max == max && s.permits == max + k && !s.serving && s.activeCount == 0 && s.done.Nobody?
    && s.serve.NotServing? && s.stop.Idle? && s.acceptor.Absent? && s.threads == [] && s.ended == k && s.posts == k
  }

  /** The acceptor is at work; n handlers are running and the rest of `total` permits is free. */
  ghost predicate Serving(s: State, total: nat, n: nat) {
    && s.permits == total - n && s.acceptor.AtLoop? && !s.stopFlag
    && Sum(RunningFlags(s.threads)) == n
  }

  lemma {:induction false} ReachableSnoc(s: State, steps: seq<Step>, m: State, step: Step)
    requires Reachable(s, steps, m) && Enabled(m, step)
    ensures Reachable(s, steps + [step], Apply(m, step))
    decreases |steps|
  {
    if steps == [] {
      assert [step][1..] == [];
      assert Reachable(Apply(s, step), [], Apply(m, step));
      assert steps + [step] == [step];
    } else {
      ReachableSnoc(Apply(s, steps[0]), steps[1..], m, step);
      assert (steps + [step])[1..] == steps[1..] + [step];
    }
  }

  lemma Advance(s0: State, steps: seq<Step>, s: State, step: Step) returns (steps': seq<Step>, s': State)
    requires Reachable(s0, steps, s) && Enabled(s, step)
    ensures s' == Apply(s, step) && Reachable(s0, steps', s')
  {
    ReachableSnoc(s0, steps, s, step);
    steps', s' := steps + [step], Apply(s, step);
  }

  lemma ServeApplies(s: State, step: Step)
    requires Enabled(s, step) && IsServeStep(step)
    ensures Apply(s, step) == ApplyServe(s, step)
  {
    assert !IsThreadStep(step) && !IsAcceptorStep(step);
  }

  lemma AdvanceStop(s0: State, steps: seq<Step>, s: State, step: Step) returns (steps': seq<Step>, s': State)
    requires Reachable(s0, steps, s) && Enabled(s, step) && IsStopStep(step)
    ensures s' == ApplyStop(s, step) && Reachable(s0, steps', s')
  {
    steps', s' := Advance(s0, steps, s, step);
  }

  lemma AdvanceServe(s0: State, steps: seq<Step>, s: State, step: Step) returns (steps': seq<Step>, s': State)
    requires Reachable(s0, steps, s) && Enabled(s, step) && IsServeStep(step)
    ensures s' == ApplyServe(s, step) && Reachable(s0, steps', s')
  {
    ServeApplies(s, step);
    steps', s' := Advance(s0, steps, s, step);
  }

  lemma AdvanceAcceptor(s0: State, steps: seq<Step>, s: State, step: Step) returns (steps': seq<Step>, s': State)
    requires Reachable(s0, steps, s) && Enabled(s, step) && IsAcceptorStep(step)
    ensures s' == ApplyAcceptor(s, step) && Reachable(s0, steps', s')
  {
    steps', s' := Advance(s0, steps, s, step);
  }

  /** No connection has arrived; where the three threads are. */
  ghost predicate Empty(s: State, max: nat, permits: int, k: nat, serve: ServePc, stop: StopPc, acceptor: Acceptor) {
    && s.max == max && s.permits == permits && s.ended == k && s.activeCount == 0 && s.threads == []
    && s.serve == serve && s.stop == stop && s.acceptor == acceptor
  }

  lemma SetUp(s0: State, steps: seq<Step>, s: State) returns (steps': seq<Step>, s': State)
    requires Reachable(s0, steps, s) && s.serve.ClearingFlag? && s.acceptor.Absent?
    ensures Reachable(s0, steps', s') && s' == s.(stopFlag := false, acceptor := AtLoop, serve := Blocked(Locking))
  {
    steps', s' := AdvanceServe(s0, steps, s, ClearFlag);
    steps', s' := AdvanceServe(s0, steps', s', Create);
    steps', s' := AdvanceServe(s0, steps', s', Launch);
  }

  lemma CallAndSetFlag(s0: State, steps: seq<Step>, s: State) returns (steps': seq<Step>, s': State)
    requires Reachable(s0, steps, s) && s.serving && s.stop.Idle?
    ensures Reachable(s0, steps', s') && s' == s.(stopFlag := true, stop := Interrupting)
  {
    steps', s' := AdvanceStop(s0, steps, s, CallStop);
    steps', s' := AdvanceStop(s0, steps', s', SetFlag);
  }

  lemma BeginStop(s0: State, steps: seq<Step>, s: State, max: nat, k: nat) returns (steps': seq<Step>, s': State)
    requires Reachable(s0, steps, s) && Resting(s, max, k)
    ensures Reachable(s0, steps', s') && Empty(s', max, max + k, k, Blocked(Locking), Interrupting, AtLoop)
    ensures s'.serving && s'.stopFlag && s'.done.Nobody? && s'.posts == s.posts
  {
    steps', s' := AdvanceServe(s0, steps, s, CallServe);
    steps', s' := SetUp(s0, steps', s');
    steps', s' := CallAndSetFlag(s0, steps', s');
  }

  lemma PostAndJoin(s0: State, steps: seq<Step>, s: State, max: nat, k: nat) returns (steps': seq<Step>, s': State)
    requires Reachable(s0, steps, s) && Empty(s, max, max + k, k, Blocked(Locking), Interrupting, AtLoop)
    requires s.serving && s.stopFlag && s.done.Nobody?
    ensures Reachable(s0, steps', s') && Empty(s', max, max + k + 1, k, Blocked(Locking), Draining(Locking), Absent)
    ensures s'.serving && s'.done.Nobody? && s'.posts == s.posts + 1
  {
    steps', s' := AdvanceStop(s0, steps, s, Interrupt);
    steps', s' := AdvanceStop(s0, steps', s', Post);
    steps', s' := Exit(s0, steps', s');
  }

  lemma Exit(s0: State, steps: seq<Step>, s: State) returns (steps': seq<Step>, s': State)
    requires Reachable(s0, steps, s) && s.acceptor.AtLoop? && s.stopFlag && s.stop.Joining?
    ensures Reachable(s0, steps', s') && s' == s.(acceptor := Absent, stop := Draining(Locking))
  {
    steps', s' := AdvanceAcceptor(s0, steps, s, TestFlag);
    steps', s' := AdvanceStop(s0, steps', s', Join);
  }

  lemma SeeZero(s0: State, steps: seq<Step>, s: State) returns (steps': seq<Step>, s': State)
    requires Reachable(s0, steps, s) && s.stop == Draining(Locking) && s.done.Nobody? && s.activeCount == 0
    ensures Reachable(s0, steps', s') && s' == s.(stop := Finishing)
  {
    steps', s' := AdvanceStop(s0, steps, s, StopLock);
    steps', s' := AdvanceStop(s0, steps', s', StopTest);
  }

  lemma Drain(s0: State, steps: seq<Step>, s: State) returns (steps': seq<Step>, s': State)
    requires Reachable(s0, steps, s) && s.stop == Draining(Locking) && s.done.Nobody? && s.activeCount == 0
    ensures Reachable(s0, steps', s') && s' == s.(serving := false, ended := s.ended + 1, stop := FinalLock)
  {
    steps', s' := SeeZero(s0, steps, s);
    steps', s' := AdvanceStop(s0, steps', s', Finish);
  }

  lemma NotifyNobody(s0: State, steps: seq<Step>, s: State) returns (steps': seq<Step>, s': State)
    requires Reachable(s0, steps, s) && s.stop.FinalLock? && s.done.Nobody? && s.serve != Blocked(Asleep)
    ensures Reachable(s0, steps', s') && s' == s.(stop := FinalUnlock, done := TheStop)
  {
    steps', s' := AdvanceStop(s0, steps, s, LockFinally);
    steps', s' := AdvanceStop(s0, steps', s', NotifyFinally);
  }

  lemma NotifyServe(s0: State, steps: seq<Step>, s: State) returns (steps': seq<Step>, s': State)
    requires Reachable(s0, steps, s) && s.stop.FinalLock? && s.done.Nobody? && s.serve != Blocked(Asleep)
    ensures Reachable(s0, steps', s') && s' == s.(stop := Idle)
  {
    steps', s' := NotifyNobody(s0, steps, s);
    steps', s' := AdvanceStop(s0, steps', s', UnlockFinally);
  }

  lemma EndServe(s0: State, steps: seq<Step>, s: State) returns (steps': seq<Step>, s': State)
    requires Reachable(s0, steps, s) && s.serve == Blocked(Locking) && s.done.Nobody? && !s.serving
    ensures Reachable(s0, steps', s') && s' == s.(serve := NotServing)
  {
    steps', s' := AdvanceServe(s0, steps, s, ServeLock);
    steps', s' := AdvanceServe(s0, steps', s', ServeTest);
  }

  lemma EmptySession(s0: State, steps: seq<Step>, s: State, max: nat, k: nat) returns (steps': seq<Step>, s': State)
    requires Reachable(s0, steps, s) && Resting(s, max, k)
    ensures Reachable(s0, steps', s') && Resting(s', max, k + 1)
  {
    steps', s' := BeginStop(s0, steps, s, max, k);
    steps', s' := PostAndJoin(s0, steps', s', max, k);
    steps', s' := Drain(s0, steps', s');
    steps', s' := NotifyServe(s0, steps', s');
    steps', s' := EndServe(s0, steps', s');
  }

  lemma {:induction false} ManySessions(max: nat, k: nat) returns (s0: State, steps: seq<Step>, s: State)
    ensures Initial(s0) && s0.max == max && Reachable(s0, steps, s) && Resting(s, max, k)
    decreases k
  {
    if k == 0 {
      s0 := State(max, max, false, false, 0, Nobody, NotServing, Idle, Absent, [], {}, {}, 0, 0, 0, map[], {});
      steps, s := [], s0;
    } else {
      s0, steps, s := ManySessions(max, k - 1);
      steps, s := EmptySession(s0, steps, s, max, k - 1);
    }
  }

  lemma AddHandler(s0: State, steps: seq<Step>, s: State, total: nat, n: nat) returns (steps': seq<Step>, s': State)
    requires Reachable(s0, steps, s) && Serving(s, total, n) && n < total
    ensures Reachable(s0, steps', s') && Serving(s', total, n + 1) && SameSession(s, s')
  {
    var m;
    steps', m := TakeConnection(s0, steps, s);
    steps', s' := StartHandler(s0, steps', m);
    SumAppend(RunningFlags(s.threads), 1);
    assert RunningFlags(s'.threads) == RunningFlags(s.threads) + [1];
  }

  lemma StartHandler(s0: State, steps: seq<Step>, s: State) returns (steps': seq<Step>, s': State)
    requires Reachable(s0, steps, s) && s.acceptor.Spawning?
    ensures Reachable(s0, steps', s') && SameSession(s, s')
    ensures s'.permits == s.permits && s'.acceptor.AtLoop? && s'.stopFlag == s.stopFlag
    ensures s'.threads == s.threads + [Thread(s.acceptor.conn, Running)]
  {
    steps', s' := AdvanceAcceptor(s0, steps, s, Spawn);
    assert s'.threads == s.threads + [Thread(s.acceptor.conn, Starting)];
    steps', s' := Advance(s0, steps', s', List(|s.threads|));
  }

  /** Nothing that the callers of serve and stop do has happened. */
  ghost predicate SameSession(s: State, s': State) {
    && s'.max == s.max && s'.ended == s.ended && s'.posts == s.posts && s'.serving == s.serving
    && s'.serve == s.serve && s'.stop == s.stop
  }

  lemma AcceptOne(s0: State, steps: seq<Step>, s: State) returns (steps': seq<Step>, s': State)
    requires Reachable(s0, steps, s) && s.acceptor.AtLoop? && !s.stopFlag
    ensures Reachable(s0, steps', s')
    ensures s' == s.(acceptor := HasConnection(s.accepted), accepted := s.accepted + 1)
  {
    steps', s' := AdvanceAcceptor(s0, steps, s, TestFlag);
    steps', s' := AdvanceAcceptor(s0, steps', s', Accept);
  }

  lemma TakeConnection(s0: State, steps: seq<Step>, s: State) returns (steps': seq<Step>, s': State)
    requires Reachable(s0, steps, s) && s.acceptor.AtLoop? && !s.stopFlag && s.permits > 0
    ensures Reachable(s0, steps', s') && s'.acceptor.Spawning? && !s'.stopFlag && s'.permits == s.permits - 1
    ensures SameSession(s, s') && s'.threads == s.threads
  {
    steps', s' := AcceptOne(s0, steps, s);
    steps', s' := AdvanceAcceptor(s0, steps', s', Acquire);
    steps', s' := AdvanceAcceptor(s0, steps', s', TestAgain);
    steps', s' := AdvanceAcceptor(s0, steps', s', Count);
  }

  lemma {:induction false} ManyHandlers(s0: State, steps: seq<Step>, s: State, total: nat, n: nat)
    returns (steps': seq<Step>, s': State)
    requires Reachable(s0, steps, s) && Serving(s, total, 0) && n <= total
    ensures Reachable(s0, steps', s') && Serving(s', total, n) && SameSession(s, s')
    decreases n
  {
    if n == 0 {
      steps', s' := steps, s;
    } else {
      steps', s' := ManyHandlers(s0, steps, s, total, n - 1);
      steps', s' := AddHandler(s0, steps', s', total, n - 1);
    }
  }

  /**
    After k completed stops max + k handlers can run at once, although the limit is max. The
    constructor admits limits from 1 to 64, and the semaphore promises to count up to 64.
  */
  lemma BoundIsReached(max: nat, k: nat) returns (s0: State, steps: seq<Step>, s: State)
    requires 1 <= max && max + k <= CEILING
    ensures Initial(s0) && s0.max == max && Reachable(s0, steps, s)
    ensures s.ended == k && Sum(RunningFlags(s.threads)) == max + k
    ensures s.posts == k
  {
    s0, steps, s := ManySessions(max, k);
    steps, s := AdvanceServe(s0, steps, s, CallServe);
    steps, s := SetUp(s0, steps, s);
    steps, s := ManyHandlers(s0, steps, s, max + k, max + k);
  }

  // ---------------------------------------------------------------------------------------
  // The ceiling of the semaphore
  // ---------------------------------------------------------------------------------------

  /** The least maximum that counting_semaphore<64> promises; release() must not pass it. */
  const CEILING: nat := 64

  /** In all runs with at most n effective stops no release passes the ceiling. */
  ghost predicate StaysBelowCeiling(max: nat, n: nat) {
    forall s0, steps, s :: Initial(s0) && s0.max == max && Reachable(s0, steps, s) && s.posts <= n ==>
      s.permits <= CEILING
  }

  /** The first stop of a 64-connection server already releases beyond what is promised. */
  lemma CeilingHoldsIff(max: nat, n: nat)
    requires 1 <= max <= CEILING
    ensures StaysBelowCeiling(max, n) <==> max + n <= CEILING
  {
    if max + n <= CEILING {
      forall s0, steps, s | Initial(s0) && s0.max == max && Reachable(s0, steps, s) && s.posts <= n
        ensures s.permits <= CEILING
      {
        PermitsConserved(s0, steps, s);
        SumsAtLeastZero(s.threads);
      }
    } else {
      var s0, steps, s := ManySessions(max, n);
    }
  }
}
