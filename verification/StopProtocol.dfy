/** What stop() may rely on: no wakeup is lost, and when it returns everything is quiet. */
module StopProtocol {
  import opened MultiServer

  // ---------------------------------------------------------------------------------------
  // Wakeups
  // ---------------------------------------------------------------------------------------

  predicate StopHolds(p: StopPc) {
    p == Draining(Testing) || p == Draining(Dozing) || p.FinalNotify? || p.FinalUnlock?
  }

  predicate ServeHolds(p: ServePc) { p == Blocked(Testing) || p == Blocked(Dozing) }

  predicate ThreadHolds(p: ThreadPc) { p.LastNotify? || p.LastUnlock? }

  /** done_mutex_ excludes, and its holder is where it holds it. */
  ghost predicate MutexOk(s: State) {
    && (s.done.TheStop? ==> StopHolds(s.stop))
    && (s.done.TheServe? ==> ServeHolds(s.serve))
    && (s.done.TheThread? ==> s.done.i < |s.threads| && ThreadHolds(s.threads[s.done.i].pc))
    && (StopHolds(s.stop) ==> s.done == TheStop)
    && (ServeHolds(s.serve) ==> s.done == TheServe)
    && (forall i :: 0 <= i < |s.threads| && ThreadHolds(s.threads[i].pc) ==> s.done == TheThread(i))
  }

  /** A thread that has still to lock the mutex and notify. */
  predicate WillNotify(p: ThreadPc) { p.LastOut? || p.LastNotify? }

  ghost predicate SomeoneWillNotify(ts: seq<Thread>) {
    exists i :: 0 <= i < |ts| && WillNotify(ts[i].pc)
  }

  ghost predicate StopIsWoken(s: State) {
    s.stop == Draining(Dozing) || s.stop == Draining(Asleep) ==> s.activeCount > 0 || SomeoneWillNotify(s.threads)
  }

  ghost predicate ServeIsWoken(s: State) {
    (s.serve == Blocked(Dozing) || s.serve == Blocked(Asleep)) && !s.serving ==> s.stop.FinalLock? || s.stop.FinalNotify?
  }

  ghost predicate WakeInv(s: State) {
    CountsOk(s) && MutexOk(s) && StopIsWoken(s) && ServeIsWoken(s)
  }

  /** A thread step leaves the mutex alone, takes it when it is free, or gives it back. */
  lemma ThreadStepAndMutex(s: State, step: Step)
    requires Enabled(s, step) && IsThreadStep(step)
    ensures var s', i := ApplyThread(s, step), step.i;
            && (StopHolds(s'.stop) <==> StopHolds(s.stop)) && (ServeHolds(s'.serve) <==> ServeHolds(s.serve))
            && ((s'.done == s.done && (ThreadHolds(s.threads[i].pc) <==> ThreadHolds(ThreadAfter(s, step).pc)))
                || (s.done.Nobody? && s'.done == TheThread(i))
                || (ThreadHolds(s.threads[i].pc) && s'.done.Nobody? && !ThreadHolds(ThreadAfter(s, step).pc)))
  {}

  lemma ThreadStepKeepsMutex(s: State, step: Step)
    requires WakeInv(s) && Enabled(s, step) && IsThreadStep(step)
    ensures MutexOk(ApplyThread(s, step))
  {
    ThreadStepAndMutex(s, step);
  }

  /** A thread that will notify goes on to do so; another one's step leaves it alone. */
  lemma OthersStillNotify(ts: seq<Thread>, i: nat, t: Thread)
    requires i < |ts| && SomeoneWillNotify(ts) && (WillNotify(ts[i].pc) ==> WillNotify(t.pc))
    ensures SomeoneWillNotify(ts[i := t])
  {
    var j :| 0 <= j < |ts| && WillNotify(ts[j].pc);
    assert WillNotify(ts[i := t][j].pc);
  }

  lemma DecrementKeepsWoken(s: State, i: nat)
    requires WakeInv(s) && Enabled(s, Decrement(i))
    ensures StopIsWoken(ApplyThread(s, Decrement(i))) && ServeIsWoken(ApplyThread(s, Decrement(i)))
  {
    SumsAtLeastZero(s.threads);
    assert IsActive(s.threads[i]);
    var t := ThreadAfter(s, Decrement(i));
    if s.activeCount == 1 {
      assert WillNotify(s.threads[i := t][i].pc);
    }
  }

  lemma NotifyKeepsWoken(s: State, i: nat)
    requires WakeInv(s) && Enabled(s, NotifyLast(i))
    ensures StopIsWoken(ApplyThread(s, NotifyLast(i))) && ServeIsWoken(ApplyThread(s, NotifyLast(i)))
  {}

  /** The other steps of a thread touch neither the waiting threads nor the count. */
  lemma QuietThreadStep(s: State, step: Step)
    requires Enabled(s, step) && IsThreadStep(step) && !step.Decrement? && !step.NotifyLast?
    ensures var s' := ApplyThread(s, step);
            && s'.stop == s.stop && s'.serve == s.serve && s'.serving == s.serving && s'.activeCount == s.activeCount
            && s'.threads == s.threads[step.i := ThreadAfter(s, step)]
            && (WillNotify(s.threads[step.i].pc) ==> WillNotify(ThreadAfter(s, step).pc))
  {}

  lemma ThreadStepKeepsWoken(s: State, step: Step)
    requires WakeInv(s) && Enabled(s, step) && IsThreadStep(step)
    ensures StopIsWoken(ApplyThread(s, step)) && ServeIsWoken(ApplyThread(s, step))
  {
    if step.Decrement? {
      DecrementKeepsWoken(s, step.i);
    } else if step.NotifyLast? {
      NotifyKeepsWoken(s, step.i);
    } else {
      QuietThreadStep(s, step);
      if SomeoneWillNotify(s.threads) {
        OthersStillNotify(s.threads, step.i, ThreadAfter(s, step));
      }
    }
  }

  /** The acceptor's steps leave the waiting threads alone; it only adds to the count. */
  lemma AcceptorStepShape(s: State, step: Step)
    requires Enabled(s, step) && IsAcceptorStep(step)
    ensures var s' := ApplyAcceptor(s, step);
            && s'.stop == s.stop && s'.serve == s.serve && s'.serving == s.serving && s'.done == s.done
            && s'.activeCount >= s.activeCount
            && (s'.threads == s.threads
                || (s.acceptor.Spawning? && s'.threads == s.threads + [Thread(s.acceptor.conn, Starting)]))
  {}

  lemma StillNotify(ts: seq<Thread>, more: seq<Thread>)
    requires SomeoneWillNotify(ts)
    ensures SomeoneWillNotify(ts + more)
  {
    var j :| 0 <= j < |ts| && WillNotify(ts[j].pc);
    assert WillNotify((ts + more)[j].pc);
  }

  lemma AcceptorStepKeepsWake(s: State, step: Step)
    requires WakeInv(s) && Enabled(s, step) && IsAcceptorStep(step)
    ensures var s' := ApplyAcceptor(s, step); MutexOk(s') && StopIsWoken(s') && ServeIsWoken(s')
  {
    AcceptorStepShape(s, step);
    if SomeoneWillNotify(s.threads) && s.acceptor.Spawning? {
      StillNotify(s.threads, [Thread(s.acceptor.conn, Starting)]);
    }
  }

  lemma ServeStepKeepsWake(s: State, step: Step)
    requires WakeInv(s) && Enabled(s, step) && IsServeStep(step)
    ensures var s' := ApplyServe(s, step); MutexOk(s') && StopIsWoken(s') && ServeIsWoken(s')
  {}

  lemma StopStepKeepsWake(s: State, step: Step)
    requires WakeInv(s) && Enabled(s, step) && IsStopStep(step)
    ensures var s' := ApplyStop(s, step); MutexOk(s') && StopIsWoken(s') && ServeIsWoken(s')
  {
    if step.StopTest? {
      CountNotNegative(s);
    }
  }

  lemma CountNotNegative(s: State)
    requires CountsOk(s)
    ensures s.activeCount >= 0
  {
    SumsAtLeastZero(s.threads);
  }

  lemma StepKeepsWake(s: State, step: Step)
    requires WakeInv(s) && Enabled(s, step)
    ensures WakeInv(Apply(s, step))
  {
    StepKeepsCounts(s, step);
    if IsThreadStep(step) {
      ThreadStepKeepsMutex(s, step);
      ThreadStepKeepsWoken(s, step);
    } else if IsAcceptorStep(step) {
      AcceptorStepKeepsWake(s, step);
    } else if IsServeStep(step) {
      ServeStepKeepsWake(s, step);
    } else {
      StopStepKeepsWake(s, step);
    }
  }

  lemma {:induction false} RunKeepsWake(s: State, steps: seq<Step>, s': State)
    requires WakeInv(s) && Reachable(s, steps, s')
    ensures WakeInv(s')
    decreases |steps|
  {
    if steps != [] {
      StepKeepsWake(s, steps[0]);
      RunKeepsWake(Apply(s, steps[0]), steps[1..], s');
    }
  }

  /**
    Whenever stop() sleeps although no handler is active any more, a guard thread is still to
    notify; whenever serve() sleeps although serving has ended, stop() is.
  */
  lemma NoLostWakeup(s0: State, steps: seq<Step>, s: State)
    requires Initial(s0) && Reachable(s0, steps, s)
    ensures s.stop == Draining(Asleep) && s.activeCount == 0 ==> SomeoneWillNotify(s.threads)
    ensures s.serve == Blocked(Asleep) && !s.serving ==> s.stop.FinalLock? || s.stop.FinalNotify?
  {
    RunKeepsWake(s0, steps, s);
  }

  // ---------------------------------------------------------------------------------------
  // Connections and sessions
  // ---------------------------------------------------------------------------------------

  predicate InHand(a: Acceptor, c: int) {
    (a.HasConnection? || a.Acquired? || a.Restoring? || a.Counting? || a.Spawning?) && a.conn == c
  }

  /** Every accepted connection is in the acceptor's hand, with the one thread it was given to, or dropped. */
  ghost predicate PlacedOnce(s: State, c: nat) {
    || (InHand(s.acceptor, c) && c !in s.given && c !in s.dropped)
    || (!InHand(s.acceptor, c) && c in s.given && c !in s.dropped
        && s.given[c] < |s.threads| && s.threads[s.given[c]].conn == c)
    || (!InHand(s.acceptor, c) && c !in s.given && c in s.dropped)
  }

  ghost predicate PlacesOk(s: State) {
    && (forall c :: 0 <= c < s.accepted ==> PlacedOnce(s, c))
    && (forall c :: InHand(s.acceptor, c) || c in s.given || c in s.dropped ==> 0 <= c < s.accepted)
    && (forall i :: 0 <= i < |s.threads| ==> s.threads[i].conn in s.given && s.given[s.threads[i].conn] == i)
  }

  predicate IsListed(t: Thread) { t.pc.Running? || t.pc.Folding? }

  predicate IsFolded(t: Thread) { !t.pc.Starting? && !IsListed(t) }

  ghost predicate SessionsOk(s: State) {
    && (forall i :: 0 <= i < |s.threads| ==> (i in s.listed <==> IsListed(s.threads[i])))
    && (forall i :: 0 <= i < |s.threads| ==> (i in s.folded <==> IsFolded(s.threads[i])))
    && (forall i :: i in s.listed || i in s.folded ==> i < |s.threads|)
  }

  lemma ThreadStepKeepsPlaces(s: State, step: Step)
    requires PlacesOk(s) && Enabled(s, step) && IsThreadStep(step)
    ensures PlacesOk(ApplyThread(s, step))
  {
    var s' := ApplyThread(s, step);
    ThreadStepShape(s, step);
    assert s'.given == s.given && s'.dropped == s.dropped && s'.accepted == s.accepted;
    forall c | 0 <= c < s'.accepted ensures PlacedOnce(s', c) {
      assert PlacedOnce(s, c);
    }
  }

  lemma AcceptorStepKeepsPlaces(s: State, step: Step)
    requires PlacesOk(s) && Enabled(s, step) && IsAcceptorStep(step)
    ensures PlacesOk(ApplyAcceptor(s, step))
  {
    var s' := ApplyAcceptor(s, step);
    forall c | 0 <= c < s'.accepted ensures PlacedOnce(s', c) {
      if c < s.accepted {
        assert PlacedOnce(s, c);
      }
    }
    if step.Spawn? {
      assert InHand(s.acceptor, s.acceptor.conn) && PlacedOnce(s, s.acceptor.conn);
    }
  }

  lemma ControlKeepsPlaces(s: State, step: Step)
    requires PlacesOk(s) && SessionsOk(s) && Enabled(s, step) && !IsThreadStep(step) && !IsAcceptorStep(step)
    ensures PlacesOk(Apply(s, step)) && SessionsOk(Apply(s, step))
  {
    var s' := Apply(s, step);
    ControlShape(s, step);
    forall c | 0 <= c < s'.accepted ensures PlacedOnce(s', c) {
      assert PlacedOnce(s, c);
    }
  }

  lemma ControlShape(s: State, step: Step)
    requires Enabled(s, step) && !IsThreadStep(step) && !IsAcceptorStep(step)
    ensures var s' := Apply(s, step);
            && s'.threads == s.threads && s'.given == s.given && s'.dropped == s.dropped
            && s'.accepted == s.accepted && s'.listed == s.listed && s'.folded == s.folded
            && forall c :: InHand(s'.acceptor, c) <==> InHand(s.acceptor, c)
  {}

  /** Listing and folding go with the thread's own progress. */
  lemma ThreadStepAndSessions(s: State, step: Step)
    requires Enabled(s, step) && IsThreadStep(step)
    ensures var s', i, t, t' := ApplyThread(s, step), step.i, s.threads[step.i], ThreadAfter(s, step);
            && s'.folded - {i} == s.folded - {i}
            && (i in s'.folded <==> i in s.folded || (IsFolded(t') && !IsFolded(t)))
            && (IsFolded(t) ==> IsFolded(t'))
  {}

  lemma ThreadStepAndList(s: State, step: Step)
    requires Enabled(s, step) && IsThreadStep(step)
    ensures var s', i, t, t' := ApplyThread(s, step), step.i, s.threads[step.i], ThreadAfter(s, step);
            && s'.listed - {i} == s.listed - {i}
            && (i in s'.listed <==> if IsListed(t') == IsListed(t) then i in s.listed else IsListed(t'))
  {}

  lemma ThreadStepKeepsSessions(s: State, step: Step)
    requires SessionsOk(s) && Enabled(s, step) && IsThreadStep(step)
    ensures SessionsOk(ApplyThread(s, step))
  {
    var s', i := ApplyThread(s, step), step.i;
    ThreadStepAndSessions(s, step);
    ThreadStepAndList(s, step);
    forall j | j in s'.listed || j in s'.folded ensures j < |s'.threads| {
      if j != i {
        assert j in s'.listed - {i} || j in s'.folded - {i};
      }
    }
    forall j | 0 <= j < |s.threads| && j != i
      ensures (j in s'.listed <==> j in s.listed) && (j in s'.folded <==> j in s.folded)
    {
      assert j in s'.listed <==> j in s'.listed - {i};
      assert j in s'.folded <==> j in s'.folded - {i};
    }
  }

  lemma AcceptorStepKeepsSessions(s: State, step: Step)
    requires SessionsOk(s) && Enabled(s, step) && IsAcceptorStep(step)
    ensures SessionsOk(ApplyAcceptor(s, step))
  {}

  lemma StepKeepsPlaces(s: State, step: Step)
    requires PlacesOk(s) && SessionsOk(s) && Enabled(s, step)
    ensures PlacesOk(Apply(s, step)) && SessionsOk(Apply(s, step))
  {
    if IsThreadStep(step) {
      ThreadStepKeepsPlaces(s, step);
      ThreadStepKeepsSessions(s, step);
    } else if IsAcceptorStep(step) {
      AcceptorStepKeepsPlaces(s, step);
      AcceptorStepKeepsSessions(s, step);
    } else {
      ControlKeepsPlaces(s, step);
    }
  }

  lemma {:induction false} RunKeepsPlaces(s: State, steps: seq<Step>, s': State)
    requires PlacesOk(s) && SessionsOk(s) && Reachable(s, steps, s')
    ensures PlacesOk(s') && SessionsOk(s')
    decreases |steps|
  {
    if steps != [] {
      StepKeepsPlaces(s, steps[0]);
      RunKeepsPlaces(Apply(s, steps[0]), steps[1..], s');
    }
  }
}
