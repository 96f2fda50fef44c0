/**
  The multi-connection server: an acceptor thread, one detached thread per connection with
  its slot guard, one thread that calls serve and one that calls stop, over any number of
  sessions. Every atomic operation and every critical section is one step.
*/
module MultiServer {
  import opened Sums

  /** The loop of a condition-variable wait: lock, test, and sleep if the test fails. */
  datatype Wait = Locking | Testing | Dozing | Asleep

  /** serve(): after the exchange of serving_ it sets up the session, then waits for its end. */
  datatype ServePc =
    | NotServing
    | ClearingFlag
    | Creating          // the platform object and its listening socket
    | Launching         // about to start the acceptor thread
    | Blocked(wait: Wait)

  predicate InSetUp(p: ServePc) { p.ClearingFlag? || p.Creating? || p.Launching? }

  datatype StopPc =
    | Idle
    | SettingFlag | Interrupting | Posting | Joining   // up to the extra release and the join
    | Draining(wait: Wait)                             // waits for active_count_ to reach 0
    | Finishing                                        // about to reset the platform and serving_
    | FinalLock | FinalNotify | FinalUnlock

  datatype Acceptor =
    | Absent
    | AtLoop
    | Accepting
    | HasConnection(conn: nat)   // about to acquire a slot
    | Acquired(conn: nat)        // about to look at the stop flag again
    | Restoring(conn: nat)
    | Counting(conn: nat)        // about to add to active_count_
    | Spawning(conn: nat)
    | Exited

  datatype ThreadPc =
    | Starting       // the session is not listed yet
    | Running
    | Folding        // from here on the slot guard
    | Releasing
    | Decrementing
    | LastOut        // it took the count to 0
    | LastNotify
    | LastUnlock
    | Gone

  datatype Thread = Thread(conn: nat, pc: ThreadPc)

  datatype Owner = Nobody | TheStop | TheServe | TheThread(i: nat)

  datatype State = State(
    max: nat,
    permits: int,
    serving: bool,
    stopFlag: bool,
    activeCount: int,
    done: Owner,              // who holds done_mutex_
    serve: ServePc,
    stop: StopPc,
    acceptor: Acceptor,
    threads: seq<Thread>,     // all that were ever spawned
    listed: set<nat>,         // active_stats_
    folded: set<nat>,         // sessions added to accumulated_stats_
    posts: nat,               // extra releases by stop
    ended: nat,               // stops that have reset serving_
    accepted: nat,            // connections accepted so far
    given: map<nat, nat>,     // which thread got a connection
    dropped: set<nat>)

  datatype AcceptError = TimedOut | OtherError

  datatype Step =
    | CallServe | ClearFlag | Create | SetUpFails | Launch | ServeLock | ServeTest | ServeSleep | ServeWake
    | CallStop | SetFlag | Interrupt | Post | Join
    | StopLock | StopTest | StopSleep | StopWake | Finish | LockFinally | NotifyFinally | UnlockFinally
    | TestFlag | Accept | AcceptFails(error: AcceptError) | Acquire | TestAgain | Restore | Count | Spawn
    | List(i: nat) | Return(i: nat) | Fold(i: nat) | Release(i: nat) | Decrement(i: nat)
    | LockLast(i: nat) | NotifyLast(i: nat) | UnlockLast(i: nat)

  ghost predicate Initial(s: State) {
    && s.permits == s.max && !s.serving && !s.stopFlag && s.activeCount == 0 && s.done.Nobody?
    && s.serve.NotServing? && s.stop.Idle? && s.acceptor.Absent? && s.threads == []
    && s.listed == {} && s.folded == {} && s.posts == 0 && s.ended == 0
    && s.accepted == 0 && s.given == map[] && s.dropped == {}
  }

  predicate At(s: State, i: nat, pc: ThreadPc) {
    i < |s.threads| && s.threads[i].pc == pc
  }

  predicate Enabled(s: State, step: Step) {
    match step
    case CallServe => s.serve.NotServing?
    case ClearFlag => s.serve.ClearingFlag?
    case Create => s.serve.Creating?
    case SetUpFails => s.serve.Creating? || s.serve.Launching?
    // Assigning to a thread that has not been joined ends the program.
    case Launch => s.serve.Launching? && s.acceptor.Absent?
    case ServeLock => s.serve == Blocked(Locking) && s.done.Nobody?
    case ServeTest => s.serve == Blocked(Testing)
    case ServeSleep => s.serve == Blocked(Dozing)
    case ServeWake => s.serve == Blocked(Asleep)
    case CallStop => s.stop.Idle?
    case SetFlag => s.stop.SettingFlag?
    case Interrupt => s.stop.Interrupting?
    case Post => s.stop.Posting?
    case Join => s.stop.Joining? && (s.acceptor.Exited? || s.acceptor.Absent?)
    case StopLock => s.stop == Draining(Locking) && s.done.Nobody?
    case StopTest => s.stop == Draining(Testing)
    case StopSleep => s.stop == Draining(Dozing)
    case StopWake => s.stop == Draining(Asleep)
    case Finish => s.stop.Finishing?
    case LockFinally => s.stop.FinalLock? && s.done.Nobody?
    case NotifyFinally => s.stop.FinalNotify?
    case UnlockFinally => s.stop.FinalUnlock?
    case TestFlag => s.acceptor.AtLoop?
    case Accept => s.acceptor.Accepting?
    case AcceptFails(_) => s.acceptor.Accepting?
    case Acquire => s.acceptor.HasConnection? && s.permits > 0
    case TestAgain => s.acceptor.Acquired?
    case Restore => s.acceptor.Restoring?
    case Count => s.acceptor.Counting?
    case Spawn => s.acceptor.Spawning?
    case List(i) => At(s, i, Starting)
    case Return(i) => At(s, i, Running)
    case Fold(i) => At(s, i, Folding)
    case Release(i) => At(s, i, Releasing)
    case Decrement(i) => At(s, i, Decrementing)
    case LockLast(i) => At(s, i, LastOut) && s.done.Nobody?
    case NotifyLast(i) => At(s, i, LastNotify)
    case UnlockLast(i) => At(s, i, LastUnlock)
  }

  /** notify_all on done_cv_. */
  function Notified(s: State): State {
    s.(serve := if s.serve == Blocked(Asleep) then Blocked(Locking) else s.serve,
       stop := if s.stop == Draining(Asleep) then Draining(Locking) else s.stop)
  }

  predicate IsThreadStep(step: Step) {
    || step.List? || step.Return? || step.Fold? || step.Release? || step.Decrement?
    || step.LockLast? || step.NotifyLast? || step.UnlockLast?
  }

  function NextPc(s: State, step: Step): ThreadPc
    requires IsThreadStep(step)
  {
    match step
    case List(_) => Running
    case Return(_) => Folding
    case Fold(_) => Releasing
    case Release(_) => Decrementing
    case Decrement(_) => if s.activeCount == 1 then LastOut else Gone
    case LockLast(_) => LastNotify
    case NotifyLast(_) => LastUnlock
    case UnlockLast(_) => Gone
  }

  /** What the step of a thread does to everything else. */
  function Effect(s: State, step: Step): State
    requires IsThreadStep(step)
  {
    match step
    case List(i) => s.(listed := s.listed + {i})
    case Return(_) => s
    case Fold(i) => s.(listed := s.listed - {i}, folded := s.folded + {i})
    case Release(_) => s.(permits := s.permits + 1)
    case Decrement(_) => s.(activeCount := s.activeCount - 1)
    case LockLast(i) => s.(done := TheThread(i))
    case NotifyLast(_) => Notified(s)
    case UnlockLast(_) => s.(done := Nobody)
  }

  function ThreadAfter(s: State, step: Step): Thread
    requires Enabled(s, step) && IsThreadStep(step)
  {
    s.threads[step.i].(pc := NextPc(s, step))
  }

  function ApplyThread(s: State, step: Step): State
    requires Enabled(s, step) && IsThreadStep(step)
  {
    Effect(s, step).(threads := s.threads[step.i := ThreadAfter(s, step)])
  }

  predicate IsAcceptorStep(step: Step) {
    || step.TestFlag? || step.Accept? || step.AcceptFails? || step.Acquire? || step.TestAgain?
    || step.Restore? || step.Count? || step.Spawn?
  }

  function ApplyAcceptor(s: State, step: Step): State
    requires Enabled(s, step) && IsAcceptorStep(step)
  {
    match step
    case TestFlag => s.(acceptor := if s.stopFlag then Exited else Accepting)
    case Accept => s.(acceptor := HasConnection(s.accepted), accepted := s.accepted + 1)
    case AcceptFails(e) => s.(acceptor := if e.TimedOut? then AtLoop else Exited)
    case Acquire => s.(acceptor := Acquired(s.acceptor.conn), permits := s.permits - 1)
    case TestAgain => s.(acceptor := if s.stopFlag then Restoring(s.acceptor.conn) else Counting(s.acceptor.conn))
    case Restore => s.(acceptor := Exited, permits := s.permits + 1, dropped := s.dropped + {s.acceptor.conn})
    case Count => s.(acceptor := Spawning(s.acceptor.conn), activeCount := s.activeCount + 1)
    case Spawn =>
      s.(acceptor := AtLoop, threads := s.threads + [Thread(s.acceptor.conn, Starting)],
         given := s.given[s.acceptor.conn := |s.threads|])
  }

  predicate IsServeStep(step: Step) {
    || step.CallServe? || step.ClearFlag? || step.Create? || step.SetUpFails? || step.Launch?
    || step.ServeLock? || step.ServeTest? || step.ServeSleep? || step.ServeWake?
  }

  function ApplyServe(s: State, step: Step): State
    requires Enabled(s, step) && IsServeStep(step)
  {
    match step
    // A second serve() throws AlreadyConnected.
    case CallServe => if s.serving then s else s.(serving := true, serve := ClearingFlag)
    case ClearFlag => s.(stopFlag := false, serve := Creating)
    case Create => s.(serve := Launching)
    // serve() throws; serving_ stays set until a stop().
    case SetUpFails => s.(serve := NotServing)
    case Launch => s.(acceptor := AtLoop, serve := Blocked(Locking))
    case ServeLock => s.(serve := Blocked(Testing), done := TheServe)
    case ServeTest =>
      if s.serving then s.(serve := Blocked(Dozing)) else s.(serve := NotServing, done := Nobody)
    case ServeSleep => s.(serve := Blocked(Asleep), done := Nobody)
    case ServeWake => s.(serve := Blocked(Locking))
  }

  predicate IsStopStep(step: Step) {
    !IsThreadStep(step) && !IsAcceptorStep(step) && !IsServeStep(step)
  }

  function ApplyStop(s: State, step: Step): State
    requires Enabled(s, step) && IsStopStep(step)
  {
    match step
    // stop() on a server that is not serving returns at once.
    case CallStop => if s.serving then s.(stop := SettingFlag) else s
    case SetFlag => s.(stopFlag := true, stop := Interrupting)
    case Interrupt => s.(stop := Posting)
    case Post => s.(permits := s.permits + 1, posts := s.posts + 1, stop := Joining)
    case Join => s.(acceptor := Absent, stop := Draining(Locking))
    case StopLock => s.(stop := Draining(Testing), done := TheStop)
    case StopTest =>
      if s.activeCount == 0 then s.(stop := Finishing, done := Nobody) else s.(stop := Draining(Dozing))
    case StopSleep => s.(stop := Draining(Asleep), done := Nobody)
    case StopWake => s.(stop := Draining(Locking))
    case Finish => s.(serving := false, ended := s.ended + 1, stop := FinalLock)
    case LockFinally => s.(stop := FinalNotify, done := TheStop)
    case NotifyFinally => Notified(s).(stop := FinalUnlock)
    case UnlockFinally => s.(stop := Idle, done := Nobody)
  }

  function Apply(s: State, step: Step): State
    requires Enabled(s, step)
  {
    if IsThreadStep(step) then ApplyThread(s, step)
    else if IsAcceptorStep(step) then ApplyAcceptor(s, step)
    else if IsServeStep(step) then ApplyServe(s, step)
    else ApplyStop(s, step)
  }

  ghost predicate Reachable(s: State, steps: seq<Step>, s': State)
    decreases |steps|
  {
    if steps == [] then s == s'
    else Enabled(s, steps[0]) && Reachable(Apply(s, steps[0]), steps[1..], s')
  }

  // ---------------------------------------------------------------------------------------
  // Slots and counts
  // ---------------------------------------------------------------------------------------

  /** The thread has not given its slot back. */
  predicate HoldsSlot(t: Thread) {
    t.pc.Starting? || t.pc.Running? || t.pc.Folding? || t.pc.Releasing?
  }

  predicate IsActive(t: Thread) { HoldsSlot(t) || t.pc.Decrementing? }

  function Slots(ts: seq<Thread>): (w: seq<int>)
    ensures |w| == |ts| && forall i :: 0 <= i < |ts| ==> w[i] == if HoldsSlot(ts[i]) then 1 else 0
  {
    seq(|ts|, i requires 0 <= i < |ts| => if HoldsSlot(ts[i]) then 1 else 0)
  }

  function Actives(ts: seq<Thread>): (w: seq<int>)
    ensures |w| == |ts| && forall i :: 0 <= i < |ts| ==> w[i] == if IsActive(ts[i]) then 1 else 0
  {
    seq(|ts|, i requires 0 <= i < |ts| => if IsActive(ts[i]) then 1 else 0)
  }

  function RunningFlags(ts: seq<Thread>): (w: seq<int>)
    ensures |w| == |ts| && forall i :: 0 <= i < |ts| ==> w[i] == if ts[i].pc.Running? then 1 else 0
  {
    seq(|ts|, i requires 0 <= i < |ts| => if ts[i].pc.Running? then 1 else 0)
  }

  function AcceptorSlot(a: Acceptor): int {
    if a.Acquired? || a.Restoring? || a.Counting? || a.Spawning? then 1 else 0
  }

  /** The acceptor is past its last look at the stop flag. */
  function AcceptorBound(a: Acceptor): int {
    if a.Counting? || a.Spawning? then 1 else 0
  }

  function AcceptorActive(a: Acceptor): int {
    if a.Spawning? then 1 else 0
  }

  /** The extra release has happened and the session has not ended. */
  predicate Posted(p: StopPc) { p.Joining? || p.Draining? || p.Finishing? }

  predicate BeforeEnd(p: StopPc) { p.SettingFlag? || p.Interrupting? || p.Posting? || Posted(p) }

  ghost predicate SlotsOk(s: State) {
    && s.permits >= 0
    && s.permits + AcceptorSlot(s.acceptor) + Sum(Slots(s.threads)) == s.max + s.posts
    && s.posts == s.ended + (if Posted(s.stop) then 1 else 0)
  }

  ghost predicate CountOk(s: State) {
    s.activeCount == AcceptorActive(s.acceptor) + Sum(Actives(s.threads))
  }

  /** What holds in every run. */
  ghost predicate CountsOk(s: State) {
    SlotsOk(s) && CountOk(s)
  }

  lemma UpdateSums(ts: seq<Thread>, i: nat, t: Thread)
    requires i < |ts|
    ensures Sum(Slots(ts[i := t])) == Sum(Slots(ts)) - (if HoldsSlot(ts[i]) then 1 else 0) + (if HoldsSlot(t) then 1 else 0)
    ensures Sum(Actives(ts[i := t])) == Sum(Actives(ts)) - (if IsActive(ts[i]) then 1 else 0) + (if IsActive(t) then 1 else 0)
  {
    SumUpdate(Slots(ts), i, if HoldsSlot(t) then 1 else 0);
    assert Slots(ts[i := t]) == Slots(ts)[i := if HoldsSlot(t) then 1 else 0];
    SumUpdate(Actives(ts), i, if IsActive(t) then 1 else 0);
    assert Actives(ts[i := t]) == Actives(ts)[i := if IsActive(t) then 1 else 0];
  }

  lemma AppendSums(ts: seq<Thread>, t: Thread)
    requires t.pc.Starting?
    ensures Sum(Slots(ts + [t])) == Sum(Slots(ts)) + 1
    ensures Sum(Actives(ts + [t])) == Sum(Actives(ts)) + 1
  {
    SumAppend(Slots(ts), 1);
    assert Slots(ts + [t]) == Slots(ts) + [1];
    SumAppend(Actives(ts), 1);
    assert Actives(ts + [t]) == Actives(ts) + [1];
  }

  lemma SumsAtLeastZero(ts: seq<Thread>)
    ensures Sum(Slots(ts)) >= 0 && Sum(Actives(ts)) >= 0
    ensures forall i :: 0 <= i < |ts| && IsActive(ts[i]) ==> Sum(Actives(ts)) >= 1
  {
    SumLowerBound(Slots(ts));
    SumLowerBound(Actives(ts));
    forall i | 0 <= i < |ts| && IsActive(ts[i]) ensures Sum(Actives(ts)) >= 1 {
      assert Actives(ts)[i] == 1;
    }
  }

  lemma ThreadStepKeepsCounts(s: State, step: Step)
    requires CountsOk(s) && Enabled(s, step) && IsThreadStep(step)
    ensures CountsOk(ApplyThread(s, step))
  {
    SumsAtLeastZero(s.threads);
    ThreadStepShape(s, step);
    UpdateSums(s.threads, step.i, ThreadAfter(s, step));
  }

  /** All that a thread's step can do to the counters. */
  lemma ThreadStepShape(s: State, step: Step)
    requires Enabled(s, step) && IsThreadStep(step)
    ensures var s', t, t' := ApplyThread(s, step), s.threads[step.i], ThreadAfter(s, step);
            && s'.threads == s.threads[step.i := t'] && t'.conn == t.conn
            && s'.acceptor == s.acceptor && s'.max == s.max && s'.posts == s.posts && s'.ended == s.ended
            && s'.serving == s.serving && s'.stopFlag == s.stopFlag
            && (s'.stop == s.stop || (s.stop.Draining? && s'.stop.Draining?))
            && s'.permits == s.permits + (if HoldsSlot(t) && !HoldsSlot(t') then 1 else 0)
            && s'.activeCount == s.activeCount - (if IsActive(t) && !IsActive(t') then 1 else 0)
            && (HoldsSlot(t') ==> HoldsSlot(t)) && (IsActive(t') ==> IsActive(t))
  {}

  lemma AcceptorKeepsSlots(s: State, step: Step)
    requires CountsOk(s) && Enabled(s, step) && IsAcceptorStep(step)
    ensures SlotsOk(ApplyAcceptor(s, step))
  {
    if step.Spawn? {
      SpawnKeepsSlots(s);
    } else {
      SumsAtLeastZero(s.threads);
    }
  }

  lemma SpawnKeepsSlots(s: State)
    requires CountsOk(s) && Enabled(s, Spawn)
    ensures SlotsOk(ApplyAcceptor(s, Spawn))
  {
    AppendSums(s.threads, Thread(s.acceptor.conn, Starting));
  }

  lemma AcceptorKeepsCount(s: State, step: Step)
    requires CountsOk(s) && Enabled(s, step) && IsAcceptorStep(step)
    ensures CountOk(ApplyAcceptor(s, step))
  {
    if step.Spawn? {
      AppendSums(s.threads, Thread(s.acceptor.conn, Starting));
    }
  }

  lemma ServeStepKeepsCounts(s: State, step: Step)
    requires CountsOk(s) && Enabled(s, step) && IsServeStep(step)
    ensures CountsOk(ApplyServe(s, step))
  {}

  lemma StopStepKeepsCounts(s: State, step: Step)
    requires CountsOk(s) && Enabled(s, step) && IsStopStep(step)
    ensures CountsOk(ApplyStop(s, step))
  {}

  lemma StepKeepsCounts(s: State, step: Step)
    requires CountsOk(s) && Enabled(s, step)
    ensures CountsOk(Apply(s, step))
  {
    if IsThreadStep(step) {
      ThreadStepKeepsCounts(s, step);
    } else if IsAcceptorStep(step) {
      AcceptorKeepsSlots(s, step);
      AcceptorKeepsCount(s, step);
    } else if IsServeStep(step) {
      ServeStepKeepsCounts(s, step);
    } else {
      StopStepKeepsCounts(s, step);
    }
  }

  lemma MaxStays(s: State, step: Step)
    requires Enabled(s, step)
    ensures Apply(s, step).max == s.max
  {
    if IsThreadStep(step) {
      ThreadStepShape(s, step);
    }
  }

  lemma {:induction false} RunKeepsCounts(s: State, steps: seq<Step>, s': State)
    requires CountsOk(s) && Reachable(s, steps, s')
    ensures CountsOk(s') && s'.max == s.max
    decreases |steps|
  {
    if steps != [] {
      MaxStays(s, steps[0]);
      StepKeepsCounts(s, steps[0]);
      RunKeepsCounts(Apply(s, steps[0]), steps[1..], s');
    }
  }

  /**
    Permits and held slots together are the limit plus one for every effective stop: what stop
    adds is never taken back, because the acceptor's "restore" releases again.
  */
  lemma PermitsConserved(s0: State, steps: seq<Step>, s: State)
    requires Initial(s0) && Reachable(s0, steps, s)
    ensures s.permits + AcceptorSlot(s.acceptor) + Sum(Slots(s.threads)) == s0.max + s.posts
    ensures s.permits >= 0 && s.ended <= s.posts <= s.ended + 1
  {
    RunKeepsCounts(s0, steps, s);
  }

  // ---------------------------------------------------------------------------------------
  // The acceptor loop and the slot guard as they run on the atomics
  // ---------------------------------------------------------------------------------------

  datatype AcceptAnswer = Connected | Refused(error: AcceptError)

  /** One round of the loop as other threads shape it: flag reads, the accept, guards that release meanwhile. */
  datatype Round = Round(stopBefore: bool, answer: AcceptAnswer, released: nat, stopAfter: bool)

  function Released(rounds: seq<Round>): nat {
    if rounds == [] then 0 else Released(rounds[..|rounds| - 1]) + rounds[|rounds| - 1].released
  }

  /** A connection of this round gets a handler; after a round of either kind the loop goes on. */
  predicate Spawns(r: Round) { !r.stopBefore && r.answer.Connected? && !r.stopAfter }

  predicate Retries(r: Round) { !r.stopBefore && r.answer == Refused(TimedOut) }

  function SpawnsIn(rounds: seq<Round>): nat {
    if rounds == [] then 0
    else SpawnsIn(rounds[..|rounds| - 1]) + if Spawns(rounds[|rounds| - 1]) then 1 else 0
  }

  datatype AcceptorExit =
    | Stopped    // it saw the stop flag
    | Failed
    | NoPermit   // it waits for a slot with a connection in hand
    | Waiting    // the script has ended

  /** The round in which the loop ended, and how many connections it dropped. */
  predicate EndsWith(r: Round, exit: AcceptorExit, dropped: nat) {
    match exit
    case Stopped =>
      if r.stopBefore then dropped == 0 else r.answer.Connected? && r.stopAfter && dropped == 1
    case Failed => !r.stopBefore && r.answer == Refused(OtherError) && dropped == 0
    case NoPermit => !r.stopBefore && r.answer.Connected? && dropped == 0
    case Waiting => false
  }

  class Atomics {
    var permits: nat
    var activeCount: nat
    var notified: bool

    constructor (max: nat)
      ensures permits == max && activeCount == 0 && !notified
    {
      permits, activeCount, notified := max, 0, false;
    }

    /**
      run_acceptor over the first `used` rounds: each spawned handler keeps one permit and
      counts once; a connection accepted too late is dropped and costs none.
    */
    method RunAcceptor(rounds: seq<Round>) returns (exit: AcceptorExit, spawned: nat, dropped: nat, used: nat)
      modifies this`permits, this`activeCount
      ensures used <= |rounds|
      ensures permits + spawned == old(permits) + Released(rounds[..used])
      ensures activeCount == old(activeCount) + spawned
      ensures exit.Waiting? ==> used == |rounds| && forall j :: 0 <= j < used ==> Spawns(rounds[j]) || Retries(rounds[j])
      ensures !exit.Waiting? ==> used > 0 && EndsWith(rounds[used - 1], exit, dropped)
      ensures exit.NoPermit? ==> permits == 0
      ensures spawned == SpawnsIn(if exit.NoPermit? then rounds[..used - 1] else rounds[..used])
      ensures forall j :: 0 <= j < used - 1 ==> Spawns(rounds[j]) || Retries(rounds[j])
      ensures exit.Waiting? ==> dropped == 0
    {
      exit, spawned, dropped, used := Waiting, 0, 0, 0;
      while used < |rounds|
        invariant used <= |rounds| && exit.Waiting? && dropped == 0
        invariant permits + spawned == old(permits) + Released(rounds[..used])
        invariant activeCount == old(activeCount) + spawned
        invariant spawned == SpawnsIn(rounds[..used])
        invariant forall j :: 0 <= j < used ==> Spawns(rounds[j]) || Retries(rounds[j])
      {
        var round := rounds[used];
        assert rounds[..used + 1][..used] == rounds[..used];
        used := used + 1;
        permits := permits + round.released;
        if round.stopBefore {
          exit := Stopped;
          return;
        }
        if round.answer == Refused(TimedOut) {
          continue;
        }
        if round.answer.Refused? {
          assert round.answer.error.OtherError?;
          exit := Failed;
          return;
        }
        if permits == 0 {
          exit := NoPermit;
          return;
        }
        permits := permits - 1;
        if round.stopAfter {
          permits := permits + 1;
          exit, dropped := Stopped, 1;
          return;
        }
        activeCount := activeCount + 1;
        spawned := spawned + 1;
      }
    }

    /** The end of a slot guard, after the session was folded: the last one out notifies. */
    method GuardEnd()
      requires activeCount > 0
      modifies this
      ensures permits == old(permits) + 1 && activeCount == old(activeCount) - 1
      ensures notified == (old(notified) || activeCount == 0)
    {
      permits := permits + 1;
      var before := activeCount;
      activeCount := activeCount - 1;
      if before == 1 {
        notified := true;
      }
    }
  }
}
