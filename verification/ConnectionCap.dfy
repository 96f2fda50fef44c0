/**
  The cap on asynchronous connections: an attempt first adds to a global atomic counter and
  takes its increment back if the counter was already at the cap. Guards of different pipes
  interleave freely; a guard itself is used by one thread at a time.
*/
module ConnectionCap {
  import opened Sums

  const MAX_ASYNC_CONNECTIONS: int := 64

  // ---------------------------------------------------------------------------------------
  // The guard object
  // ---------------------------------------------------------------------------------------

  class AtomicInt {
    var value: int
    constructor () ensures value == 0 { value := 0; }

    method FetchAdd(n: int) returns (previous: int)
      modifies this
      ensures previous == old(value) && value == old(value) + n
    {
      previous := value;
      value := value + n;
    }
  }

  class ConnectionGuard {
    const active: AtomicInt
    var counted: bool

    constructor (active: AtomicInt)
      ensures this.active == active && !counted
    {
      this.active := active;
      counted := false;
    }

    /** Without interference: succeeds exactly below the cap and counts itself once. */
    method Acquire() returns (ok: bool)
      modifies this, active
      ensures ok == (old(active.value) < MAX_ASYNC_CONNECTIONS)
      ensures active.value == old(active.value) + (if ok then 1 else 0)
      ensures counted == (ok || old(counted))
    {
      var previous := active.FetchAdd(1);
      if previous >= 64 {
        previous := active.FetchAdd(-1);
        return false;
      }
      counted := true;
      return true;
    }

    method Release()
      modifies this, active
      ensures !counted
      ensures active.value == old(active.value) - (if old(counted) then 1 else 0)
    {
      if counted {
        var previous := active.FetchAdd(-1);
        counted := false;
      }
    }

    /** Move assignment gives up its own slot and takes over the other's, if any. */
    method MoveFrom(o: ConnectionGuard)
      requires o.active == active
      modifies this, o, active
      ensures o != this ==> counted == old(o.counted) && !o.counted
      ensures o == this ==> counted == old(counted)
      ensures active.value == old(active.value) - (if o != this && old(counted) then 1 else 0)
    {
      if o != this {
        Release();
        counted := o.counted;
        o.counted := false;
      }
    }
  }

  // ---------------------------------------------------------------------------------------
  // All guards together, one atomic operation at a time
  // ---------------------------------------------------------------------------------------

  datatype Guard =
    | NotCounted
    | Added(previous: int)   // fetch_add done, result not yet compared
    | Undoing                // over the cap; the increment is still to be taken back
    | Counted
    | Dropped                // fetch_sub of a release done, flag not yet cleared

  datatype State = State(active: int, guards: seq<Guard>)

  datatype Step =
    | Create
    | Add(guard: nat)
    | Compare(guard: nat)
    | Undo(guard: nat)
    | Subtract(guard: nat)
    | Clear(guard: nat)
    | Move(from: nat, to: nat)

  predicate Enabled(s: State, step: Step) {
    match step
    case Create => true
    case Add(g) => g < |s.guards| && s.guards[g].NotCounted?
    case Compare(g) => g < |s.guards| && s.guards[g].Added?
    case Undo(g) => g < |s.guards| && s.guards[g].Undoing?
    case Subtract(g) => g < |s.guards| && s.guards[g].Counted?
    case Clear(g) => g < |s.guards| && s.guards[g].Dropped?
    case Move(from, to) =>
      && from < |s.guards| && to < |s.guards| && from != to
      && (s.guards[from].Counted? || s.guards[from].NotCounted?) && s.guards[to].NotCounted?
  }

  function Apply(s: State, step: Step): State
    requires Enabled(s, step)
  {
    match step
    case Create => s.(guards := s.guards + [NotCounted])
    case Add(g) => State(s.active + 1, s.guards[g := Added(s.active)])
    case Compare(g) =>
      s.(guards := s.guards[g := if s.guards[g].previous >= MAX_ASYNC_CONNECTIONS then Undoing else Counted])
    case Undo(g) => State(s.active - 1, s.guards[g := NotCounted])
    case Subtract(g) => State(s.active - 1, s.guards[g := Dropped])
    case Clear(g) => s.(guards := s.guards[g := NotCounted])
    case Move(from, to) => s.(guards := s.guards[to := s.guards[from]][from := NotCounted])
  }

  /** Contribution to the global counter. */
  function Weight(g: Guard): int {
    if g.Added? || g.Undoing? || g.Counted? then 1 else 0
  }

  /** Holds a connection, or is certain to. */
  function Slot(g: Guard): int {
    if g.Counted? || (g.Added? && g.previous < MAX_ASYNC_CONNECTIONS) then 1 else 0
  }

  function Weights(gs: seq<Guard>): (w: seq<int>)
    ensures |w| == |gs| && forall i :: 0 <= i < |gs| ==> w[i] == Weight(gs[i])
  {
    seq(|gs|, i requires 0 <= i < |gs| => Weight(gs[i]))
  }

  function Slots(gs: seq<Guard>): (w: seq<int>)
    ensures |w| == |gs| && forall i :: 0 <= i < |gs| ==> w[i] == Slot(gs[i])
  {
    seq(|gs|, i requires 0 <= i < |gs| => Slot(gs[i]))
  }

  function CountedFlags(gs: seq<Guard>): (w: seq<int>)
    ensures |w| == |gs| && forall i :: 0 <= i < |gs| ==> w[i] == if gs[i].Counted? then 1 else 0
  {
    seq(|gs|, i requires 0 <= i < |gs| => if gs[i].Counted? then 1 else 0)
  }

  ghost predicate Inv(s: State) {
    && s.active == Sum(Weights(s.guards))
    && Sum(Slots(s.guards)) <= MAX_ASYNC_CONNECTIONS
  }

  lemma UpdateSums(gs: seq<Guard>, i: nat, g: Guard)
    requires i < |gs|
    ensures Sum(Weights(gs[i := g])) == Sum(Weights(gs)) - Weight(gs[i]) + Weight(g)
    ensures Sum(Slots(gs[i := g])) == Sum(Slots(gs)) - Slot(gs[i]) + Slot(g)
  {
    SumUpdate(Weights(gs), i, Weight(g));
    assert Weights(gs[i := g]) == Weights(gs)[i := Weight(g)];
    SumUpdate(Slots(gs), i, Slot(g));
    assert Slots(gs[i := g]) == Slots(gs)[i := Slot(g)];
  }

  lemma StepKeepsInv(s: State, step: Step)
    requires Inv(s) && Enabled(s, step)
    ensures Inv(Apply(s, step))
  {
    match step
    case Create =>
      SumAppend(Weights(s.guards), 0);
      assert Weights(s.guards + [NotCounted]) == Weights(s.guards) + [0];
      SumAppend(Slots(s.guards), 0);
      assert Slots(s.guards + [NotCounted]) == Slots(s.guards) + [0];
    case Add(g) =>
      UpdateSums(s.guards, g, Added(s.active));
      SumMonotone(Slots(s.guards), Weights(s.guards));
    case Compare(g) =>
      UpdateSums(s.guards, g, if s.guards[g].previous >= MAX_ASYNC_CONNECTIONS then Undoing else Counted);
    case Undo(g) => UpdateSums(s.guards, g, NotCounted);
    case Subtract(g) => UpdateSums(s.guards, g, Dropped);
    case Clear(g) => UpdateSums(s.guards, g, NotCounted);
    case Move(from, to) =>
      UpdateSums(s.guards, to, s.guards[from]);
      UpdateSums(s.guards[to := s.guards[from]], from, NotCounted);
  }

  ghost predicate Reachable(s: State, steps: seq<Step>, s': State)
    decreases |steps|
  {
    if steps == [] then s == s'
    else Enabled(s, steps[0]) && Reachable(Apply(s, steps[0]), steps[1..], s')
  }

  lemma {:induction false} RunKeepsInv(s: State, steps: seq<Step>, s': State)
    requires Inv(s) && Reachable(s, steps, s')
    ensures Inv(s')
    decreases |steps|
  {
    if steps != [] {
      StepKeepsInv(s, steps[0]);
      RunKeepsInv(Apply(s, steps[0]), steps[1..], s');
    }
  }

  /**
    In every interleaving the counter is the number of counted guards plus the attempts still
    under way or awaiting their undo, and never more than 64 guards are counted.
  */
  lemma CapHolds(steps: seq<Step>, s: State)
    requires Reachable(State(0, []), steps, s)
    ensures s.active == Sum(Weights(s.guards))
    ensures Sum(CountedFlags(s.guards)) <= MAX_ASYNC_CONNECTIONS
  {
    RunKeepsInv(State(0, []), steps, s);
    SumMonotone(CountedFlags(s.guards), Slots(s.guards));
  }
  predicate Touches(step: Step, g: nat) {
    match step
    case Create => false
    case Add(h) => h == g
    case Compare(h) => h == g
    case Undo(h) => h == g
    case Subtract(h) => h == g
    case Clear(h) => h == g
    case Move(from, to) => from == g || to == g
  }

  lemma {:induction false} OthersLeave(s: State, steps: seq<Step>, s': State, g: nat)
    requires g < |s.guards| && Reachable(s, steps, s')
    requires forall i :: 0 <= i < |steps| ==> !Touches(steps[i], g)
    ensures g < |s'.guards| && s'.guards[g] == s.guards[g]
    decreases |steps|
  {
    if steps != [] {
      assert !Touches(steps[0], g);
      OthersLeave(Apply(s, steps[0]), steps[1..], s', g);
    }
  }

  /**
    Whatever other guards do meanwhile, an attempt is counted exactly if the counter was below
    the cap when it added to it; otherwise it takes its own increment back and nothing else.
  */
  lemma AttemptDecides(s: State, g: nat, steps: seq<Step>, m: State)
    requires Enabled(s, Add(g)) && Reachable(Apply(s, Add(g)), steps, m)
    requires forall i :: 0 <= i < |steps| ==> !Touches(steps[i], g)
    ensures Enabled(m, Compare(g))
    ensures var after := Apply(m, Compare(g));
            if s.active < 64 then after == m.(guards := m.guards[g := Counted])
            else Enabled(after, Undo(g)) && Apply(after, Undo(g)) == State(m.active - 1, m.guards[g := NotCounted])
  {
    OthersLeave(Apply(s, Add(g)), steps, m, g);
    assert m.guards[g := Undoing][g := NotCounted] == m.guards[g := NotCounted];
  }

  lemma NoneUnderWay(gs: seq<Guard>)
    requires forall i :: 0 <= i < |gs| ==> !gs[i].Added? && !gs[i].Undoing?
    ensures Weights(gs) == CountedFlags(gs)
  {}

  /** While no other attempt is under way, that is exactly if fewer than 64 guards are counted. */
  lemma LoneAttemptDecides(before: seq<Step>, s: State, g: nat)
    requires Reachable(State(0, []), before, s) && Enabled(s, Add(g))
    requires forall i :: 0 <= i < |s.guards| ==> !s.guards[i].Added? && !s.guards[i].Undoing?
    ensures var m := Apply(s, Add(g));
            Enabled(m, Compare(g)) && (Apply(m, Compare(g)).guards[g].Counted? <==> Sum(CountedFlags(s.guards)) < 64)
  {
    CapHolds(before, s);
    NoneUnderWay(s.guards);
  }
}
