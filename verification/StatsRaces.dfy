/**
  One counter field of the multi-connection server: the atomics of all sessions and the
  accumulated value. Folding, resetting and reading hold stats_mutex_, but operations on the
  sessions go on meanwhile, so each load and store is a step of its own. For the proofs each
  counted operation carries where its amount is.
*/
module StatsRaces {
  import opened Words
  import opened Sums
  import opened PipeStats

  datatype Place =
    | InAccumulated
    | InSession(session: nat)
    | InSnapshot    // loaded by a guard that has not added it yet
    | Cleared       // zeroed by a reset
    | Uncounted     // counted on a session that was no longer registered

  datatype Op = Op(amount: nat, place: Place, seen: bool)

  /** What the holder of stats_mutex_ is doing. */
  datatype Activity =
    | Free
    | Loading(session: nat)                   // guard: erased, about to load
    | Adding(session: nat, snapshot: U64)
    | Resetting(next: nat, start: nat)        // sessions before next are zeroed
    | Reading(total: U64, next: nat, start: nat)

  datatype State = State(accumulated: U64, values: seq<U64>, active: seq<nat>, activity: Activity, ops: seq<Op>)

  datatype Step =
    | Join
    | Count(session: nat, amount: nat)
    | FoldErase(position: nat) | FoldLoad | FoldAdd
    | ResetBegin | ResetOne | ResetEnd
    | ReadBegin | ReadOne | ReadEnd

  ghost predicate Initial(s: State) {
    s == State(0, [], [], Free, [])
  }

  predicate Enabled(s: State, step: Step) {
    match step
    case Join => s.activity.Free?
    case Count(i, _) => i < |s.values|
    case FoldErase(p) => s.activity.Free? && p < |s.active|
    case FoldLoad => s.activity.Loading? && s.activity.session < |s.values|
    case FoldAdd => s.activity.Adding?
    case ResetBegin => s.activity.Free?
    case ResetOne => s.activity.Resetting? && s.activity.next < |s.active| && s.active[s.activity.next] < |s.values|
    case ResetEnd => s.activity.Resetting? && s.activity.next == |s.active|
    case ReadBegin => s.activity.Free?
    case ReadOne => s.activity.Reading? && s.activity.next < |s.active| && s.active[s.activity.next] < |s.values|
    case ReadEnd => s.activity.Reading? && s.activity.next == |s.active|
  }

  predicate Registered(s: State, i: nat) {
    i in s.active || s.activity == Loading(i)
  }

  /** All operations whose amount is at one place are now at another. */
  function Move(ops: seq<Op>, from: Place, to: Place): (r: seq<Op>)
    ensures |r| == |ops|
    ensures forall k :: 0 <= k < |ops| ==> r[k] == if ops[k].place == from then ops[k].(place := to) else ops[k]
  {
    seq(|ops|, k requires 0 <= k < |ops| => if ops[k].place == from then ops[k].(place := to) else ops[k])
  }

  function See(ops: seq<Op>, place: Place): (r: seq<Op>)
    ensures |r| == |ops|
    ensures forall k :: 0 <= k < |ops| ==> r[k] == if ops[k].place == place then ops[k].(seen := true) else ops[k]
  {
    seq(|ops|, k requires 0 <= k < |ops| => if ops[k].place == place then ops[k].(seen := true) else ops[k])
  }

  function Unsee(ops: seq<Op>): (r: seq<Op>)
    ensures |r| == |ops|
    ensures forall k :: 0 <= k < |ops| ==> r[k] == ops[k].(seen := false)
  {
    seq(|ops|, k requires 0 <= k < |ops| => ops[k].(seen := false))
  }

  function Apply(s: State, step: Step): State
    requires Enabled(s, step)
  {
    match step
    case Join => s.(values := s.values + [0], active := s.active + [|s.values|])
    case Count(i, n) =>
      s.(values := s.values[i := WrapAdd(s.values[i], n)],
         ops := s.ops + [Op(n, if Registered(s, i) then InSession(i) else Uncounted, false)])
    case FoldErase(p) => s.(active := s.active[..p] + s.active[p + 1..], activity := Loading(s.active[p]))
    case FoldLoad =>
      s.(activity := Adding(s.activity.session, s.values[s.activity.session]), ops := Move(s.ops, InSession(s.activity.session), InSnapshot))
    case FoldAdd =>
      s.(accumulated := WrapAdd(s.accumulated, s.activity.snapshot), activity := Free, ops := Move(s.ops, InSnapshot, InAccumulated))
    case ResetBegin =>
      s.(accumulated := 0, activity := Resetting(0, |s.ops|), ops := Move(s.ops, InAccumulated, Cleared))
    case ResetOne =>
      var i := s.active[s.activity.next];
      s.(values := s.values[i := 0], activity := Resetting(s.activity.next + 1, s.activity.start), ops := Move(s.ops, InSession(i), Cleared))
    case ResetEnd => s.(activity := Free)
    case ReadBegin =>
      s.(activity := Reading(s.accumulated, 0, |s.ops|), ops := See(Unsee(s.ops), InAccumulated))
    case ReadOne =>
      var i := s.active[s.activity.next];
      s.(activity := Reading(WrapAdd(s.activity.total, s.values[i]), s.activity.next + 1, s.activity.start), ops := See(s.ops, InSession(i)))
    case ReadEnd => s.(activity := Free)
  }

  ghost predicate Reachable(s: State, steps: seq<Step>, s': State)
    decreases |steps|
  {
    if steps == [] then s == s'
    else Enabled(s, steps[0]) && Reachable(Apply(s, steps[0]), steps[1..], s')
  }

  // ---------------------------------------------------------------------------------------
  // Amounts
  // ---------------------------------------------------------------------------------------

  function AmountsAt(ops: seq<Op>, place: Place): (w: seq<int>)
    ensures |w| == |ops| && forall k :: 0 <= k < |ops| ==> w[k] == if ops[k].place == place then ops[k].amount else 0
  {
    seq(|ops|, k requires 0 <= k < |ops| => if ops[k].place == place then ops[k].amount else 0)
  }

  function SumAt(ops: seq<Op>, place: Place): int { Sum(AmountsAt(ops, place)) }

  function SeenAmounts(ops: seq<Op>): (w: seq<int>)
    ensures |w| == |ops| && forall k :: 0 <= k < |ops| ==> w[k] == if ops[k].seen then ops[k].amount else 0
  {
    seq(|ops|, k requires 0 <= k < |ops| => if ops[k].seen then ops[k].amount else 0)
  }

  predicate Live(op: Op) { op.place.InAccumulated? || op.place.InSession? }

  function LiveAmounts(ops: seq<Op>): (w: seq<int>)
    ensures |w| == |ops| && forall k :: 0 <= k < |ops| ==> w[k] == if Live(ops[k]) then ops[k].amount else 0
  {
    seq(|ops|, k requires 0 <= k < |ops| => if Live(ops[k]) then ops[k].amount else 0)
  }

  lemma {:induction false} SumPlus(a: seq<int>, b: seq<int>, c: seq<int>)
    requires |a| == |b| == |c| && forall k :: 0 <= k < |a| ==> c[k] == a[k] + b[k]
    ensures Sum(c) == Sum(a) + Sum(b)
    decreases |a|
  {
    if a != [] {
      SumPlus(a[1..], b[1..], c[1..]);
    }
  }

  lemma SumAtAppend(ops: seq<Op>, op: Op, place: Place)
    ensures SumAt(ops + [op], place) == SumAt(ops, place) + (if op.place == place then op.amount else 0)
  {
    var n := if op.place == place then op.amount else 0;
    SumAppend(AmountsAt(ops, place), n);
    assert AmountsAt(ops + [op], place) == AmountsAt(ops, place) + [n];
  }

  lemma SumAtMove(ops: seq<Op>, from: Place, to: Place, place: Place)
    requires from != to
    ensures SumAt(Move(ops, from, to), place) ==
            if place == from then 0 else if place == to then SumAt(ops, to) + SumAt(ops, from) else SumAt(ops, place)
  {
    var moved := Move(ops, from, to);
    if place == from {
      SumOfZeros(AmountsAt(moved, from));
    } else if place == to {
      SumPlus(AmountsAt(ops, to), AmountsAt(ops, from), AmountsAt(moved, to));
    } else {
      assert AmountsAt(moved, place) == AmountsAt(ops, place);
    }
  }

  lemma SumAtNone(ops: seq<Op>, place: Place)
    requires forall k :: 0 <= k < |ops| ==> ops[k].place != place
    ensures SumAt(ops, place) == 0
  {
    SumOfZeros(AmountsAt(ops, place));
  }

  lemma SumAtSee(ops: seq<Op>, place: Place, p: Place)
    ensures SumAt(See(ops, place), p) == SumAt(ops, p)
    ensures SumAt(Unsee(ops), p) == SumAt(ops, p)
  {
    assert AmountsAt(See(ops, place), p) == AmountsAt(ops, p);
    assert AmountsAt(Unsee(ops), p) == AmountsAt(ops, p);
  }

  // ---------------------------------------------------------------------------------------
  // Every counter is the sum of the operations that are there
  // ---------------------------------------------------------------------------------------

  ghost predicate Distinct(a: seq<nat>) {
    forall i, j :: 0 <= i < j < |a| ==> a[i] != a[j]
  }

  ghost predicate VectorOk(s: State) {
    && Distinct(s.active)
    && (forall p :: 0 <= p < |s.active| ==> s.active[p] < |s.values|)
    && (s.activity.Loading? ==> s.activity.session < |s.values| && s.activity.session !in s.active)
  }

  ghost predicate PlacesOk(s: State) {
    && (forall k :: 0 <= k < |s.ops| && s.ops[k].place.InSession? ==> Registered(s, s.ops[k].place.session))
    && (!s.activity.Adding? ==> forall k :: 0 <= k < |s.ops| ==> !s.ops[k].place.InSnapshot?)
    && (forall i: nat :: Registered(s, i) ==> i < |s.values|)
  }

  ghost predicate ValuesOk(s: State) {
    && s.accumulated == SumAt(s.ops, InAccumulated) % TWO_64
    && (forall i :: 0 <= i < |s.values| && Registered(s, i) ==> s.values[i] == SumAt(s.ops, InSession(i)) % TWO_64)
    && (s.activity.Adding? ==> s.activity.snapshot == SumAt(s.ops, InSnapshot) % TWO_64)
  }

  ghost predicate Inv(s: State) {
    VectorOk(s) && PlacesOk(s) && ValuesOk(s)
  }

  lemma JoinKeepsInv(s: State)
    requires Inv(s) && Enabled(s, Join)
    ensures Inv(Apply(s, Join))
  {
    var n := |s.values|;
    forall k | 0 <= k < |s.ops| ensures s.ops[k].place != InSession(n) {
      assert s.ops[k].place.InSession? ==> Registered(s, s.ops[k].place.session);
    }
    SumAtNone(s.ops, InSession(n));
  }

  lemma CountKeepsInv(s: State, step: Step)
    requires Inv(s) && Enabled(s, step) && step.Count?
    ensures Inv(Apply(s, step))
  {
    var s' := Apply(s, step);
    var op := s'.ops[|s.ops|];
    SumAtAppend(s.ops, op, InAccumulated);
    SumAtAppend(s.ops, op, InSnapshot);
    forall i | 0 <= i < |s'.values| && Registered(s', i)
      ensures s'.values[i] == SumAt(s'.ops, InSession(i)) % TWO_64
    {
      assert Registered(s, i);
      SumAtAppend(s.ops, op, InSession(i));
      WrapAddMod(SumAt(s.ops, InSession(i)), step.amount);
    }
  }

  lemma EraseKeepsInv(s: State, step: Step)
    requires Inv(s) && Enabled(s, step) && step.FoldErase?
    ensures Inv(Apply(s, step))
  {
    var s', p := Apply(s, step), step.position;
    forall i ensures Registered(s', i) <==> Registered(s, i) {
      EraseOne(s.active, p, i);
    }
    assert forall k :: 0 <= k < |s'.active| ==> s'.active[k] == if k < p then s.active[k] else s.active[k + 1];
  }

  lemma EraseOne(a: seq<nat>, p: nat, i: nat)
    requires p < |a| && Distinct(a)
    ensures i in a[..p] + a[p + 1..] <==> i in a && i != a[p]
  {
    var r := a[..p] + a[p + 1..];
    if i in a && i != a[p] {
      var k :| 0 <= k < |a| && a[k] == i;
      assert r[if k < p then k else k - 1] == i;
    }
  }

  lemma MoveKeepsValues(s: State, s': State, from: Place, to: Place)
    requires ValuesOk(s) && from != to && s'.ops == Move(s.ops, from, to) && !to.InSession? && s'.values == s.values
    requires forall i :: 0 <= i < |s'.values| && Registered(s', i) ==> Registered(s, i) && from != InSession(i)
    ensures forall i :: 0 <= i < |s'.values| && Registered(s', i) ==> s'.values[i] == SumAt(s'.ops, InSession(i)) % TWO_64
  {
    forall i | 0 <= i < |s'.values| && Registered(s', i) ensures s'.values[i] == SumAt(s'.ops, InSession(i)) % TWO_64 {
      SumAtMove(s.ops, from, to, InSession(i));
    }
  }

  lemma LoadKeepsInv(s: State)
    requires Inv(s) && Enabled(s, FoldLoad)
    ensures Inv(Apply(s, FoldLoad))
  {
    var i := s.activity.session;
    SumAtMove(s.ops, InSession(i), InSnapshot, InAccumulated);
    SumAtMove(s.ops, InSession(i), InSnapshot, InSnapshot);
    SumAtNone(s.ops, InSnapshot);
    MoveKeepsValues(s, Apply(s, FoldLoad), InSession(i), InSnapshot);
  }

  lemma AddKeepsInv(s: State)
    requires Inv(s) && Enabled(s, FoldAdd)
    ensures Inv(Apply(s, FoldAdd))
  {
    SumAtMove(s.ops, InSnapshot, InAccumulated, InAccumulated);
    WrapAddMods(SumAt(s.ops, InAccumulated), SumAt(s.ops, InSnapshot));
    MoveKeepsValues(s, Apply(s, FoldAdd), InSnapshot, InAccumulated);
  }

  lemma ResetBeginKeepsInv(s: State)
    requires Inv(s) && Enabled(s, ResetBegin)
    ensures Inv(Apply(s, ResetBegin))
  {
    SumAtMove(s.ops, InAccumulated, Cleared, InAccumulated);
    MoveKeepsValues(s, Apply(s, ResetBegin), InAccumulated, Cleared);
  }

  lemma ResetOneKeepsInv(s: State)
    requires Inv(s) && Enabled(s, ResetOne)
    ensures Inv(Apply(s, ResetOne))
  {
    var s', i := Apply(s, ResetOne), s.active[s.activity.next];
    SumAtMove(s.ops, InSession(i), Cleared, InAccumulated);
    forall j | 0 <= j < |s'.values| && Registered(s', j) ensures s'.values[j] == SumAt(s'.ops, InSession(j)) % TWO_64 {
      SumAtMove(s.ops, InSession(i), Cleared, InSession(j));
      assert Registered(s, j);
    }
  }

  lemma ReadKeepsInv(s: State, step: Step)
    requires Inv(s) && Enabled(s, step) && (step.ReadBegin? || step.ReadOne?)
    ensures Inv(Apply(s, step))
  {
    var s' := Apply(s, step);
    var place := if step.ReadBegin? then InAccumulated else InSession(s.active[s.activity.next]);
    forall p ensures SumAt(s'.ops, p) == SumAt(s.ops, p) {
      SumAtSee(s.ops, place, p);
      SumAtSee(Unsee(s.ops), place, p);
    }
    forall i ensures Registered(s', i) <==> Registered(s, i) {}
  }

  lemma StepKeepsInv(s: State, step: Step)
    requires Inv(s) && Enabled(s, step)
    ensures Inv(Apply(s, step))
  {
    match step
    case Join => JoinKeepsInv(s);
    case Count(_, _) => CountKeepsInv(s, step);
    case FoldErase(_) => EraseKeepsInv(s, step);
    case FoldLoad => LoadKeepsInv(s);
    case FoldAdd => AddKeepsInv(s);
    case ResetBegin => ResetBeginKeepsInv(s);
    case ResetOne => ResetOneKeepsInv(s);
    case ResetEnd =>
    case ReadBegin => ReadKeepsInv(s, step);
    case ReadOne => ReadKeepsInv(s, step);
    case ReadEnd =>
  }

  lemma {:induction false} RunKeepsInv(s: State, steps: seq<Step>, s': State)
    requires Inv(s) && Reachable(s, steps, s')
    ensures Inv(s')
    decreases |steps|
  {
    if steps != [] {
      StepKeepsInv(s, steps[0]);
      RunKeepsInv(Apply(s, steps[0]), steps[1..], s');
    }
  }

  // ---------------------------------------------------------------------------------------
  // Conservation
  // ---------------------------------------------------------------------------------------

  function ActiveValues(s: State): (w: seq<int>)
    requires VectorOk(s)
    ensures |w| == |s.active| && forall p :: 0 <= p < |w| ==> w[p] == s.values[s.active[p]]
  {
    seq(|s.active|, p requires 0 <= p < |s.active| => s.values[s.active[p]])
  }

  function SessionSums(ops: seq<Op>, active: seq<nat>): (w: seq<int>)
    ensures |w| == |active| && forall p :: 0 <= p < |w| ==> w[p] == SumAt(ops, InSession(active[p]))
  {
    seq(|active|, p requires 0 <= p < |active| => SumAt(ops, InSession(active[p])))
  }

  predicate AtOneOf(op: Op, active: seq<nat>) {
    op.place.InAccumulated? || (op.place.InSession? && op.place.session in active)
  }

  function AmountsAtOneOf(ops: seq<Op>, active: seq<nat>): (w: seq<int>)
    ensures |w| == |ops| && forall k :: 0 <= k < |ops| ==> w[k] == if AtOneOf(ops[k], active) then ops[k].amount else 0
  {
    seq(|ops|, k requires 0 <= k < |ops| => if AtOneOf(ops[k], active) then ops[k].amount else 0)
  }

  lemma {:induction false} SumOverSessions(ops: seq<Op>, active: seq<nat>)
    requires Distinct(active)
    ensures SumAt(ops, InAccumulated) + Sum(SessionSums(ops, active)) == Sum(AmountsAtOneOf(ops, active))
    decreases |active|
  {
    if active == [] {
      assert AmountsAtOneOf(ops, []) == AmountsAt(ops, InAccumulated);
    } else {
      var n := |active| - 1;
      var rest, last := active[..n], active[n];
      SumOverSessions(ops, rest);
      SumAppend(SessionSums(ops, rest), SumAt(ops, InSession(last)));
      assert SessionSums(ops, active) == SessionSums(ops, rest) + [SumAt(ops, InSession(last))];
      OneMoreSession(ops, rest, last);
      assert rest + [last] == active;
    }
  }

  lemma OneMoreSession(ops: seq<Op>, rest: seq<nat>, last: nat)
    requires last !in rest
    ensures Sum(AmountsAtOneOf(ops, rest + [last])) == Sum(AmountsAtOneOf(ops, rest)) + SumAt(ops, InSession(last))
  {
    SumPlus(AmountsAtOneOf(ops, rest), AmountsAt(ops, InSession(last)), AmountsAtOneOf(ops, rest + [last]));
  }

  lemma {:induction false} SumOfRemainders(a: seq<int>, b: seq<int>)
    requires |a| == |b| && forall k :: 0 <= k < |a| ==> a[k] == b[k] % TWO_64
    ensures Sum(a) % TWO_64 == Sum(b) % TWO_64
    decreases |a|
  {
    if a != [] {
      SumOfRemainders(a[1..], b[1..]);
      AddRemainders(b[0], Sum(a[1..]), Sum(b[1..]));
    }
  }

  lemma AddRemainders(x: int, y: int, z: int)
    requires y % TWO_64 == z % TWO_64
    ensures (x % TWO_64 + y) % TWO_64 == (x + z) % TWO_64
  {}

  /**
    Whenever stats_mutex_ is free, what stats_all would add up is, modulo 2^64, the amounts of
    exactly the operations that were counted on a registered session and not reset since.
  */
  lemma Conservation(s0: State, steps: seq<Step>, s: State)
    requires Initial(s0) && Reachable(s0, steps, s) && s.activity.Free?
    ensures VectorOk(s)
    ensures (s.accumulated + Sum(ActiveValues(s))) % TWO_64 == Sum(LiveAmounts(s.ops)) % TWO_64
  {
    InitialInv(s0);
    RunKeepsInv(s0, steps, s);
    SumOverSessions(s.ops, s.active);
    forall p | 0 <= p < |s.active|
      ensures ActiveValues(s)[p] == SessionSums(s.ops, s.active)[p] % TWO_64
    {
      assert Registered(s, s.active[p]);
    }
    SumOfRemainders(ActiveValues(s), SessionSums(s.ops, s.active));
    AddRemainders(SumAt(s.ops, InAccumulated), Sum(ActiveValues(s)), Sum(SessionSums(s.ops, s.active)));
    forall k | 0 <= k < |s.ops| ensures AtOneOf(s.ops[k], s.active) == Live(s.ops[k]) {
      assert s.ops[k].place.InSession? ==> Registered(s, s.ops[k].place.session);
    }
    assert AmountsAtOneOf(s.ops, s.active) == LiveAmounts(s.ops);
  }

  lemma InitialInv(s: State)
    requires Initial(s)
    ensures Inv(s)
  {
    SumAtNone([], InAccumulated);
  }

  // ---------------------------------------------------------------------------------------
  // Resets
  // ---------------------------------------------------------------------------------------

  predicate Pending(op: Op) { Live(op) || op.place.InSnapshot? }

  /** A step can only append operations; it never revives one or changes an amount. */
  lemma StepRevivesNothing(s: State, step: Step, k: nat)
    requires Enabled(s, step) && k < |s.ops|
    ensures k < |Apply(s, step).ops| && Apply(s, step).ops[k].amount == s.ops[k].amount
    ensures Pending(Apply(s, step).ops[k]) ==> Pending(s.ops[k])
  {}

  /** Only a reset forgets an operation. */
  lemma OnlyResetsForget(s: State, step: Step, k: nat)
    requires Enabled(s, step) && k < |s.ops| && Pending(s.ops[k]) && !Pending(Apply(s, step).ops[k])
    ensures step.ResetBegin? || step.ResetOne?
  {}

  predicate ResetsNothing(steps: seq<Step>) {
    forall i :: 0 <= i < |steps| ==> !steps[i].ResetBegin? && !steps[i].ResetOne?
  }

  /** What was counted stays in the totals until a reset: no other step loses it. */
  lemma {:induction false} NothingElseForgets(s: State, steps: seq<Step>, s': State, k: nat)
    requires Reachable(s, steps, s') && ResetsNothing(steps) && k < |s.ops| && Pending(s.ops[k])
    ensures k < |s'.ops| && Pending(s'.ops[k]) && s'.ops[k].amount == s.ops[k].amount
    decreases |steps|
  {
    if steps != [] {
      StepRevivesNothing(s, steps[0], k);
      if !Pending(Apply(s, steps[0]).ops[k]) {
        OnlyResetsForget(s, steps[0], k);
      }
      NothingElseForgets(Apply(s, steps[0]), steps[1..], s', k);
    }
  }

  ghost predicate ResetOk(s: State) {
    s.activity.Resetting? ==>
      && s.activity.start <= |s.ops| && s.activity.next <= |s.active|
      && forall k :: 0 <= k < s.activity.start ==> StillThere(s, s.ops[k])
  }

  /** Before a reset is through, only sessions it has still to reach may hold earlier amounts. */
  ghost predicate StillThere(s: State, op: Op)
    requires s.activity.Resetting? && s.activity.next <= |s.active|
  {
    Pending(op) ==> op.place.InSession? && op.place.session in s.active[s.activity.next..]
  }

  lemma StepKeepsResetOk(s: State, step: Step)
    requires Inv(s) && ResetOk(s) && Enabled(s, step)
    ensures ResetOk(Apply(s, step))
  {
    var s' := Apply(s, step);
    if step.ResetBegin? {
      forall k | 0 <= k < |s.ops| ensures StillThere(s', s'.ops[k]) {
        assert s.ops[k].place.InSession? ==> Registered(s, s.ops[k].place.session);
        assert s'.active[0..] == s.active;
      }
    } else if step.ResetOne? {
      var n := s.activity.next;
      forall k | 0 <= k < s.activity.start ensures StillThere(s', s'.ops[k]) {
        assert StillThere(s, s.ops[k]);
        assert s.active[n..] == [s.active[n]] + s.active[n + 1..];
      }
    } else if s.activity.Resetting? && step.Count? {
      forall k | 0 <= k < s.activity.start ensures StillThere(s', s'.ops[k]) {
        assert StillThere(s, s.ops[k]);
      }
    }
  }

  lemma {:induction false} RunKeepsResetOk(s: State, steps: seq<Step>, s': State)
    requires Inv(s) && ResetOk(s) && Reachable(s, steps, s')
    ensures Inv(s') && ResetOk(s')
    decreases |steps|
  {
    if steps != [] {
      StepKeepsInv(s, steps[0]);
      StepKeepsResetOk(s, steps[0]);
      RunKeepsResetOk(Apply(s, steps[0]), steps[1..], s');
    }
  }

  lemma {:induction false} GoneForGood(s: State, steps: seq<Step>, s': State, k: nat)
    requires Reachable(s, steps, s') && k < |s.ops| && !Pending(s.ops[k])
    ensures k < |s'.ops| && !Pending(s'.ops[k])
    decreases |steps|
  {
    if steps != [] {
      StepRevivesNothing(s, steps[0], k);
      GoneForGood(Apply(s, steps[0]), steps[1..], s', k);
    }
  }

  /** No count from before a reset reappears: not at its end, and not ever after. */
  lemma ResetIsFinal(s0: State, steps: seq<Step>, m: State, more: seq<Step>, s: State, k: nat)
    requires Initial(s0) && Reachable(s0, steps, m) && Reachable(m, more, s)
    requires m.activity.Resetting? && m.activity.next == |m.active| && k < m.activity.start
    ensures k < |s.ops| && !Pending(s.ops[k])
  {
    InitialInv(s0);
    RunKeepsResetOk(s0, steps, m);
    assert StillThere(m, m.ops[k]);
    GoneForGood(m, more, s, k);
  }

  // ---------------------------------------------------------------------------------------
  // Reads
  // ---------------------------------------------------------------------------------------

  ghost predicate ReadOk(s: State) {
    s.activity.Reading? ==>
      && s.activity.start <= |s.ops| && s.activity.next <= |s.active|
      && s.activity.total == Sum(SeenAmounts(s.ops)) % TWO_64
      && forall k :: 0 <= k < |s.ops| ==> SeenRight(s, k)
  }

  /** Seen operations are at places already read; what was there at the start is seen. */
  ghost predicate SeenRight(s: State, k: nat)
    requires s.activity.Reading? && s.activity.next <= |s.active| && k < |s.ops|
  {
    var place := s.ops[k].place;
    && (s.ops[k].seen ==> place.InAccumulated? || (place.InSession? && place.session in s.active[..s.activity.next]))
    && (k < s.activity.start ==>
          (place.InAccumulated? || (place.InSession? && place.session in s.active[..s.activity.next]) ==> s.ops[k].seen))
  }

  lemma SumSee(ops: seq<Op>, place: Place)
    requires forall k :: 0 <= k < |ops| && ops[k].place == place ==> !ops[k].seen
    ensures Sum(SeenAmounts(See(ops, place))) == Sum(SeenAmounts(ops)) + SumAt(ops, place)
  {
    SumPlus(SeenAmounts(ops), AmountsAt(ops, place), SeenAmounts(See(ops, place)));
  }

  lemma SumUnsee(ops: seq<Op>)
    ensures Sum(SeenAmounts(Unsee(ops))) == 0
  {
    SumOfZeros(SeenAmounts(Unsee(ops)));
  }

  lemma ReadBeginKeepsReadOk(s: State)
    requires Inv(s) && Enabled(s, ReadBegin)
    ensures ReadOk(Apply(s, ReadBegin))
  {
    SumUnsee(s.ops);
    SumSee(Unsee(s.ops), InAccumulated);
    SumAtSee(s.ops, InAccumulated, InAccumulated);
  }

  lemma ReadOneKeepsReadOk(s: State)
    requires Inv(s) && ReadOk(s) && Enabled(s, ReadOne)
    ensures ReadOk(Apply(s, ReadOne))
  {
    var s', n := Apply(s, ReadOne), s.activity.next;
    var i := s.active[n];
    assert s.active[..n + 1] == s.active[..n] + [i];
    forall k | 0 <= k < |s.ops| && s.ops[k].place == InSession(i) ensures !s.ops[k].seen {
      assert SeenRight(s, k);
    }
    SumSee(s.ops, InSession(i));
    assert Registered(s, i);
    WrapAddMods(Sum(SeenAmounts(s.ops)), SumAt(s.ops, InSession(i)));
    forall k | 0 <= k < |s'.ops| ensures SeenRight(s', k) {
      assert SeenRight(s, k);
    }
  }

  lemma CountKeepsReadOk(s: State, step: Step)
    requires Inv(s) && ReadOk(s) && Enabled(s, step) && step.Count? && s.activity.Reading?
    ensures ReadOk(Apply(s, step))
  {
    var s' := Apply(s, step);
    SumAppend(SeenAmounts(s.ops), 0);
    assert SeenAmounts(s'.ops) == SeenAmounts(s.ops) + [0];
    forall k | 0 <= k < |s'.ops| ensures SeenRight(s', k) {
      if k < |s.ops| {
        assert SeenRight(s, k);
      }
    }
  }

  lemma StepKeepsReadOk(s: State, step: Step)
    requires Inv(s) && ReadOk(s) && Enabled(s, step)
    ensures ReadOk(Apply(s, step))
  {
    if step.ReadBegin? {
      ReadBeginKeepsReadOk(s);
    } else if step.ReadOne? {
      ReadOneKeepsReadOk(s);
    } else if s.activity.Reading? && step.Count? {
      CountKeepsReadOk(s, step);
    }
  }

  lemma {:induction false} RunKeepsReadOk(s: State, steps: seq<Step>, s': State)
    requires Inv(s) && ReadOk(s) && Reachable(s, steps, s')
    ensures Inv(s') && ReadOk(s')
    decreases |steps|
  {
    if steps != [] {
      StepKeepsInv(s, steps[0]);
      StepKeepsReadOk(s, steps[0]);
      RunKeepsReadOk(Apply(s, steps[0]), steps[1..], s');
    }
  }

  /**
    What stats_all returns is the sum of a set of operations that holds every one that was
    live when it began and none that is not live when it ends.
  */
  lemma ReadIsBetween(s0: State, steps: seq<Step>, s: State)
    requires Initial(s0) && Reachable(s0, steps, s)
    requires s.activity.Reading? && s.activity.next == |s.active|
    ensures s.activity.start <= |s.ops|
    ensures s.activity.total == Sum(SeenAmounts(s.ops)) % TWO_64
    ensures forall k :: 0 <= k < |s.ops| && s.ops[k].seen ==> Live(s.ops[k])
    ensures forall k :: 0 <= k < s.activity.start && Live(s.ops[k]) ==> s.ops[k].seen
  {
    InitialInv(s0);
    RunKeepsReadOk(s0, steps, s);
    assert s.active[..|s.active|] == s.active;
    forall k | 0 <= k < |s.ops|
      ensures s.ops[k].seen ==> Live(s.ops[k])
      ensures k < s.activity.start && Live(s.ops[k]) ==> s.ops[k].seen
    {
      assert SeenRight(s, k);
      assert s.ops[k].place.InSession? ==> Registered(s, s.ops[k].place.session);
    }
  }

  /** The holder of stats_mutex_ can always go on, whatever the other threads count meanwhile. */
  lemma HolderCanGoOn(s0: State, steps: seq<Step>, s: State)
    requires Initial(s0) && Reachable(s0, steps, s)
    ensures match s.activity
            case Free => forall p: nat :: p < |s.active| ==> Enabled(s, FoldErase(p))
            case Loading(_) => Enabled(s, FoldLoad)
            case Adding(_, _) => Enabled(s, FoldAdd)
            case Resetting(_, _) => Enabled(s, ResetOne) || Enabled(s, ResetEnd)
            case Reading(_, _, _) => Enabled(s, ReadOne) || Enabled(s, ReadEnd)
  {
    InitialInv(s0);
    RunKeepsResetOk(s0, steps, s);
    RunKeepsReadOk(s0, steps, s);
  }
}
