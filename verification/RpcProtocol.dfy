/**
  One RPC connection: any number of calls of send_request, the receiver thread, the plain
  interface and the serving peer. Every critical section and every atomic operation is one
  step; all steps interleave freely. Frames travel whole and in order in each direction.
*/
module RpcProtocol {
  import opened Words
  import opened Frames
  import opened RpcIds
  import opened PipeStats
  import opened RpcClient
  import opened RpcServer
  import P = PosixPipe

  datatype Outcome =
    | Success(message: Message)
    | SendFailure
    | Expiry
    | Disconnection(error: P.ErrorCode)
    | BrokenPromise   // the promise was destroyed unset; nothing in send_request catches this

  /** Where a call of send_request is. The search for an id goes on under the lock once it is taken. */
  datatype Pc =
    | Drawing(locked: bool)
    | Redrawing(locked: bool)
    | Drawn(locked: bool)
    | Checked         // the id was not in the table when it was tested
    | InTable
    | SendFailed
    | Waiting
    | Expired         // wait_for has timed out; the entry is still to be erased
    | Done(outcome: Outcome)

  datatype Call = Call(
    request: Message,
    forever: bool,    // timeout 0: wait without limit
    pc: Pc,
    id: U32,
    draw: nat,        // which draw, over all threads, gave that id
    late: bool,       // registered after the receiver rejected all pending requests
    rtt: U64)

  /** A frame and, for the proofs, the call it belongs to. */
  datatype Tagged = Tagged(frame: Frame, origin: Option<nat>)

  datatype Receiver =
    | Looping         // about to read the stop flag
    | Receiving
    | Dispatching(tagged: Tagged)
    | Rejecting(error: P.ErrorCode)    // about to reject the pending requests
    | Announcing(error: P.ErrorCode)   // about to tell the plain receivers
    | Stopped(afterError: bool)

  datatype Server = Serving | Working(tagged: Tagged) | Closed

  /** What becomes of a reply. A send that timed out is caught like a receive that did: the server goes on. */
  datatype ReplyFate = ReplySent | ReplyTimedOut | ReplyFatal

  datatype Handling = Handling(request: Message, result: HandlerResult)

  /** What the plain interface has added to the counters. */
  datatype Tally = Tally(sent: nat, bytes: nat, errors: nat)

  datatype State = State(
    client: Shared,
    calls: seq<Call>,
    drawn: seq<nat>,             // who made each draw
    holder: Option<nat>,         // the call that keeps pending_mutex_ while it searches
    toServer: seq<Tagged>,
    toClient: seq<Tagged>,
    receiver: Receiver,
    server: Server,
    stop: bool,
    handled: map<nat, Handling>, // what the handler was given and did, by call
    served: seq<Frame>,          // everything the server has written
    dispatched: seq<Frame>,      // everything the receiver has dispatched
    taken: seq<Message>,         // everything receive() has returned
    raised: Option<P.ErrorCode>, // what receive() has raised, once it has
    tally: Tally)

  datatype Step =
    | Begin(request: Message, forever: bool)
    | Draw(call: nat)
    | Lock(call: nat)
    | Probe(call: nat)
    | Enter(call: nat)
    | Send(call: nat, ok: bool)
    | EraseFailed(call: nat)
    | Expire(call: nat)
    | EraseExpired(call: nat)
    | Collect(call: nat, rtt: U64)
    | ReadStopFlag
    | Receive
    | RecvFails(error: P.ErrorCode)
    | DispatchOne
    | RejectPending
    | Announce
    | Close
    | TakePlain
    | RaisePlain
    | SendPlain(message: Message, ok: bool)
    | ServerTake
    | ServerReply(result: HandlerResult, fate: ReplyFate)
    | ServerSend(message: Message)
    | ServerStop

  ghost predicate Initial(s: State) {
    && s.client == Shared(1, map[], map[], [], None, ZERO)
    && s.calls == [] && s.drawn == [] && s.holder.None?
    && s.toServer == [] && s.toClient == []
    && s.receiver.Looping? && s.server.Serving? && !s.stop
    && s.handled == map[] && s.served == [] && s.dispatched == [] && s.taken == []
    && s.raised.None? && s.tally == Tally(0, 0, 0)
  }

  predicate At(s: State, t: nat, pc: Pc) {
    t < |s.calls| && s.calls[t].pc == pc
  }

  predicate Free(s: State) { s.holder.None? }

  predicate Enabled(s: State, step: Step) {
    match step
    case Begin(_, _) => true
    case Draw(t) => t < |s.calls| && (s.calls[t].pc.Drawing? || s.calls[t].pc.Redrawing?)
    case Lock(t) => At(s, t, Drawn(false)) && Free(s)
    case Probe(t) => At(s, t, Drawn(true)) && s.holder == Some(t)
    case Enter(t) => At(s, t, Checked) && Free(s) && t !in s.client.promises
    case Send(t, ok) => At(s, t, InTable) && (ok ==> |s.calls[t].request| < TWO_32)
    case EraseFailed(t) => At(s, t, SendFailed) && Free(s)
    case Expire(t) => At(s, t, Waiting) && !s.calls[t].forever && t in s.client.promises && s.client.promises[t].Unset?
    case EraseExpired(t) => At(s, t, Expired) && Free(s)
    case Collect(t, _) => At(s, t, Waiting) && t in s.client.promises && !s.client.promises[t].Unset?
    case ReadStopFlag => s.receiver.Looping?
    case Receive => s.receiver.Receiving? && s.toClient != []
    case RecvFails(_) => s.receiver.Receiving?
    case DispatchOne => s.receiver.Dispatching? && (IsAnswer(s.receiver.tagged.frame) ==> Free(s))
    case RejectPending => s.receiver.Rejecting? && Free(s)
    case Announce => s.receiver.Announcing?
    case Close => true
    case TakePlain => s.client.queue != []
    case RaisePlain => s.client.queue == [] && s.client.recvExc.Some?
    case SendPlain(m, ok) => ok ==> |m| < TWO_32
    case ServerTake => s.server.Serving? && s.toServer != []
    case ServerReply(r, fate) => s.server.Working? && (!fate.ReplyFatal? ==> |Answer(r)| < TWO_32)
    case ServerSend(m) => |m| < TWO_32
    case ServerStop => s.server.Serving?
  }

  /** A step of one call of send_request. */
  predicate IsCallStep(step: Step) {
    || step.Draw? || step.Lock? || step.Probe? || step.Enter? || step.Send? || step.EraseFailed?
    || step.Expire? || step.EraseExpired? || step.Collect?
  }

  /** A draw takes the counter's value; the two reserved values lead to one more draw, whatever it gives. */
  function AfterDraw(c: Call, id: U32, draw: nat): Call
    requires c.pc.Drawing? || c.pc.Redrawing?
  {
    c.(id := id, draw := draw,
       pc := if c.pc.Drawing? && Reserved(id) then Redrawing(c.pc.locked) else Drawn(c.pc.locked))
  }

  function OutcomeOf(p: Promise): Outcome
    requires !p.Unset?
  {
    match p
    case Answered(m) => Success(m)
    case Disconnected(e) => Disconnection(e)
    case _ => BrokenPromise
  }

  function CountOutcome(stats: Counters, c: Call, outcome: Outcome, rtt: U64): Counters {
    match outcome
    case Success(m) => CountCall(stats, |c.request|, |m|, rtt)
    case BrokenPromise => stats
    case _ => CountError(stats)
  }

  predicate Rejected(s: State) {
    s.receiver.Announcing? || s.receiver == Stopped(true)
  }

  /** The call itself after its step. */
  function Moved(s: State, step: Step): Call
    requires Enabled(s, step) && IsCallStep(step)
  {
    var c := s.calls[step.call];
    match step
    case Draw(_) => AfterDraw(c, s.client.next, |s.drawn|)
    case Lock(_) => c.(pc := Drawn(true))
    case Probe(_) => c.(pc := if c.id in s.client.pending then Drawing(true) else Checked)
    case Enter(_) => c.(pc := InTable, late := Rejected(s))
    case Send(_, ok) => c.(pc := if ok then Waiting else SendFailed)
    case EraseFailed(_) => c.(pc := Done(SendFailure))
    case Expire(_) => c.(pc := Expired)
    case EraseExpired(_) => c.(pc := Done(Expiry))
    case Collect(t, rtt) => c.(pc := Done(OutcomeOf(s.client.promises[t])), rtt := rtt)
  }

  /** What the step of a call does to everything else. */
  function Effect(s: State, step: Step): State
    requires Enabled(s, step) && IsCallStep(step)
  {
    var c := s.calls[step.call];
    match step
    case Draw(t) => s.(client := s.client.(next := Bump(s.client.next)), drawn := s.drawn + [t])
    case Lock(t) => s.(holder := Some(t))
    case Probe(_) => if c.id in s.client.pending then s else s.(holder := None)
    case Enter(t) => s.(client := Register(s.client, c.id, t))
    case Send(t, ok) =>
      if ok then s.(toServer := s.toServer + [Tagged(Frame(c.request, c.id, FLAG_REQUEST), Some(t))]) else s
    case EraseFailed(t) => s.(client := Erase(s.client, c.id, t).(stats := CountError(s.client.stats)))
    case Expire(_) => s
    case EraseExpired(t) => s.(client := Erase(s.client, c.id, t).(stats := CountError(s.client.stats)))
    case Collect(t, rtt) =>
      s.(client := s.client.(stats := CountOutcome(s.client.stats, c, OutcomeOf(s.client.promises[t]), rtt)))
  }

  function Apply(s: State, step: Step): State
    requires Enabled(s, step)
  {
    match step
    case Begin(request, forever) =>
      s.(calls := s.calls + [Call(request, forever, Drawing(false), 0, 0, false, 0)])
    case ReadStopFlag => s.(receiver := if s.stop then Stopped(false) else Receiving)
    case Receive => s.(receiver := Dispatching(s.toClient[0]), toClient := s.toClient[1..])
    case RecvFails(e) => s.(receiver := Rejecting(e))
    case DispatchOne =>
      var f := s.receiver.tagged.frame;
      s.(client := Dispatch(s.client, f), receiver := Looping, dispatched := s.dispatched + [f])
    case RejectPending =>
      s.(client := NotifyAllPending(s.client, s.receiver.error), receiver := Announcing(s.receiver.error))
    case Announce => s.(client := NotifyRecv(s.client, s.receiver.error), receiver := Stopped(true))
    case Close => s.(stop := true)
    case TakePlain =>
      s.(client := s.client.(queue := s.client.queue[1..]), taken := s.taken + [s.client.queue[0]])
    case RaisePlain => s.(raised := s.client.recvExc)
    case SendPlain(m, ok) =>
      if ok then
        s.(toServer := s.toServer + [Tagged(Frame(m, NO_MESSAGE_ID, 0), None)],
           client := s.client.(stats := CountSend(s.client.stats, |m|)),
           tally := s.tally.(sent := s.tally.sent + 1, bytes := s.tally.bytes + |m|))
      else
        s.(client := s.client.(stats := CountError(s.client.stats)),
           tally := s.tally.(errors := s.tally.errors + 1))
    case ServerTake =>
      s.(server := if HasFlag(s.toServer[0].frame.flags, FLAG_REQUEST) then Working(s.toServer[0]) else Serving,
         toServer := s.toServer[1..])
    case ServerReply(result, fate) =>
      var tagged := s.server.tagged;
      var reply := Frame(Answer(result), tagged.frame.messageId, FLAG_RESPONSE);
      var s1 := if tagged.origin.Some?
        then s.(handled := s.handled[tagged.origin.value := Handling(tagged.frame.payload, result)])
        else s;
      match fate {
        case ReplySent =>
          s1.(server := Serving, served := s.served + [reply], toClient := s.toClient + [Tagged(reply, tagged.origin)])
        case ReplyTimedOut => s1.(server := Serving)
        case ReplyFatal => s1.(server := Closed)
      }
    case ServerSend(m) =>
      var f := Frame(m, NO_MESSAGE_ID, 0);
      s.(served := s.served + [f], toClient := s.toClient + [Tagged(f, None)])
    case ServerStop => s.(server := Closed)
    case _ => Effect(s, step).(calls := s.calls[step.call := Moved(s, step)])
  }

  ghost predicate Reachable(s: State, steps: seq<Step>, s': State)
    decreases |steps|
  {
    if steps == [] then s == s'
    else Enabled(s, steps[0]) && Reachable(Apply(s, steps[0]), steps[1..], s')
  }

  /** What a call step may do to the call. */
  ghost predicate Moves(c: Call, c': Call, step: Step) {
    && c'.request == c.request && c'.forever == c.forever
    && (!step.Draw? ==> c'.id == c.id && c'.draw == c.draw && (HasId(c') ==> HasId(c)))
    && (!step.Enter? ==> c'.late == c.late && (HasRegistered(c') <==> HasRegistered(c)))
    && !c.pc.Done?
  }

  lemma CallMoves(s: State, step: Step)
    requires Enabled(s, step) && IsCallStep(step)
    ensures step.call < |s.calls| && Moves(s.calls[step.call], Moved(s, step), step)
  {}

  lemma CallStepShape(s: State, step: Step)
    requires Enabled(s, step) && IsCallStep(step)
    ensures step.call < |s.calls| && Moves(s.calls[step.call], Moved(s, step), step)
    ensures Apply(s, step).calls == s.calls[step.call := Moved(s, step)]
  {
    CallMoves(s, step);
  }

  lemma OtherStepShape(s: State, step: Step)
    requires Enabled(s, step) && !IsCallStep(step) && !step.Begin?
    ensures Apply(s, step).calls == s.calls
  {}

  /** The steps that write to the table or to a promise. */
  predicate TouchesTable(step: Step) {
    step.Enter? || step.EraseFailed? || step.EraseExpired? || step.DispatchOne? || step.RejectPending?
  }

  lemma TableUntouched(s: State, step: Step)
    requires Enabled(s, step) && !TouchesTable(step)
    ensures Apply(s, step).client.pending == s.client.pending
    ensures Apply(s, step).client.promises == s.client.promises
  {
    if IsCallStep(step) {
      EffectLeavesTable(s, step);
    }
  }

  lemma EffectLeavesTable(s: State, step: Step)
    requires Enabled(s, step) && IsCallStep(step) && !TouchesTable(step)
    ensures Effect(s, step).client.pending == s.client.pending
    ensures Effect(s, step).client.promises == s.client.promises
  {}

  // ---------------------------------------------------------------------------------------
  // Draws
  // ---------------------------------------------------------------------------------------

  predicate HasId(c: Call) { !c.pc.Drawing? }

  /** Every id in use can be traced to its own draw. */
  ghost predicate IdsTraced(next: U32, drawn: seq<nat>, calls: seq<Call>) {
    && next == DrawnAt(|drawn|)
    && forall t :: 0 <= t < |calls| && HasId(calls[t]) ==> Traced(drawn, calls[t], t)
  }

  ghost predicate Traced(drawn: seq<nat>, c: Call, t: nat) {
    c.draw < |drawn| && drawn[c.draw] == t && c.id == DrawnAt(c.draw)
  }

  lemma DrawTracesIds(s: State, t: nat)
    requires IdsTraced(s.client.next, s.drawn, s.calls) && Enabled(s, Draw(t))
    ensures var s' := Apply(s, Draw(t)); IdsTraced(s'.client.next, s'.drawn, s'.calls)
  {
    DrawnAtSucc(|s.drawn|);
    var s' := Apply(s, Draw(t));
    forall u | 0 <= u < |s'.calls| && HasId(s'.calls[u]) ensures Traced(s'.drawn, s'.calls[u], u) {
      if u != t {
        assert Traced(s.drawn, s.calls[u], u);
      }
    }
  }

  /** No other step changes the id or the draw of a call, or lets one proceed that has none. */
  ghost predicate KeepsIds(calls: seq<Call>, calls': seq<Call>) {
    && |calls| <= |calls'|
    && forall t :: 0 <= t < |calls'| && HasId(calls'[t]) ==>
         t < |calls| && HasId(calls[t]) && calls'[t].id == calls[t].id && calls'[t].draw == calls[t].draw
  }

  lemma StepKeepsIds(s: State, step: Step)
    requires Enabled(s, step) && !step.Draw?
    ensures var s' := Apply(s, step);
            s'.client.next == s.client.next && s'.drawn == s.drawn && KeepsIds(s.calls, s'.calls)
  {
    if IsCallStep(step) {
      CallStepShape(s, step);
    } else if !step.Begin? {
      OtherStepShape(s, step);
    }
  }

  lemma StepTracesIds(s: State, step: Step)
    requires IdsTraced(s.client.next, s.drawn, s.calls) && Enabled(s, step)
    ensures var s' := Apply(s, step); IdsTraced(s'.client.next, s'.drawn, s'.calls)
  {
    var s' := Apply(s, step);
    if step.Draw? {
      DrawTracesIds(s, step.call);
    } else {
      StepKeepsIds(s, step);
      forall u | 0 <= u < |s'.calls| && HasId(s'.calls[u]) ensures Traced(s'.drawn, s'.calls[u], u) {
        assert Traced(s.drawn, s.calls[u], u);
      }
    }
  }

  // ---------------------------------------------------------------------------------------
  // The table of pending requests
  // ---------------------------------------------------------------------------------------

  predicate InFlight(c: Call) { c.pc.InTable? || c.pc.SendFailed? || c.pc.Waiting? || c.pc.Expired? }

  predicate HasRegistered(c: Call) { InFlight(c) || c.pc.Done? }

  /** What a finished call reports fits what happened to its promise. */
  predicate Fits(outcome: Outcome, p: Promise) {
    && !p.Unset?
    && (outcome.Success? ==> p == Answered(outcome.message))
    && (outcome.Disconnection? ==> p == Disconnected(outcome.error))
    && (outcome.BrokenPromise? ==> p.Erased? || p.Overwritten?)
  }

  /** A call's promise is unset exactly as long as the call's own entry is in the table. */
  ghost predicate CallConsistent(c: Call, t: nat, pending: map<U32, nat>, promises: map<nat, Promise>) {
    && (t in promises <==> HasRegistered(c))
    && (InFlight(c) ==> (promises[t].Unset? <==> Owns(pending, c.id, t)))
    && (c.pc.Done? ==> Fits(c.pc.outcome, promises[t]))
  }

  ghost predicate EntryConsistent(calls: seq<Call>, id: U32, t: nat, promises: map<nat, Promise>) {
    t < |calls| && calls[t].id == id && InFlight(calls[t]) && t in promises && promises[t].Unset?
  }

  ghost predicate TableConsistent(calls: seq<Call>, pending: map<U32, nat>, promises: map<nat, Promise>) {
    && (forall id :: id in pending ==> EntryConsistent(calls, id, pending[id], promises))
    && (forall t :: 0 <= t < |calls| ==> CallConsistent(calls[t], t, pending, promises))
    && (forall t :: t in promises ==> t < |calls|)
  }

  ghost predicate TableOk(s: State) {
    TableConsistent(s.calls, s.client.pending, s.client.promises)
  }

  lemma TableIsValid(s: State)
    requires TableOk(s)
    ensures Valid(s.client)
  {
    var pending := s.client.pending;
    forall i, j | i in pending && j in pending && pending[i] == pending[j] ensures i == j {
      assert EntryConsistent(s.calls, i, pending[i], s.client.promises);
      assert EntryConsistent(s.calls, j, pending[j], s.client.promises);
    }
  }

  /** A call moves on without its entry being touched. */
  lemma MoveKeepsTable(calls: seq<Call>, t: nat, c: Call, pending: map<U32, nat>, promises: map<nat, Promise>)
    requires TableConsistent(calls, pending, promises) && t < |calls|
    requires HasRegistered(calls[t]) <==> HasRegistered(c)
    requires InFlight(calls[t]) ==> c.id == calls[t].id
    requires c.pc.Done? ==> t in promises && Fits(c.pc.outcome, promises[t])
    requires calls[t].pc.Done? ==> c == calls[t]
    ensures TableConsistent(calls[t := c], pending, promises)
  {
    forall id | id in pending ensures EntryConsistent(calls[t := c], id, pending[id], promises) {
      assert EntryConsistent(calls, id, pending[id], promises);
    }
    var after := calls[t := c];
    forall u | 0 <= u < |after| ensures CallConsistent(after[u], u, pending, promises) {
      assert CallConsistent(calls[u], u, pending, promises);
    }
  }

  lemma BeginKeepsTable(calls: seq<Call>, c: Call, pending: map<U32, nat>, promises: map<nat, Promise>)
    requires TableConsistent(calls, pending, promises) && !HasRegistered(c)
    ensures TableConsistent(calls + [c], pending, promises)
  {
    forall id | id in pending ensures EntryConsistent(calls + [c], id, pending[id], promises) {
      assert EntryConsistent(calls, id, pending[id], promises);
    }
    forall u | 0 <= u < |calls + [c]| ensures CallConsistent((calls + [c])[u], u, pending, promises) {
      if u < |calls| {
        assert CallConsistent(calls[u], u, pending, promises);
      }
    }
  }

  lemma EnterKeepsTable(s: State, step: Step)
    requires TableOk(s) && Enabled(s, step) && step.Enter?
    ensures TableOk(Apply(s, step))
  {
    var s', me := Apply(s, step), step.call;
    var pending, pending' := s.client.pending, s'.client.pending;
    var mine := s.calls[me].id;
    if mine in pending {
      assert EntryConsistent(s.calls, mine, pending[mine], s.client.promises);
    }
    forall id | id in pending' ensures EntryConsistent(s'.calls, id, pending'[id], s'.client.promises) {
      if id != mine {
        assert EntryConsistent(s.calls, id, pending[id], s.client.promises);
      }
    }
    forall t | 0 <= t < |s'.calls| ensures CallConsistent(s'.calls[t], t, pending', s'.client.promises) {
      assert CallConsistent(s.calls[t], t, pending, s.client.promises);
    }
  }

  lemma EraseKeepsTable(s: State, step: Step)
    requires TableOk(s) && Enabled(s, step) && (step.EraseFailed? || step.EraseExpired?)
    ensures TableOk(Apply(s, step))
  {
    var s', me := Apply(s, step), step.call;
    var pending, pending' := s.client.pending, s'.client.pending;
    var mine := s.calls[me].id;
    if mine in pending {
      assert EntryConsistent(s.calls, mine, pending[mine], s.client.promises);
    }
    assert CallConsistent(s.calls[me], me, pending, s.client.promises);
    forall id | id in pending' ensures EntryConsistent(s'.calls, id, pending'[id], s'.client.promises) {
      assert EntryConsistent(s.calls, id, pending[id], s.client.promises);
    }
    forall t | 0 <= t < |s'.calls| ensures CallConsistent(s'.calls[t], t, pending', s'.client.promises) {
      assert CallConsistent(s.calls[t], t, pending, s.client.promises);
    }
  }

  lemma DispatchKeepsTable(s: State, step: Step)
    requires TableOk(s) && Enabled(s, step) && step.DispatchOne?
    ensures TableOk(Apply(s, step))
  {
    var s', f := Apply(s, step), s.receiver.tagged.frame;
    var pending, pending' := s.client.pending, s'.client.pending;
    if f.messageId in pending {
      assert EntryConsistent(s.calls, f.messageId, pending[f.messageId], s.client.promises);
    }
    forall id | id in pending' ensures EntryConsistent(s'.calls, id, pending'[id], s'.client.promises) {
      assert EntryConsistent(s.calls, id, pending[id], s.client.promises);
    }
    forall t | 0 <= t < |s'.calls| ensures CallConsistent(s'.calls[t], t, pending', s'.client.promises) {
      assert CallConsistent(s.calls[t], t, pending, s.client.promises);
    }
  }

  lemma RejectKeepsTable(s: State, step: Step)
    requires TableOk(s) && Enabled(s, step) && step.RejectPending?
    ensures TableOk(Apply(s, step))
  {
    var s', pending := Apply(s, step), s.client.pending;
    forall t | 0 <= t < |s'.calls| ensures CallConsistent(s'.calls[t], t, s'.client.pending, s'.client.promises) {
      assert CallConsistent(s.calls[t], t, pending, s.client.promises);
      if t in pending.Values {
        var id :| id in pending && pending[id] == t;
        assert EntryConsistent(s.calls, id, t, s.client.promises);
      }
    }
  }

  lemma CallStepKeepsTable(s: State, step: Step)
    requires TableOk(s) && Enabled(s, step)
    requires step.Draw? || step.Lock? || step.Probe? || step.Send? || step.Expire? || step.Collect?
    ensures TableOk(Apply(s, step))
  {
    var s', t := Apply(s, step), step.call;
    CallStepShape(s, step);
    assert CallConsistent(s.calls[t], t, s.client.pending, s.client.promises);
    MoveKeepsTable(s.calls, t, Moved(s, step), s.client.pending, s.client.promises);
  }

  lemma StepKeepsTable(s: State, step: Step)
    requires TableOk(s) && Enabled(s, step)
    ensures TableOk(Apply(s, step))
  {
    if step.Enter? {
      EnterKeepsTable(s, step);
    } else if step.EraseFailed? || step.EraseExpired? {
      EraseKeepsTable(s, step);
    } else if step.DispatchOne? {
      DispatchKeepsTable(s, step);
    } else if step.RejectPending? {
      RejectKeepsTable(s, step);
    } else if step.Draw? || step.Lock? || step.Probe? || step.Send? || step.Expire? || step.Collect? {
      CallStepKeepsTable(s, step);
    } else if step.Begin? {
      var s' := Apply(s, step);
      BeginKeepsTable(s.calls, s'.calls[|s.calls|], s.client.pending, s.client.promises);
    }
  }
}
