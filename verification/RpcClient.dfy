/**
  The shared state of an RPC client: the id counter, the table of pending requests, the queue
  of plain messages and the counters. Each operation below is one critical section.
*/
module RpcClient {
  import opened Words
  import opened Frames
  import opened FrameIo
  import opened RpcIds
  import opened PipeStats
  import P = PosixPipe

  /** A request's promise; requests are numbered. Only Answered and Disconnected are values set by the receiver. */
  datatype Promise =
    | Unset
    | Answered(message: Message)
    | Disconnected(error: P.ErrorCode)
    | Erased(request: nat)        // its table entry was erased by that request
    | Overwritten(request: nat)   // its table entry was replaced by that request's

  datatype Shared = Shared(
    next: U32,
    pending: map<U32, nat>,
    promises: map<nat, Promise>,
    queue: seq<Message>,
    recvExc: Option<P.ErrorCode>,
    stats: Counters)

  /** Table entries are unset promises, and no promise is in the table twice. */
  ghost predicate Valid(c: Shared) {
    && (forall id :: id in c.pending ==> c.pending[id] in c.promises && c.promises[c.pending[id]].Unset?)
    && (forall i, j :: i in c.pending && j in c.pending && c.pending[i] == c.pending[j] ==> i == j)
  }

  function Register(c: Shared, id: U32, request: nat): Shared
    requires request !in c.promises
  {
    var promises := if id in c.pending then c.promises[c.pending[id] := Overwritten(request)] else c.promises;
    c.(pending := c.pending[id := request], promises := promises[request := Unset])
  }

  /** The promise is the one in the table under that id. */
  predicate Owns(pending: map<U32, nat>, id: U32, t: nat) {
    id in pending && pending[id] == t
  }

  /** Erasing a missing id does nothing. */
  function Erase(c: Shared, id: U32, request: nat): Shared {
    if id in c.pending then
      c.(pending := c.pending - {id}, promises := c.promises[c.pending[id] := Erased(request)])
    else c
  }

  predicate IsAnswer(f: Frame) {
    f.messageId != NO_MESSAGE_ID && HasFlag(f.flags, FLAG_RESPONSE)
  }

  lemma AnswerBit(f: Frame)
    ensures IsAnswer(f) <==> f.messageId > 0 && Bit(f.flags, 3)
  {
    assert Bit(f.flags, 3) == Bit(f.flags / 2, 2) == Bit(f.flags / 2 / 2, 1) == Bit(f.flags / 2 / 2 / 2, 0);
  }

  function Dispatch(c: Shared, f: Frame): Shared {
    if IsAnswer(f) then
      if f.messageId in c.pending then
        c.(pending := c.pending - {f.messageId},
           promises := c.promises[c.pending[f.messageId] := Answered(f.payload)])
      else c
    else c.(queue := c.queue + [f.payload])
  }

  function NotifyAllPending(c: Shared, e: P.ErrorCode): Shared {
    c.(pending := map[],
       promises := map t | t in c.promises :: if t in c.pending.Values then Disconnected(e) else c.promises[t])
  }

  function NotifyRecv(c: Shared, e: P.ErrorCode): Shared {
    c.(recvExc := Some(e))
  }

  function CountCall(s: Counters, sent: nat, received: nat, rtt: U64): Counters {
    CountSend(s, sent).(messagesReceived := WrapAdd(s.messagesReceived, 1),
                        bytesReceived := WrapAdd(s.bytesReceived, received),
                        rpcCalls := WrapAdd(s.rpcCalls, 1),
                        rttTotalNs := WrapAdd(s.rttTotalNs, rtt),
                        rttLastNs := rtt)
  }

  /** A walk over the table that has still to reach the ids in left. */
  ghost predicate PartlyNotified(c: Shared, promises: map<nat, Promise>, left: set<U32>, e: P.ErrorCode) {
    && promises.Keys == c.promises.Keys
    && (forall id :: id in c.pending ==>
          c.pending[id] in promises && promises[c.pending[id]] == if id in left then Unset else Disconnected(e))
    && (forall t :: t in promises && t !in c.pending.Values ==> promises[t] == c.promises[t])
  }

  lemma NotifyOne(c: Shared, promises: map<nat, Promise>, left: set<U32>, id: U32, e: P.ErrorCode)
    requires Valid(c) && left <= c.pending.Keys && id in left && PartlyNotified(c, promises, left, e)
    ensures promises[c.pending[id]].Unset?
    ensures PartlyNotified(c, promises[c.pending[id] := Disconnected(e)], left - {id}, e)
  {
    var after := promises[c.pending[id] := Disconnected(e)];
    forall i | i in c.pending
      ensures c.pending[i] in after && after[c.pending[i]] == if i in left - {id} then Unset else Disconnected(e)
    {
      assert i != id ==> c.pending[i] != c.pending[id];
    }
  }

  lemma NotifyEnd(c: Shared, promises: map<nat, Promise>, e: P.ErrorCode)
    requires PartlyNotified(c, promises, {}, e)
    ensures promises == NotifyAllPending(c, e).promises
  {
    forall t | t in c.promises ensures promises[t] == NotifyAllPending(c, e).promises[t] {
      if t in c.pending.Values {
        var id :| id in c.pending && c.pending[id] == t;
      }
    }
  }

  // ---------------------------------------------------------------------------------------
  // What a whole sequence of frames does
  // ---------------------------------------------------------------------------------------

  function DispatchAll(c: Shared, fs: seq<Frame>): Shared {
    if fs == [] then c else Dispatch(DispatchAll(c, fs[..|fs| - 1]), fs[|fs| - 1])
  }

  lemma DispatchAllSnoc(c: Shared, fs: seq<Frame>, f: Frame)
    ensures DispatchAll(c, fs + [f]) == Dispatch(DispatchAll(c, fs), f)
  {
    assert (fs + [f])[..|fs|] == fs;
  }

  /** The payloads that belong in the queue. */
  function PlainOf(fs: seq<Frame>): seq<Message> {
    if fs == [] then []
    else PlainOf(fs[..|fs| - 1]) + if IsAnswer(fs[|fs| - 1]) then [] else [fs[|fs| - 1].payload]
  }

  function FirstAnswer(fs: seq<Frame>, id: U32): Option<Message> {
    if fs == [] then None
    else
      var earlier := FirstAnswer(fs[..|fs| - 1], id);
      var f := fs[|fs| - 1];
      if earlier.None? && IsAnswer(f) && f.messageId == id then Some(f.payload) else earlier
  }

  /** A pending request gets the first answer to its id; later answers are dropped. */
  ghost predicate Resolution(c: Shared, c': Shared, fs: seq<Frame>, id: U32)
    requires id in c.pending
  {
    var first := FirstAnswer(fs, id);
    if first.None? then id in c'.pending && c'.pending[id] == c.pending[id]
    else
      && id !in c'.pending
      && c.pending[id] in c'.promises && c'.promises[c.pending[id]] == Answered(first.value)
  }

  /** c' is c after exactly the effects the frames should have. */
  ghost predicate Effects(c: Shared, c': Shared, fs: seq<Frame>) {
    && Valid(c')
    && c'.pending.Keys <= c.pending.Keys && c'.promises.Keys == c.promises.Keys
    && c'.next == c.next && c'.stats == c.stats && c'.recvExc == c.recvExc
    && c'.queue == c.queue + PlainOf(fs)
    && (forall id :: id in c.pending ==> Resolution(c, c', fs, id))
    && (forall t :: t in c.promises && t !in c.pending.Values ==> t in c'.promises && c'.promises[t] == c.promises[t])
  }

  lemma {:induction false} DispatchAllMeaning(c: Shared, fs: seq<Frame>)
    requires Valid(c)
    ensures Effects(c, DispatchAll(c, fs), fs)
    decreases |fs|
  {
    if fs == [] {
      NoEffects(c);
    } else {
      var before, f := fs[..|fs| - 1], fs[|fs| - 1];
      DispatchAllMeaning(c, before);
      DispatchMeaning(c, DispatchAll(c, before), before, f);
      assert before + [f] == fs;
    }
  }

  lemma NoEffects(c: Shared)
    requires Valid(c)
    ensures Effects(c, c, [])
  {}

  lemma DispatchMeaning(c: Shared, m: Shared, before: seq<Frame>, f: Frame)
    requires Valid(c) && Effects(c, m, before)
    ensures Effects(c, Dispatch(m, f), before + [f])
  {
    var c' := Dispatch(m, f);
    assert (before + [f])[..|before|] == before;
    assert c'.queue == c.queue + PlainOf(before + [f]);
    forall id | id in c.pending ensures Resolution(c, c', before + [f], id) {
      assert Resolution(c, m, before, id);
      if f.messageId in m.pending && f.messageId != id {
        assert Resolution(c, m, before, f.messageId);
      }
    }
  }

  // ---------------------------------------------------------------------------------------
  // The client object
  // ---------------------------------------------------------------------------------------

  datatype ReceiveResult = Delivered(message: Message) | Raised(error: P.ErrorCode) | TimedOut

  datatype LoopExit = StopSeen | LoopRaised(error: P.ErrorCode) | LoopBlocked

  /** Each delivery of the script has brought at least one byte, and no new error is in it. */
  ghost predicate ScriptUsed(k: P.Kernel, k': P.Kernel) {
    && |k'.incoming| <= |k.incoming|
    && |k.incoming| - |k'.incoming| + P.Deliveries(k'.polls) >= P.Deliveries(k.polls)
    && P.Later(k.polls, k'.polls) && P.Faults(k'.polls) == P.Faults(k.polls)
  }

  /**
    The script's part in an error: none in a bad frame or an early end of the stream, and for
    any other the last answer used gives the code. Nothing expires, for the wait has no limit.
  */
  ghost predicate ErrorCaused(polls: seq<P.Poll>, rest: seq<P.Poll>, e: P.ErrorCode) {
    && P.Later(polls, rest)
    && if e == P.InvalidMessage || e == P.ConnectionReset then P.Faults(rest) == P.Faults(polls)
       else P.Faults(rest) == P.Faults(polls) - 1 && P.FaultRaises(polls, |rest|, e)
  }

  /** Why a receive that starts at k ends the loop. */
  ghost predicate EndCaused(k: P.Kernel, k': P.Kernel, open: bool, exit: LoopExit) {
    match exit
    case StopSeen => false
    case LoopBlocked => open && k'.polls == [] && ScriptUsed(k, k') && Undecided(k.incoming, k'.incoming)
    case LoopRaised(e) =>
      if e == P.NotConnected then !open && k' == k
      else
        && open && Agrees(Decode(k.incoming), RecvFailed(e), k.incoming, k'.incoming)
        && ErrorCaused(k.polls, k'.polls, e)
  }

  /** Where the loop stands in the stream and in the script when it ends after n frames. */
  ghost predicate LoopEnds(k: P.Kernel, k': P.Kernel, open: bool, rounds: nat, exit: LoopExit, n: nat) {
    var rest := Rest(k.incoming, n);
    match exit
    case StopSeen => n == rounds && k'.incoming == rest && ScriptUsed(k, k')
    case LoopBlocked => open && k'.polls == [] && ScriptUsed(k, k') && Undecided(rest, k'.incoming)
    case LoopRaised(e) =>
      if e == P.NotConnected then !open && n == 0
      else
        && open && Agrees(Decode(rest), RecvFailed(e), rest, k'.incoming)
        && ErrorCaused(k.polls, k'.polls, e)
  }

  /**
    What becomes of a request that was pending: its first answer, and without one the error
    that ended the loop; if none did, it goes on waiting.
  */
  ghost predicate Settles(c: Shared, s: Shared, fs: seq<Frame>, exit: LoopExit, id: U32)
    requires id in c.pending
  {
    var t := c.pending[id];
    && t in s.promises
    && match FirstAnswer(fs, id)
       case Some(m) => id !in s.pending && s.promises[t] == Answered(m)
       case None =>
         if exit.LoopRaised? then s.promises[t] == Disconnected(exit.error)
         else id in s.pending && s.pending[id] == t && s.promises[t] == Unset
  }

  /** The client after the loop has dispatched fs and ended; only an error is kept for the plain receivers. */
  ghost predicate LeavesClient(c: Shared, s: Shared, fs: seq<Frame>, exit: LoopExit) {
    && Valid(s) && s.next == c.next && s.stats == c.stats && s.promises.Keys == c.promises.Keys
    && s.queue == c.queue + PlainOf(fs)
    && s.recvExc == (if exit.LoopRaised? then Some(exit.error) else c.recvExc)
    && s.pending.Keys <= c.pending.Keys && (exit.LoopRaised? ==> s.pending == map[])
    && (forall id :: id in c.pending ==> Settles(c, s, fs, exit, id))
    && (forall t :: t in c.promises && t !in c.pending.Values ==> s.promises[t] == c.promises[t])
  }

  /** The loop has ended: what it has done to the client, and why it ended. */
  ghost predicate LoopDone(k: P.Kernel, k': P.Kernel, open: bool, c: Shared, s: Shared, rounds: nat, exit: LoopExit, n: nat) {
    && n <= |ParseAll(k.incoming)| && LoopEnds(k, k', open, rounds, exit, n)
    && (exit == LoopRaised(P.ConnectionReset) || exit == LoopRaised(P.InvalidMessage) ==> n == |ParseAll(k.incoming)|)
    && LeavesClient(c, s, ParseAll(k.incoming)[..n], exit)
  }

  lemma QuietEndLeaves(c: Shared, fs: seq<Frame>, exit: LoopExit)
    requires Valid(c) && !exit.LoopRaised?
    ensures LeavesClient(c, DispatchAll(c, fs), fs, exit)
  {
    var s := DispatchAll(c, fs);
    DispatchAllMeaning(c, fs);
    forall id | id in c.pending ensures Settles(c, s, fs, exit, id) {
      assert Resolution(c, s, fs, id);
    }
  }

  lemma RaiseLeaves(c: Shared, fs: seq<Frame>, e: P.ErrorCode)
    requires Valid(c)
    ensures LeavesClient(c, NotifyRecv(NotifyAllPending(DispatchAll(c, fs), e), e), fs, LoopRaised(e))
  {
    var m := DispatchAll(c, fs);
    var s := NotifyRecv(NotifyAllPending(m, e), e);
    DispatchAllMeaning(c, fs);
    forall id | id in c.pending ensures Settles(c, s, fs, LoopRaised(e), id) {
      assert Resolution(c, m, fs, id);
      if id !in m.pending {
        NotPending(c, m, fs, c.pending[id]);
      }
    }
    forall t | t in c.promises && t !in c.pending.Values ensures s.promises[t] == c.promises[t] {
      NotPending(c, m, fs, t);
    }
  }

  /** A promise that is set or was never in the table is not in it afterwards. */
  lemma NotPending(c: Shared, m: Shared, fs: seq<Frame>, t: nat)
    requires Effects(c, m, fs)
    requires (t in m.promises && !m.promises[t].Unset?) || t !in c.pending.Values
    ensures t !in m.pending.Values
  {
    forall id | id in m.pending ensures m.pending[id] != t {
      assert Resolution(c, m, fs, id);
    }
  }

  lemma BeginInStep(k: P.Kernel, open: bool, c: Shared)
    requires Valid(c)
    ensures InStep(k, k, open, c, c, 0)
  {
    assert ParseAll(k.incoming)[..0] == [];
    P.OneLater(k.polls);
  }

  lemma StopInStep(k: P.Kernel, m: P.Kernel, open: bool, c: Shared, s: Shared, rounds: nat)
    requires InStep(k, m, open, c, s, rounds) && Valid(c)
    ensures LoopDone(k, m, open, c, s, rounds, StopSeen, rounds)
  {
    QuietEndLeaves(c, ParseAll(k.incoming)[..rounds], StopSeen);
  }

  lemma UsedLater(k: P.Kernel, m: P.Kernel, k': P.Kernel)
    requires ScriptUsed(k, m) && P.Later(m.polls, k'.polls)
    ensures P.Later(k.polls, k'.polls)
    ensures ScriptUsed(m, k') ==> ScriptUsed(k, k')
    ensures forall e :: ErrorCaused(m.polls, k'.polls, e) ==> ErrorCaused(k.polls, k'.polls, e)
  {
    P.LaterLater(k.polls, m.polls, k'.polls);
    if |k'.polls| < |m.polls| {
      P.LaterOne(k.polls, m.polls, |k'.polls|);
    }
  }

  lemma EndAfter(k: P.Kernel, m: P.Kernel, k': P.Kernel, open: bool, rounds: nat, exit: LoopExit, n: nat)
    requires m.incoming == Rest(k.incoming, n) && ScriptUsed(k, m) && (!open ==> n == 0)
    requires EndCaused(m, k', open, exit) && n <= |ParseAll(k.incoming)|
    ensures LoopEnds(k, k', open, rounds, exit, n)
    ensures exit == LoopRaised(P.ConnectionReset) || exit == LoopRaised(P.InvalidMessage) ==> n == |ParseAll(k.incoming)|
  {
    if !Decode(Rest(k.incoming, n)).Got? {
      NoMoreFrames(k.incoming, n);
    }
    if open && exit != LoopRaised(P.NotConnected) {
      UsedLater(k, m, k');
    }
  }

  /** After n frames of a stream that began at k with the client at c. */
  ghost predicate InStep(k: P.Kernel, m: P.Kernel, open: bool, c: Shared, s: Shared, n: nat) {
    && n <= |ParseAll(k.incoming)| && m.incoming == Rest(k.incoming, n) && ScriptUsed(k, m) && (!open ==> n == 0)
    && Valid(s) && s == DispatchAll(c, ParseAll(k.incoming)[..n])
  }

  lemma NextInStep(k: P.Kernel, m: P.Kernel, m': P.Kernel, c: Shared, s: Shared, s': Shared, n: nat)
    requires InStep(k, m, true, c, s, n) && Valid(s') && ScriptUsed(m, m')
    requires var d := Decode(m.incoming);
             d.Got? && m'.incoming == m.incoming[d.length..] && s' == Dispatch(s, d.frame)
    ensures InStep(k, m', true, c, s', n + 1)
  {
    UsedLater(k, m, m');
    TakeOneMore(k.incoming, n);
    DispatchAllSnoc(c, ParseAll(k.incoming)[..n], Decode(m.incoming).frame);
  }

  class RpcPipeClient {
    var next: U32
    var pending: map<U32, nat>
    var promises: map<nat, Promise>
    var queue: seq<Message>
    var recvExc: Option<P.ErrorCode>
    var stats: Counters

    constructor ()
      ensures State() == Shared(1, map[], map[], [], None, ZERO)
    {
      next, pending, promises := 1, map[], map[];
      queue, recvExc, stats := [], None, ZERO;
    }

    function State(): Shared
      reads this
    {
      Shared(next, pending, promises, queue, recvExc, stats)
    }

    method FetchId() returns (id: U32)
      modifies this`next
      ensures id == old(next) && next == Bump(old(next))
    {
      id := next;
      next := if next == TWO_32 - 1 then 0 else next + 1;
    }

    /** One round of drawing, undisturbed. */
    method DrawCandidate() returns (id: U32)
      modifies this`next
      ensures id == Candidate(old(next)) && next == Bump(id)
    {
      id := FetchId();
      if id == NO_MESSAGE_ID || id == RESERVED_ID_MAX {
        id := FetchId();
      }
    }

    /**
      The first part of send_request when no other thread draws ids. Only a table that holds
      every drawable id would keep it searching for ever.
    */
    method AllocateId() returns (id: U32, tries: nat)
      requires |pending| < TWO_32 - 1
      modifies this`next
      ensures id !in pending && id != RESERVED_ID_MAX
      ensures tries <= |pending|
      ensures id == CandidateAt(old(next), tries) && next == Bump(id)
      ensures forall j :: 0 <= j < tries ==> CandidateAt(old(next), j) in pending
      ensures id == NO_MESSAGE_ID <==>
                (if tries == 0 then old(next) else Bump(CandidateAt(old(next), tries - 1))) == RESERVED_ID_MAX
    {
      id := DrawCandidate();
      tries := 0;
      while id in pending
        invariant id == CandidateAt(old(next), tries) && next == Bump(id)
        invariant forall j :: 0 <= j < tries ==> CandidateAt(old(next), j) in pending.Keys
        decreases |pending| - tries
      {
        TriesBounded(old(next), tries + 1, pending.Keys);
        CandidateSucc(old(next), tries);
        id := DrawCandidate();
        tries := tries + 1;
      }
      TriesBounded(old(next), tries, pending.Keys);
      CandidateRange(old(next), tries);
    }

    /** pending_map_[id] = promise; a promise that was there is destroyed unset. */
    method RegisterRequest(id: U32, request: nat)
      requires Valid(State()) && request !in promises
      modifies this`pending, this`promises
      ensures State() == Register(old(State()), id, request) && Valid(State())
      ensures pending == old(pending)[id := request] && promises.Keys == old(promises).Keys + {request}
      ensures promises[request] == Unset
      ensures forall t :: t in old(promises) ==>
                promises[t] == if Owns(old(pending), id, t) then Overwritten(request) else old(promises)[t]
    {
      if id in pending {
        promises := promises[pending[id] := Overwritten(request)];
      }
      promises := promises[request := Unset];
      pending := pending[id := request];
    }

    method EraseRequest(id: U32, request: nat)
      requires Valid(State())
      modifies this`pending, this`promises
      ensures State() == Erase(old(State()), id, request) && Valid(State())
      ensures pending == old(pending) - {id} && promises.Keys == old(promises).Keys
      ensures forall t :: t in old(promises) ==>
                promises[t] == if Owns(old(pending), id, t) then Erased(request) else old(promises)[t]
    {
      if id in pending {
        promises := promises[pending[id] := Erased(request)];
        pending := pending - {id};
      }
    }

    /** The receiver never sets a promise that is already set: Valid rules it out. */
    method DispatchFrame(f: Frame)
      requires Valid(State())
      modifies this`pending, this`promises, this`queue
      ensures State() == Dispatch(old(State()), f) && Valid(State())
      ensures promises.Keys == old(promises).Keys
      ensures if f.messageId > 0 && Bit(f.flags, 3) then
                && queue == old(queue) && pending == old(pending) - {f.messageId}
                && forall t :: t in old(promises) ==>
                     promises[t] == if Owns(old(pending), f.messageId, t) then Answered(f.payload) else old(promises)[t]
              else queue == old(queue) + [f.payload] && pending == old(pending) && promises == old(promises)
    {
      AnswerBit(f);
      if f.messageId != NO_MESSAGE_ID && HasFlag(f.flags, FLAG_RESPONSE) {
        if f.messageId in pending {
          assert promises[pending[f.messageId]].Unset?;
          promises := promises[pending[f.messageId] := Answered(f.payload)];
          pending := pending - {f.messageId};
        }
      } else {
        queue := queue + [f.payload];
      }
    }

    /** The table is walked in no particular order. */
    method NotifyPending(e: P.ErrorCode)
      requires Valid(State())
      modifies this`pending, this`promises
      ensures State() == NotifyAllPending(old(State()), e) && Valid(State())
      ensures pending == map[] && promises.Keys == old(promises).Keys
      ensures forall t :: t in old(promises) ==>
                promises[t] == if t in old(pending).Values then Disconnected(e) else old(promises)[t]
    {
      ghost var c := State();
      var left := pending.Keys;
      while left != {}
        invariant left <= c.pending.Keys && pending == c.pending
        invariant PartlyNotified(c, promises, left, e)
        decreases |left|
      {
        var id :| id in left;
        NotifyOne(c, promises, left, id, e);
        if promises[pending[id]].Unset? {
          promises := promises[pending[id] := Disconnected(e)];
        }
        left := left - {id};
      }
      NotifyEnd(c, promises, e);
      pending := map[];
    }

    method NotifyReceivers(e: P.ErrorCode)
      modifies this`recvExc
      ensures State() == NotifyRecv(old(State()), e) && recvExc == Some(e)
    {
      recvExc := Some(e);
    }

    /**
      receive, from the end of its wait on: the wait ends with a message or an error there,
      or, when it has a limit, without either.
    */
    method Receive(expired: bool) returns (r: ReceiveResult)
      requires queue != [] || recvExc.Some? || expired
      modifies this`queue
      ensures old(queue) != [] ==> r == Delivered(old(queue)[0]) && queue == old(queue)[1..]
      ensures old(queue) == [] ==> queue == [] && r == if recvExc.Some? then Raised(recvExc.value) else TimedOut
    {
      if queue == [] && recvExc.None? {
        return TimedOut;
      }
      if queue == [] && recvExc.Some? {
        return Raised(recvExc.value);
      }
      var message := queue[0];
      queue := queue[1..];
      return Delivered(message);
    }

    /**
      receiver_loop over a real stream: it dispatches the frames of the stream in order. All
      of them were dispatched before the peer's end of stream or a bad frame is announced.
      `rounds` is how often the stop flag still reads false. The loop only blocks when the
      deliveries of the script are used up and do not complete another frame.
    */
    method ReceiverLoop(host: Host, pipe: P.PosixPipe, rounds: nat) returns (exit: LoopExit, n: nat)
      requires Valid(State())
      modifies this`pending, this`promises, this`queue, this`recvExc
      modifies pipe`connected, pipe`incoming, pipe`polls, pipe`now, pipe`pollTime
      ensures n <= rounds && LoopDone(old(pipe.Reading()), pipe.Reading(), pipe.open, old(State()), State(), rounds, exit, n)
    {
      ghost var k, c := pipe.Reading(), State();
      BeginInStep(k, pipe.open, c);
      n := 0;
      while n < rounds
        invariant n <= rounds && InStep(k, pipe.Reading(), pipe.open, c, State(), n)
        decreases rounds - n
      {
        exit := ReceiveRound(host, pipe, k, c, rounds, n);
        if !exit.StopSeen? {
          return;
        }
        n := n + 1;
      }
      StopInStep(k, pipe.Reading(), pipe.open, c, State(), rounds);
      exit := StopSeen;
    }

    /** A round, seen from the whole loop. */
    method ReceiveRound(host: Host, pipe: P.PosixPipe, ghost k: P.Kernel, ghost c: Shared, ghost rounds: nat, ghost n: nat)
      returns (exit: LoopExit)
      requires Valid(c) && InStep(k, pipe.Reading(), pipe.open, c, State(), n)
      modifies this`pending, this`promises, this`queue, this`recvExc
      modifies pipe`connected, pipe`incoming, pipe`polls, pipe`now, pipe`pollTime
      ensures exit.StopSeen? ==> InStep(k, pipe.Reading(), pipe.open, c, State(), n + 1)
      ensures !exit.StopSeen? ==> LoopDone(k, pipe.Reading(), pipe.open, c, State(), rounds, exit, n)
    {
      ghost var m, s := pipe.Reading(), State();
      exit := ReceiveOne(host, pipe);
      if exit.StopSeen? {
        NextInStep(k, m, pipe.Reading(), c, s, State(), n);
      } else {
        EndAfter(k, m, pipe.Reading(), pipe.open, rounds, exit, n);
        if exit.LoopRaised? {
          RaiseLeaves(c, ParseAll(k.incoming)[..n], exit.error);
        } else {
          QuietEndLeaves(c, ParseAll(k.incoming)[..n], exit);
        }
      }
    }

    /** The body of that loop; StopSeen here means to go on. */
    method ReceiveOne(host: Host, pipe: P.PosixPipe) returns (exit: LoopExit)
      requires Valid(State())
      modifies this`pending, this`promises, this`queue, this`recvExc
      modifies pipe`connected, pipe`incoming, pipe`polls, pipe`now, pipe`pollTime
      ensures Valid(State())
      ensures exit.StopSeen? ==>
                var d := Decode(old(pipe.incoming));
                && d.Got? && pipe.incoming == old(pipe.incoming)[d.length..] && State() == Dispatch(old(State()), d.frame)
      ensures exit.LoopRaised? ==> State() == NotifyRecv(NotifyAllPending(old(State()), exit.error), exit.error)
      ensures exit.LoopBlocked? ==> State() == old(State())
      ensures !exit.StopSeen? ==> EndCaused(old(pipe.Reading()), pipe.Reading(), pipe.open, exit)
      ensures exit.StopSeen? ==> pipe.open && ScriptUsed(old(pipe.Reading()), pipe.Reading())
    {
      var r := RecvFrame(host, pipe, 0);
      match r
      case RecvBlocked =>
        exit := LoopBlocked;
      case RecvFailed(e) =>
        NotifyPending(e);
        NotifyReceivers(e);
        exit := LoopRaised(e);
      case Received(f) =>
        DispatchFrame(f);
        exit := StopSeen;
    }
  }
}
