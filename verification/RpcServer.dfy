/** The serving side of an RPC connection: one loop that answers requests in order. */
module RpcServer {
  import opened Words
  import opened Frames
  import opened FrameIo
  import opened PipeStats
  import P = PosixPipe

  datatype HandlerResult = Returned(message: Message) | Threw

  /** A handler that throws is answered for with an empty message. */
  function Answer(r: HandlerResult): Message {
    if r.Returned? then r.message else []
  }

  type Handler = Message -> HandlerResult

  predicate IsRequest(f: Frame) { HasFlag(f.flags, FLAG_REQUEST) }

  lemma RequestBit(f: Frame)
    ensures IsRequest(f) <==> Bit(f.flags, 2)
  {
    assert Bit(f.flags, 2) == Bit(f.flags / 2, 1) == Bit(f.flags / 2 / 2, 0);
  }

  function Reply(handler: Handler, f: Frame): Frame {
    Frame(Answer(handler(f.payload)), f.messageId, FLAG_RESPONSE)
  }

  /** One reply for each request, in order; frames that are not requests are dropped. */
  function Replies(handler: Handler, fs: seq<Frame>): seq<Frame> {
    if fs == [] then []
    else (if IsRequest(fs[0]) then [Reply(handler, fs[0])] else []) + Replies(handler, fs[1..])
  }

  function CountReply(s: Counters, received: nat, sent: nat): Counters {
    CountSend(CountReceive(s, received), sent)
  }

  function CountReplies(s: Counters, handler: Handler, fs: seq<Frame>): Counters
    decreases |fs|
  {
    if fs == [] then s
    else
      var f := fs[0];
      CountReplies(if IsRequest(f) then CountReply(s, |f.payload|, |Reply(handler, f).payload|) else s, handler, fs[1..])
  }

  // ---------------------------------------------------------------------------------------
  // What a script makes of the receiving half
  // ---------------------------------------------------------------------------------------

  const POLL_MS: int := 50

  /** The frames taken, the result that ended it, if any did, and what is left. */
  datatype Intake = Intake(frames: seq<Frame>, last: Option<RecvResult>, kernel: P.Kernel)

  /** A serving loop receives again after a frame and after an expired interval. */
  predicate GoesOn(r: RecvResult) { r.Received? || r == RecvFailed(P.Timeout) }

  /** The results of receives, one after the other. */
  datatype Receives = Nil | Cons(head: RecvEnd, tail: Receives)

  function Length(rs: Receives): nat {
    if rs.Nil? then 0 else 1 + Length(rs.tail)
  }

  /** The receives that a number of rounds can make, whatever becomes of the replies. */
  function Arrivals(open: bool, k: P.Kernel, rounds: nat): Receives
    decreases rounds
  {
    if rounds == 0 then Nil
    else
      var end := PipeRun(open, k, POLL_MS);
      Cons(end, if GoesOn(end.result) then Arrivals(open, end.kernel, rounds - 1) else Nil)
  }

  function Gathered(k: P.Kernel, rs: Receives): Intake
    decreases rs
  {
    match rs
    case Nil => Intake([], None, k)
    case Cons(r, later) =>
      if r.result.Received? then After([r.result.frame], Gathered(r.kernel, later))
      else if GoesOn(r.result) then Gathered(r.kernel, later)
      else Intake([], Some(r.result), r.kernel)
  }

  function ServeRun(open: bool, k: P.Kernel, rounds: nat): Intake {
    Gathered(k, Arrivals(open, k, rounds))
  }

  function After(fs: seq<Frame>, rest: Intake): Intake {
    rest.(frames := fs + rest.frames)
  }

  // ---------------------------------------------------------------------------------------
  // What a script makes of the whole loop
  // ---------------------------------------------------------------------------------------

  /** A frame taken and what became of its reply: how the send ended and how much of it was written. */
  datatype Handled = Handled(frame: Frame, io: P.IoResult, written: nat)

  datatype Round = Idled | Took(handled: Handled) | Refused(result: RecvResult)

  datatype ServeExit = StopSeen | ReceiveEnded(result: RecvResult) | ReplyEnded(io: P.IoResult)

  datatype Situation = Situation(kernel: P.Kernel, sends: seq<P.SendAnswer>, outgoing: seq<Byte>, stats: Counters)

  datatype RoundEnd = RoundEnd(round: Round, after: Situation)

  datatype LoopEnd = LoopEnd(exit: ServeExit, trace: seq<Handled>, after: Situation)

  /** A send that timed out is caught together with a receive that did, and the loop goes on. */
  predicate Survives(h: Handled) { h.io.Done? || h.io == P.Failed(P.Timeout) }

  /** The part of its reply that a handled frame has put on the wire. */
  function Part(handler: Handler, h: Handled): seq<Byte> {
    var reply := Reply(handler, h.frame);
    if IsRequest(h.frame) && Encodable(reply) && h.written <= |Encode(reply)| then Encode(reply)[..h.written] else []
  }

  function CountHandled(s: Counters, handler: Handler, h: Handled): Counters {
    if IsRequest(h.frame) && h.io.Done? then CountReply(s, |h.frame.payload|, |Reply(handler, h.frame).payload|) else s
  }

  function AnswerRun(handler: Handler, f: Frame, s: Situation): RoundEnd {
    if !IsRequest(f) then RoundEnd(Took(Handled(f, P.Done, 0)), s)
    else
      var end := SendRun(|Reply(handler, f).payload|, s.sends);
      var h := Handled(f, end.io, end.written);
      RoundEnd(Took(h), s.(sends := end.sends, outgoing := s.outgoing + Part(handler, h),
                           stats := CountHandled(s.stats, handler, h)))
  }

  function RoundRun(handler: Handler, received: RecvEnd, s: Situation): RoundEnd {
    var s' := s.(kernel := received.kernel);
    match received.result
    case Received(f) => AnswerRun(handler, f, s')
    case _ => RoundEnd(if GoesOn(received.result) then Idled else Refused(received.result), s')
  }

  function LoopOver(handler: Handler, rs: Receives, s: Situation): LoopEnd {
    match rs
    case Nil => LoopEnd(StopSeen, [], s)
    case Cons(received, later) =>
      var end := RoundRun(handler, received, s);
      Onward(end, LoopOver(handler, later, end.after))
  }

  function LoopRun(handler: Handler, open: bool, s: Situation, rounds: nat): LoopEnd {
    LoopOver(handler, Arrivals(open, s.kernel, rounds), s)
  }

  /** A round, and what the loop does after it if it goes on. */
  function Onward(end: RoundEnd, rest: LoopEnd): LoopEnd {
    match end.round
    case Idled => rest
    case Refused(result) => LoopEnd(ReceiveEnded(result), [], end.after)
    case Took(h) => if Survives(h) then Joined([h], rest) else LoopEnd(ReplyEnded(h.io), [h], end.after)
  }

  function Joined(trace: seq<Handled>, rest: LoopEnd): LoopEnd {
    rest.(trace := trace + rest.trace)
  }

  lemma JoinedJoined(a: seq<Handled>, b: seq<Handled>, rest: LoopEnd)
    ensures Joined(a, Joined(b, rest)) == Joined(a + b, rest)
  {
    assert a + (b + rest.trace) == (a + b) + rest.trace;
  }

  lemma JoinedNothing(trace: seq<Handled>, rest: LoopEnd)
    ensures rest.trace == [] ==> Joined(trace, rest) == rest.(trace := trace)
    ensures Joined([], rest) == rest
  {
    assert trace + [] == trace && [] + rest.trace == rest.trace;
  }

  // ---------------------------------------------------------------------------------------
  // What that means
  // ---------------------------------------------------------------------------------------

  function FramesOf(trace: seq<Handled>): (fs: seq<Frame>)
    ensures |fs| == |trace| && forall i :: 0 <= i < |fs| ==> fs[i] == trace[i].frame
  {
    seq(|trace|, i requires 0 <= i < |trace| => trace[i].frame)
  }

  /** The parts of the replies, one after the other. */
  function WireOf(handler: Handler, trace: seq<Handled>): seq<Byte> {
    Flatten(Parts(handler, trace))
  }

  function Parts(handler: Handler, trace: seq<Handled>): (parts: seq<seq<Byte>>)
    ensures |parts| == |trace| && forall i :: 0 <= i < |parts| ==> parts[i] == Part(handler, trace[i])
  {
    seq(|trace|, i requires 0 <= i < |trace| => Part(handler, trace[i]))
  }

  lemma WireOfCons(handler: Handler, h: Handled, trace: seq<Handled>)
    ensures WireOf(handler, [h] + trace) == Part(handler, h) + WireOf(handler, trace)
  {
    assert Parts(handler, [h] + trace) == [Part(handler, h)] + Parts(handler, trace);
  }

  function CountsOf(s: Counters, handler: Handler, trace: seq<Handled>): Counters
    decreases |trace|
  {
    if trace == [] then s else CountsOf(CountHandled(s, handler, trace[0]), handler, trace[1..])
  }

  /** How many replies were cut short by a send that timed out. */
  function Torn(trace: seq<Handled>): nat {
    if trace == [] then 0 else (if trace[0].io == P.Failed(P.Timeout) then 1 else 0) + Torn(trace[1..])
  }

  /** A reply is written whole or cut short, or not at all if it is too large. */
  ghost predicate Puts(reply: Frame, io: P.IoResult, written: nat, part: seq<Byte>) {
    if |reply.payload| >= TWO_32 then io == P.Failed(P.Overflow) && written == 0 && part == []
    else
      && written <= |Encode(reply)| && part == Encode(reply)[..written]
      && (io.Done? <==> written == |Encode(reply)|)
      && (io.Failed? ==> P.IsIoError(io.code) && !io.code.NotConnected?)
  }

  /**
    A request is answered under its own id with what the handler returned, or with an empty
    message if it threw; any other frame is dropped.
  */
  ghost predicate HandledRight(handler: Handler, h: Handled) {
    var part := Part(handler, h);
    if !IsRequest(h.frame) then h.io.Done? && h.written == 0 && part == []
    else
      match handler(h.frame.payload)
      case Returned(m) => Puts(Frame(m, h.frame.messageId, FLAG_RESPONSE), h.io, h.written, part)
      case Threw => Puts(Frame([], h.frame.messageId, FLAG_RESPONSE), h.io, h.written, part)
  }

  /** What one reply does on the sending half. */
  ghost predicate AnswersRight(handler: Handler, h: Handled, s: Situation, s': Situation) {
    HandledRight(handler, h) && AnswerCosts(handler, h, s, s')
  }

  ghost predicate AnswerCosts(handler: Handler, h: Handled, s: Situation, s': Situation) {
    && s'.kernel == s.kernel
    && s'.outgoing == s.outgoing + Part(handler, h) && s'.stats == CountHandled(s.stats, handler, h)
    && P.Lapses(s'.sends) == P.Lapses(s.sends) - (if h.io == P.Failed(P.Timeout) then 1 else 0)
    && |s'.outgoing| - |s.outgoing| + P.Takes(s'.sends) >= P.Takes(s.sends)
    && P.SendFaults(s'.sends) == P.SendFaults(s.sends) - (if h.io.Failed? && !h.io.code.Overflow? then 1 else 0)
    && (h.io == P.Blocked ==> s'.sends == [])
    && P.LaterSends(s.sends, s'.sends) && SendEnds(s.sends, s'.sends, h.io)
  }

  /** A send that failed met an error, unless the reply was too large, and raises what is due for it. */
  ghost predicate SendEnds(sends: seq<P.SendAnswer>, rest: seq<P.SendAnswer>, io: P.IoResult) {
    io.Failed? && !io.code.Overflow? ==> P.SendRaises(sends, |rest|, io.code)
  }

  lemma SendEndsLater(a: seq<P.SendAnswer>, b: seq<P.SendAnswer>, rest: seq<P.SendAnswer>, io: P.IoResult)
    requires P.LaterSends(a, b) && P.LaterSends(b, rest) && SendEnds(b, rest, io)
    ensures P.LaterSends(a, rest) && SendEnds(a, rest, io)
  {
    P.LaterSendsLater(a, b, rest);
    if io.Failed? && !io.code.Overflow? {
      P.SendRaisesLater(a, b, rest, io.code);
    }
  }

  lemma AnswerIsRight(handler: Handler, f: Frame, s: Situation)
    ensures var end := AnswerRun(handler, f, s);
            end.round.Took? && end.round.handled.frame == f && AnswersRight(handler, end.round.handled, s, end.after)
  {
    var reply := Reply(handler, f);
    if IsRequest(f) && Encodable(reply) {
      SendRunIsRight(|reply.payload|, s.sends);
    } else {
      assert s.outgoing + [] == s.outgoing;
    }
  }

  /** The frames handled are those of the intake, and all of them unless a reply ended the loop. */
  ghost predicate TakesIntake(taken: Intake, end: LoopEnd) {
    && FramesOf(end.trace) <= taken.frames
    && (!end.exit.ReplyEnded? ==>
          && FramesOf(end.trace) == taken.frames && end.after.kernel == taken.kernel
          && taken.last == (if end.exit.StopSeen? then None else Some(end.exit.result)))
  }

  ghost predicate EntryRight(handler: Handler, h: Handled, last: bool) {
    HandledRight(handler, h) && (h.io == P.Done || h.io == P.Failed(P.Timeout) || last)
  }

  /**
    Each frame is handled as it should be. The loop goes on exactly after a reply that was
    written or timed out; only the last can be one that ended it.
  */
  ghost predicate TraceRight(handler: Handler, end: LoopEnd) {
    && (forall i :: 0 <= i < |end.trace| ==>
          EntryRight(handler, end.trace[i], end.exit.ReplyEnded? && i == |end.trace| - 1))
    && (end.exit.ReplyEnded? ==>
          && end.trace != [] && end.trace[|end.trace| - 1].io == end.exit.io
          && end.exit.io != P.Done && end.exit.io != P.Failed(P.Timeout))
  }

  /** Wire and counters are those of the frames handled. */
  ghost predicate EffectsRight(handler: Handler, s: Situation, end: LoopEnd) {
    && end.after.outgoing == s.outgoing + WireOf(handler, end.trace)
    && end.after.stats == CountsOf(s.stats, handler, end.trace)
    && SendsRight(s, end)
  }

  /** Every torn or failed reply has its cause in the script. */
  ghost predicate SendsRight(s: Situation, end: LoopEnd) {
    && |end.after.outgoing| - |s.outgoing| + P.Takes(end.after.sends) >= P.Takes(s.sends)
    && Torn(end.trace) == P.Lapses(s.sends) - P.Lapses(end.after.sends)
    && P.SendFaults(end.after.sends) ==
       P.SendFaults(s.sends) - Torn(end.trace)
       - (if end.exit.ReplyEnded? && end.exit.io.Failed? && !end.exit.io.code.Overflow? then 1 else 0)
    && (end.exit == ReplyEnded(P.Blocked) ==> end.after.sends == [])
    && P.LaterSends(s.sends, end.after.sends)
    && (end.exit.ReplyEnded? ==> SendEnds(s.sends, end.after.sends, end.exit.io))
  }

  /** A round answers a frame as it should be, or only receives; only an expired interval lets the loop go on then. */
  ghost predicate RoundRight(handler: Handler, received: RecvEnd, s: Situation, end: RoundEnd) {
    && (end.round.Took? <==> received.result.Received?)
    && (end.round.Idled? <==> received.result == RecvFailed(P.Timeout))
    && (end.round.Refused? ==> end.round.result == received.result)
    && if end.round.Took? then
         && end.round.handled.frame == received.result.frame
         && AnswersRight(handler, end.round.handled, s.(kernel := received.kernel), end.after)
       else end.after == s.(kernel := received.kernel)
  }

  lemma RoundIsRight(handler: Handler, received: RecvEnd, s: Situation)
    ensures RoundRight(handler, received, s, RoundRun(handler, received, s))
  {
    if received.result.Received? {
      AnswerIsRight(handler, received.result.frame, s.(kernel := received.kernel));
    }
  }

  lemma {:induction false} LoopTakesIntake(handler: Handler, rs: Receives, s: Situation)
    ensures TakesIntake(Gathered(s.kernel, rs), LoopOver(handler, rs, s))
  {
    if rs.Cons? {
      var end := RoundRun(handler, rs.head, s);
      RoundIsRight(handler, rs.head, s);
      LoopTakesIntake(handler, rs.tail, end.after);
      if end.round.Took? {
        var taken, rest := Gathered(rs.head.kernel, rs.tail), LoopOver(handler, rs.tail, end.after);
        JoinIntake(rs.head.result.frame, end.round.handled, taken, rest);
      }
    }
  }

  lemma JoinIntake(f: Frame, h: Handled, taken: Intake, rest: LoopEnd)
    requires h.frame == f && TakesIntake(taken, rest)
    ensures TakesIntake(After([f], taken), Joined([h], rest))
    ensures forall io, s :: TakesIntake(After([f], taken), LoopEnd(ReplyEnded(io), [h], s))
  {
    assert FramesOf([h] + rest.trace) == [f] + FramesOf(rest.trace);
    assert FramesOf([h]) == [f];
  }

  lemma {:induction false} LoopTraceRight(handler: Handler, rs: Receives, s: Situation)
    ensures TraceRight(handler, LoopOver(handler, rs, s))
  {
    if rs.Cons? {
      var end := RoundRun(handler, rs.head, s);
      RoundIsRight(handler, rs.head, s);
      LoopTraceRight(handler, rs.tail, end.after);
      OnwardTrace(handler, end, LoopOver(handler, rs.tail, end.after));
    }
  }

  lemma OnwardTrace(handler: Handler, end: RoundEnd, rest: LoopEnd)
    requires end.round.Took? ==> HandledRight(handler, end.round.handled)
    requires TraceRight(handler, rest)
    ensures TraceRight(handler, Onward(end, rest))
  {
    if end.round.Took? && Survives(end.round.handled) {
      JoinTrace(handler, end.round.handled, rest);
    }
  }

  lemma JoinTrace(handler: Handler, h: Handled, rest: LoopEnd)
    requires HandledRight(handler, h) && Survives(h) && TraceRight(handler, rest)
    ensures TraceRight(handler, Joined([h], rest))
  {
    var trace := [h] + rest.trace;
    forall i | 0 <= i < |trace|
      ensures EntryRight(handler, trace[i], rest.exit.ReplyEnded? && i == |trace| - 1)
    {
      if i > 0 {
        assert EntryRight(handler, rest.trace[i - 1], rest.exit.ReplyEnded? && i - 1 == |rest.trace| - 1);
      }
    }
  }

  lemma {:induction false} LoopEffectsRight(handler: Handler, rs: Receives, s: Situation)
    ensures EffectsRight(handler, s, LoopOver(handler, rs, s))
  {
    assert Parts(handler, []) == [] && s.outgoing + [] == s.outgoing;
    if rs.Cons? {
      var end := RoundRun(handler, rs.head, s);
      RoundIsRight(handler, rs.head, s);
      LoopEffectsRight(handler, rs.tail, end.after);
      OnwardEffects(handler, rs.head, s, end, LoopOver(handler, rs.tail, end.after));
    }
  }

  lemma OnwardEffects(handler: Handler, received: RecvEnd, s: Situation, end: RoundEnd, rest: LoopEnd)
    requires RoundRight(handler, received, s, end)
    requires EffectsRight(handler, end.after, rest)
    ensures EffectsRight(handler, s, Onward(end, rest))
  {
    assert Parts(handler, []) == [] && s.outgoing + [] == s.outgoing;
    if end.round.Took? && Survives(end.round.handled) {
      JoinEffects(handler, s, end.round.handled, end.after, rest);
    } else if end.round.Took? {
      LastEffects(handler, s, end.round.handled, end.after);
    }
  }

  lemma JoinEffects(handler: Handler, s: Situation, h: Handled, m: Situation, rest: LoopEnd)
    requires AnswerCosts(handler, h, s.(kernel := m.kernel), m)
    requires Survives(h) && EffectsRight(handler, m, rest)
    ensures EffectsRight(handler, s, Joined([h], rest))
  {
    WireOfCons(handler, h, rest.trace);
    Joins(s.outgoing, Part(handler, h), WireOf(handler, rest.trace));
    CountsOfCons(handler, s.stats, h, rest.trace);
    JoinSends(handler, s, h, m, rest);
  }

  lemma CountsOfCons(handler: Handler, s: Counters, h: Handled, trace: seq<Handled>)
    ensures CountsOf(s, handler, [h] + trace) == CountsOf(CountHandled(s, handler, h), handler, trace)
  {
    assert ([h] + trace)[0] == h && ([h] + trace)[1..] == trace;
  }

  lemma Joins(a: seq<Byte>, b: seq<Byte>, c: seq<Byte>)
    ensures a + (b + c) == (a + b) + c
  {}

  lemma JoinSends(handler: Handler, s: Situation, h: Handled, m: Situation, rest: LoopEnd)
    requires AnswerCosts(handler, h, s.(kernel := m.kernel), m)
    requires Survives(h) && SendsRight(m, rest)
    ensures SendsRight(s, Joined([h], rest))
  {
    assert ([h] + rest.trace)[1..] == rest.trace;
    SendEndsLater(s.sends, m.sends, rest.after.sends, if rest.exit.ReplyEnded? then rest.exit.io else P.Done);
  }

  lemma LastEffects(handler: Handler, s: Situation, h: Handled, m: Situation)
    requires AnswersRight(handler, h, s.(kernel := m.kernel), m) && !Survives(h)
    ensures EffectsRight(handler, s, LoopEnd(ReplyEnded(h.io), [h], m))
  {
    WireOfCons(handler, h, []);
    assert [h] + [] == [h] && [h][1..] == [] && Part(handler, h) + [] == Part(handler, h);
  }

  // ---------------------------------------------------------------------------------------
  // Why it ends
  // ---------------------------------------------------------------------------------------

  const ROUND_NANOS: int := 100_000_000   // header and payload, 50 ms each

  /** The receive that ended the loop, and what all of them took; an expired interval never ends it. */
  ghost predicate LastCaused(open: bool, k: P.Kernel, rounds: nat, taken: Intake) {
    && (match taken.last
        case None => true
        case Some(Received(_)) => false
        case Some(RecvBlocked) => open && taken.kernel.polls == []
        case Some(RecvFailed(code)) =>
          if code == P.NotConnected then !open && taken.kernel == k
          else
            && open && code != P.Timeout
            && (code == P.InvalidMessage || code == P.ConnectionReset || P.FaultRaises(k.polls, |taken.kernel.polls|, code)))
    && (open ==> P.Later(k.polls, taken.kernel.polls))
    && taken.kernel.pollTime - k.pollTime <= rounds * ROUND_NANOS
  }

  /** One receive of the loop: its interval is 50 ms for each of the two reads. */
  lemma ReceiveCaused(k: P.Kernel)
    ensures var end := RecvRun(k, POLL_MS);
            && P.Later(k.polls, end.kernel.polls)
            && end.kernel.pollTime - k.pollTime <= ROUND_NANOS
            && (end.result == RecvFailed(P.Timeout) ==>
                  || end.kernel.now - k.now > 49_000_000
                  || P.ErrorUsed(k.polls, |end.kernel.polls|) == Some(P.ETIMEDOUT))
            && (end.result.RecvFailed? && end.result.code != P.Timeout ==>
                  && end.result.code != P.NotConnected
                  && (|| end.result.code == P.InvalidMessage || end.result.code == P.ConnectionReset
                      || P.FaultRaises(k.polls, |end.kernel.polls|, end.result.code)))
            && (end.result.RecvBlocked? ==> end.kernel.polls == [])
  {
    RecvRunIsRight(k, POLL_MS);
    LimitIsKept(k, POLL_MS, RecvRun(k, POLL_MS));
  }

  /** Another receive follows exactly after a frame and after an expired interval, while rounds are left. */
  ghost predicate FollowsOn(rs: Receives, rounds: nat) {
    if rounds == 0 then rs.Nil?
    else
      && rs.Cons?
      && match rs.head.result
         case Received(_) => FollowsOn(rs.tail, rounds - 1)
         case RecvFailed(code) => if code == P.Timeout then FollowsOn(rs.tail, rounds - 1) else rs.tail.Nil?
         case RecvBlocked => rs.tail.Nil?
  }

  lemma {:induction false} ArrivalsFollowOn(open: bool, k: P.Kernel, rounds: nat)
    ensures FollowsOn(Arrivals(open, k, rounds), rounds)
    decreases rounds
  {
    if rounds > 0 {
      var end := PipeRun(open, k, POLL_MS);
      if GoesOn(end.result) {
        ArrivalsFollowOn(open, end.kernel, rounds - 1);
      }
    }
  }

  lemma CausedLater(k: P.Kernel, m: P.Kernel, rounds: nat, taken: Intake)
    requires P.Later(k.polls, m.polls) && m.pollTime - k.pollTime <= ROUND_NANOS
    requires LastCaused(true, m, rounds, taken)
    ensures LastCaused(true, k, rounds + 1, taken)
  {
    P.LaterLater(k.polls, m.polls, taken.kernel.polls);
    if |taken.kernel.polls| < |m.polls| {
      P.LaterOne(k.polls, m.polls, |taken.kernel.polls|);
    }
  }

  lemma {:induction false} IntakeIsCaused(open: bool, k: P.Kernel, rounds: nat)
    ensures LastCaused(open, k, rounds, ServeRun(open, k, rounds))
    decreases rounds
  {
    P.OneLater(k.polls);
    if rounds > 0 && open {
      var end := RecvRun(k, POLL_MS);
      ReceiveCaused(k);
      if GoesOn(end.result) {
        IntakeIsCaused(open, end.kernel, rounds - 1);
        CausedLater(k, end.kernel, rounds - 1, ServeRun(open, end.kernel, rounds - 1));
      }
    }
  }

  ghost predicate ServesRight(handler: Handler, open: bool, s: Situation, rounds: nat, end: LoopEnd) {
    && TakesIntake(ServeRun(open, s.kernel, rounds), end) && TraceRight(handler, end) && EffectsRight(handler, s, end)
    && LastCaused(open, s.kernel, rounds, ServeRun(open, s.kernel, rounds))
    && FollowsOn(Arrivals(open, s.kernel, rounds), rounds)
  }

  /** Whatever the stream, the scripts and the handler. */
  lemma LoopIsRight(handler: Handler, open: bool, s: Situation, rounds: nat)
    ensures ServesRight(handler, open, s, rounds, LoopRun(handler, open, s, rounds))
  {
    var rs := Arrivals(open, s.kernel, rounds);
    LoopTakesIntake(handler, rs, s);
    LoopTraceRight(handler, rs, s);
    LoopEffectsRight(handler, rs, s);
    IntakeIsCaused(open, s.kernel, rounds);
    ArrivalsFollowOn(open, s.kernel, rounds);
  }

  lemma LoopUnfolds(handler: Handler, open: bool, s: Situation, left: nat)
    ensures var end := RoundRun(handler, PipeRun(open, s.kernel, POLL_MS), s);
            LoopRun(handler, open, s, left + 1) == Onward(end, LoopRun(handler, open, end.after, left))
  {
    var received := PipeRun(open, s.kernel, POLL_MS);
    var end := RoundRun(handler, received, s);
    RoundIsRight(handler, received, s);
  }

  class RpcPipeServer {
    var stats: Counters
    var isServing: bool

    constructor ()
      ensures stats == ZERO && !isServing
    {
      stats, isServing := ZERO, false;
    }

    ghost function On(pipe: P.PosixPipe): Situation
      reads this, pipe
    {
      Situation(pipe.Reading(), pipe.sends, pipe.outgoing, stats)
    }

    /** The body of the serve loop. */
    method ServeOne(host: Host, pipe: P.PosixPipe, handler: Handler) returns (round: Round)
      modifies this`stats
      modifies pipe`connected, pipe`incoming, pipe`polls, pipe`now, pipe`pollTime, pipe`outgoing, pipe`sends
      ensures RoundEnd(round, On(pipe)) == RoundRun(handler, PipeRun(pipe.open, old(pipe.Reading()), POLL_MS), old(On(pipe)))
    {
      var r := RecvFrame(host, pipe, 50);
      match r
      case RecvBlocked => round := Refused(r);
      case RecvFailed(code) => round := if code == P.Timeout then Idled else Refused(r);
      case Received(f) =>
        if HasFlag(f.flags, FLAG_REQUEST) {
          round := AnswerOne(host, pipe, handler, f);
        } else {
          round := Took(Handled(f, P.Done, 0));
        }
    }

    /** Call the handler and send its answer. */
    method AnswerOne(host: Host, pipe: P.PosixPipe, handler: Handler, f: Frame) returns (round: Round)
      requires pipe.open && IsRequest(f)
      modifies this`stats
      modifies pipe`connected, pipe`outgoing, pipe`sends
      ensures RoundEnd(round, On(pipe)) == AnswerRun(handler, f, old(On(pipe)))
    {
      var result := handler(f.payload);
      var resp: Message := match result case Returned(message) => message case Threw => [];
      var start := pipe.outgoing;   // for the trace only
      var sent := SendFrame(host, pipe, resp, f.messageId, FLAG_RESPONSE);
      var written := |pipe.outgoing| - |start|;
      assert pipe.outgoing == start + Part(handler, Handled(f, sent, written));
      if sent.Done? {
        stats := CountReceive(stats, |f.payload|);
        stats := CountSend(stats, |resp|);
      }
      round := Took(Handled(f, sent, written));
    }

    /**
      serve_loop. The trace, the frames taken and what became of their replies, is what the
      scripts make of it.
    */
    method ServeLoop(host: Host, pipe: P.PosixPipe, handler: Handler, rounds: nat)
      returns (exit: ServeExit, ghost trace: seq<Handled>)
      modifies this
      modifies pipe`connected, pipe`incoming, pipe`polls, pipe`now, pipe`pollTime, pipe`outgoing, pipe`sends
      ensures !isServing
      ensures LoopEnd(exit, trace, On(pipe)) == LoopRun(handler, pipe.open, old(On(pipe)), rounds)
      ensures ServesRight(handler, pipe.open, old(On(pipe)), rounds, LoopEnd(exit, trace, On(pipe)))
    {
      isServing := true;
      LoopIsRight(handler, pipe.open, On(pipe), rounds);
      exit, trace := ServeRounds(host, pipe, handler, rounds);
      isServing := false;
    }

    /** The loop itself. */
    method ServeRounds(host: Host, pipe: P.PosixPipe, handler: Handler, rounds: nat)
      returns (exit: ServeExit, ghost trace: seq<Handled>)
      modifies this`stats
      modifies pipe`connected, pipe`incoming, pipe`polls, pipe`now, pipe`pollTime, pipe`outgoing, pipe`sends
      ensures LoopEnd(exit, trace, On(pipe)) == LoopRun(handler, pipe.open, old(On(pipe)), rounds)
    {
      ghost var whole := LoopRun(handler, pipe.open, On(pipe), rounds);
      trace := [];
      JoinedNothing([], whole);
      var i := 0;
      while i < rounds
        invariant i <= rounds
        invariant whole == Joined(trace, LoopRun(handler, pipe.open, On(pipe), rounds - i))
      {
        ghost var rest := LoopRun(handler, pipe.open, On(pipe), rounds - i);
        LoopUnfolds(handler, pipe.open, On(pipe), rounds - i - 1);
        var round := ServeOne(host, pipe, handler);
        i := i + 1;
        match round
        case Idled =>
        case Refused(result) =>
          JoinedNothing(trace, rest);
          return ReceiveEnded(result), trace;
        case Took(h) =>
          if !Survives(h) {
            JoinedNothing(trace + [h], rest.(trace := []));
            return ReplyEnded(h.io), trace + [h];
          }
          JoinedJoined(trace, [h], LoopRun(handler, pipe.open, On(pipe), rounds - i));
          trace := trace + [h];
      }
      JoinedNothing(trace, LoopEnd(StopSeen, [], On(pipe)));
      exit := StopSeen;
    }
  }
}
