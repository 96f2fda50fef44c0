/**
  Both ends of an RPC connection as they run: what the serving loop writes, byte for byte, is
  what the receiving loop of the client parses and hands to the callers.
*/
module RpcRoundTrip {
  import opened Words
  import opened Frames
  import opened FrameIo
  import opened RpcClient
  import opened RpcServer
  import opened RpcReplies
  import opened RpcIntake

  /** A request with that id whose reply was written whole. */
  predicate Served(h: Handled, id: U32) {
    IsRequest(h.frame) && h.frame.messageId == id && h.io.Done?
  }

  ghost predicate FirstServed(trace: seq<Handled>, id: U32, i: nat) {
    i < |trace| && Served(trace[i], id) && forall j :: 0 <= j < i ==> !Served(trace[j], id)
  }

  lemma {:induction false} FirstAnswerCons(f: Frame, fs: seq<Frame>, id: U32)
    ensures FirstAnswer([f] + fs, id) == if IsAnswer(f) && f.messageId == id then Some(f.payload) else FirstAnswer(fs, id)
    decreases |fs|
  {
    var all := [f] + fs;
    if fs == [] {
      assert all[..0] == [];
    } else {
      assert all[..|all| - 1] == [f] + fs[..|fs| - 1] && all[|all| - 1] == fs[|fs| - 1];
      FirstAnswerCons(f, fs[..|fs| - 1], id);
    }
  }

  lemma ReplyAnswers(handler: Handler, f: Frame)
    requires f.messageId != NO_MESSAGE_ID
    ensures var reply := Reply(handler, f);
            && IsAnswer(reply) && reply.messageId == f.messageId
            && reply.payload == Answer(handler(f.payload))
  {}

  lemma UnservedFirst(handler: Handler, trace: seq<Handled>, id: U32)
    requires trace != [] && !Served(trace[0], id)
    ensures FirstAnswer(WholeReplies(handler, trace), id) == FirstAnswer(WholeReplies(handler, trace[1..]), id)
  {
    var h, later := trace[0], WholeReplies(handler, trace[1..]);
    if IsRequest(h.frame) && h.io.Done? {
      FirstAnswerCons(Reply(handler, h.frame), later, id);
    } else {
      assert [] + later == later;
    }
  }

  /** The first whole reply to an id is the handler's answer to the first request served under it. */
  lemma {:induction false} ServedAnswer(handler: Handler, trace: seq<Handled>, id: U32, i: nat)
    requires FirstServed(trace, id, i) && id != NO_MESSAGE_ID
    ensures FirstAnswer(WholeReplies(handler, trace), id) ==
            Some(Answer(handler(trace[i].frame.payload)))
    decreases i
  {
    if i == 0 {
      var f := trace[0].frame;
      FirstAnswerCons(Reply(handler, f), WholeReplies(handler, trace[1..]), id);
      ReplyAnswers(handler, f);
    } else {
      assert !Served(trace[0], id);
      UnservedFirst(handler, trace, id);
      assert forall j :: 0 <= j < i - 1 ==> trace[1..][j] == trace[j + 1];
      ServedAnswer(handler, trace[1..], id, i - 1);
    }
  }

  lemma {:induction false} NoneServed(handler: Handler, trace: seq<Handled>, id: U32)
    requires forall i :: 0 <= i < |trace| ==> !Served(trace[i], id)
    ensures FirstAnswer(WholeReplies(handler, trace), id) == None
    decreases |trace|
  {
    if trace != [] {
      UnservedFirst(handler, trace, id);
      NoneServed(handler, trace[1..], id);
    }
  }

  /** What the loop has written. */
  function Written(s: Situation, end: LoopEnd): seq<Byte> {
    if |s.outgoing| <= |end.after.outgoing| then end.after.outgoing[|s.outgoing|..] else []
  }

  lemma WrittenParses(handler: Handler, open: bool, s: Situation, rounds: nat)
    requires Tidy(handler, LoopRun(handler, open, s, rounds).trace)
    ensures var end := LoopRun(handler, open, s, rounds);
            ParseAll(Written(s, end)) == WholeReplies(handler, end.trace)
  {
    var end := LoopRun(handler, open, s, rounds);
    LoopIsRight(handler, open, s, rounds);
    TidyParses(handler, end.trace);
    assert (s.outgoing + WireOf(handler, end.trace))[|s.outgoing|..] == WireOf(handler, end.trace);
  }

  /** What the handler returned for the request, or an empty message if it threw. */
  ghost predicate HasAnswer(handler: Handler, request: Message, p: Promise) {
    match handler(request)
    case Returned(m) => p == Answered(m)
    case Threw => p == Answered([])
  }

  /**
    A serving loop writes to a client that is waiting under an id, and the receiving loop of
    the client ends in c'. The caller has the handler's answer to the first request served
    under its id; if none was, it has the error that ended the receiving loop, or none yet.
  */
  lemma CallerIsAnswered(handler: Handler, open: bool, s: Situation, rounds: nat,
                         c: Shared, c': Shared, exit: LoopExit, id: U32)
    requires id in c.pending && id != NO_MESSAGE_ID
    requires var end := LoopRun(handler, open, s, rounds);
             Tidy(handler, end.trace) && LeavesClient(c, c', ParseAll(Written(s, end)), exit)
    ensures var trace, t := LoopRun(handler, open, s, rounds).trace, c.pending[id];
            && t in c'.promises
            && (forall i: nat :: FirstServed(trace, id, i) ==> HasAnswer(handler, trace[i].frame.payload, c'.promises[t]))
            && ((forall i :: 0 <= i < |trace| ==> !Served(trace[i], id)) ==>
                  c'.promises[t] == if exit.LoopRaised? then Disconnected(exit.error) else Unset)
  {
    var trace := LoopRun(handler, open, s, rounds).trace;
    WrittenParses(handler, open, s, rounds);
    assert Settles(c, c', WholeReplies(handler, trace), exit, id);
    forall i: nat | FirstServed(trace, id, i)
      ensures FirstAnswer(WholeReplies(handler, trace), id) == Some(Answer(handler(trace[i].frame.payload)))
    {
      ServedAnswer(handler, trace, id, i);
    }
    if forall i :: 0 <= i < |trace| ==> !Served(trace[i], id) {
      NoneServed(handler, trace, id);
    }
  }

  /** The frames handled are the first ones of the stream, as long as no interval loses part of one. */
  lemma HandlesStream(handler: Handler, s: Situation, rounds: nat, i: nat)
    requires KeepsFrames(s.kernel, rounds) && i < |LoopRun(handler, true, s, rounds).trace|
    ensures i < |ParseAll(s.kernel.incoming)|
    ensures LoopRun(handler, true, s, rounds).trace[i].frame == ParseAll(s.kernel.incoming)[i]
  {
    LoopIsRight(handler, true, s, rounds);
    IntakeIsStream(s.kernel, rounds);
    assert FramesOf(LoopRun(handler, true, s, rounds).trace)[i] == ServeRun(true, s.kernel, rounds).frames[i];
  }

  lemma FirstOfItsId(handler: Handler, s: Situation, rounds: nat, n: nat)
    requires KeepsFrames(s.kernel, rounds)
    requires n < |LoopRun(handler, true, s, rounds).trace| && LoopRun(handler, true, s, rounds).trace[n].io.Done?
    requires var fs := ParseAll(s.kernel.incoming);
             (n < |fs| ==> IsRequest(fs[n])) && DifferentIds(fs)
    ensures var trace, fs := LoopRun(handler, true, s, rounds).trace, ParseAll(s.kernel.incoming);
            n < |fs| && trace[n].frame == fs[n] && FirstServed(trace, fs[n].messageId, n)
  {
    var trace, fs := LoopRun(handler, true, s, rounds).trace, ParseAll(s.kernel.incoming);
    HandlesStream(handler, s, rounds, n);
    forall j | 0 <= j < n ensures !Served(trace[j], fs[n].messageId) {
      HandlesStream(handler, s, rounds, j);
    }
  }

  /** Both loops have run, the client's over what the server's wrote, and no part of a frame was lost on the way. */
  ghost predicate BothRan(handler: Handler, s: Situation, rounds: nat, c: Shared, c': Shared, exit: LoopExit) {
    var end := LoopRun(handler, true, s, rounds);
    && KeepsFrames(s.kernel, rounds) && Tidy(handler, end.trace)
    && LeavesClient(c, c', ParseAll(Written(s, end)), exit)
  }

  ghost predicate DifferentIds(fs: seq<Frame>) {
    forall i, j :: 0 <= i < j < |fs| ==> fs[i].messageId != fs[j].messageId
  }

  /** A frame that was answered with a whole reply. */
  ghost predicate Replied(handler: Handler, s: Situation, rounds: nat, n: nat) {
    var trace := LoopRun(handler, true, s, rounds).trace;
    n < |trace| && trace[n].io.Done?
  }

  /**
    The whole way: requests with different ids arrive, see Frames.ParseEncodeAll for the frames
    that a client wrote, the serving loop answers them, and the client's receiving loop hands
    out the replies. Whoever waits under the id of a request that was answered has what the
    handler makes of that very request.
  */
  lemma RequestComesBack(handler: Handler, s: Situation, rounds: nat, c: Shared, c': Shared, exit: LoopExit, n: nat)
    requires BothRan(handler, s, rounds, c, c', exit) && Replied(handler, s, rounds, n)
    requires var fs := ParseAll(s.kernel.incoming);
             DifferentIds(fs) && n < |fs| && IsRequest(fs[n]) && fs[n].messageId in c.pending && fs[n].messageId != NO_MESSAGE_ID
    ensures var f := ParseAll(s.kernel.incoming)[n];
            c.pending[f.messageId] in c'.promises && HasAnswer(handler, f.payload, c'.promises[c.pending[f.messageId]])
  {
    FirstOfItsId(handler, s, rounds, n);
    CallerIsAnswered(handler, true, s, rounds, c, c', exit, ParseAll(s.kernel.incoming)[n].messageId);
  }
}
