/** When each request gets one whole reply, and what a send that times out does to that. */
module RpcReplies {
  import opened Words
  import opened Frames
  import opened FrameIo
  import opened PipeStats
  import opened RpcServer
  import opened Sums
  import P = PosixPipe

  ghost predicate AllRight(handler: Handler, trace: seq<Handled>) {
    forall i :: 0 <= i < |trace| ==> HandledRight(handler, trace[i]) && Survives(trace[i])
  }

  lemma FramesOfTail(trace: seq<Handled>)
    requires trace != []
    ensures FramesOf(trace)[0] == trace[0].frame && FramesOf(trace)[1..] == FramesOf(trace[1..])
  {}

  lemma EncodeAllCons(f: Frame, fs: seq<Frame>)
    requires Encodable(f) && AllEncodable(fs)
    ensures AllEncodable([f] + fs) && EncodeAll([f] + fs) == Encode(f) + EncodeAll(fs)
  {
    var all := [f] + fs;
    EncodeAllSplit(all, []);
    assert all[1..] == fs && EncodeAll(fs) + [] == EncodeAll(fs) && EncodeAll(all) + [] == EncodeAll(all);
  }

  /** One reply more in front. */
  lemma RepliesCons(handler: Handler, trace: seq<Handled>)
    requires trace != [] && AllRight(handler, trace) && AllEncodable(Replies(handler, FramesOf(trace[1..])))
    ensures var h, fs := trace[0], FramesOf(trace);
            && AllEncodable(Replies(handler, fs))
            && EncodeAll(Replies(handler, fs)) ==
               (if IsRequest(h.frame) then Encode(Reply(handler, h.frame)) else [])
               + EncodeAll(Replies(handler, FramesOf(trace[1..])))
  {
    var h, later := trace[0], Replies(handler, FramesOf(trace[1..]));
    FramesOfTail(trace);
    if IsRequest(h.frame) {
      EncodeAllCons(Reply(handler, h.frame), later);
    } else {
      assert [] + later == later && [] + EncodeAll(later) == EncodeAll(later);
    }
  }

  lemma Uncons(handler: Handler, trace: seq<Handled>)
    requires trace != []
    ensures WireOf(handler, trace) == Part(handler, trace[0]) + WireOf(handler, trace[1..])
  {
    assert [trace[0]] + trace[1..] == trace;
    WireOfCons(handler, trace[0], trace[1..]);
  }

  // ---------------------------------------------------------------------------------------
  // What the client makes of it
  // ---------------------------------------------------------------------------------------

  /** The replies that were written whole. */
  function WholeReplies(handler: Handler, trace: seq<Handled>): seq<Frame> {
    if trace == [] then []
    else
      (if IsRequest(trace[0].frame) && trace[0].io.Done? then [Reply(handler, trace[0].frame)] else [])
      + WholeReplies(handler, trace[1..])
  }

  /** A torn reply left nothing on the wire. */
  ghost predicate Clean(handler: Handler, h: Handled) {
    HandledRight(handler, h) && (h.io.Done? || h.written == 0)
  }

  lemma CleanPart(handler: Handler, h: Handled)
    requires Clean(handler, h)
    ensures var reply := Reply(handler, h.frame);
            if IsRequest(h.frame) && h.io.Done? then Encodable(reply) && Part(handler, h) == Encode(reply)
            else Part(handler, h) == []
  {}

  lemma {:induction false} CleanWire(handler: Handler, trace: seq<Handled>)
    requires forall i :: 0 <= i < |trace| ==> Clean(handler, trace[i])
    ensures AllEncodable(WholeReplies(handler, trace))
    ensures WireOf(handler, trace) == EncodeAll(WholeReplies(handler, trace))
    decreases |trace|
  {
    if trace == [] {
      assert EncodeAll([]) == [];
    } else {
      var h, later := trace[0], WholeReplies(handler, trace[1..]);
      CleanWire(handler, trace[1..]);
      CleanPart(handler, h);
      Uncons(handler, trace);
      if IsRequest(h.frame) && h.io.Done? {
        EncodeAllCons(Reply(handler, h.frame), later);
      } else {
        assert [] + later == later && [] + EncodeAll(later) == EncodeAll(later);
      }
    }
  }

  /** If torn replies left nothing, the client parses exactly the whole ones. */
  lemma CleanTearsParse(handler: Handler, trace: seq<Handled>)
    requires forall i :: 0 <= i < |trace| ==> Clean(handler, trace[i])
    ensures ParseAll(WireOf(handler, trace)) == WholeReplies(handler, trace)
  {
    CleanWire(handler, trace);
    ParseEncodeAll(WholeReplies(handler, trace), []);
    assert EncodeAll(WholeReplies(handler, trace)) + [] == WireOf(handler, trace);
  }

  /** Only the last reply left part of itself on the wire, if any did. */
  ghost predicate Tidy(handler: Handler, trace: seq<Handled>) {
    && (forall i :: 0 <= i < |trace| ==> HandledRight(handler, trace[i]))
    && (forall i :: 0 <= i < |trace| - 1 ==> Clean(handler, trace[i]))
  }

  lemma {:induction false} WholeRepliesSnoc(handler: Handler, trace: seq<Handled>, h: Handled)
    requires !h.io.Done?
    ensures WholeReplies(handler, trace + [h]) == WholeReplies(handler, trace)
    decreases |trace|
  {
    if trace == [] {
      assert [] + [h] == [h] && [h][1..] == [];
    } else {
      assert (trace + [h])[0] == trace[0] && (trace + [h])[1..] == trace[1..] + [h];
      WholeRepliesSnoc(handler, trace[1..], h);
    }
  }

  /** What an unfinished reply leaves decides nothing. */
  lemma PartDecidesNothing(handler: Handler, h: Handled)
    requires HandledRight(handler, h) && !h.io.Done?
    ensures !Decode(Part(handler, h)).Got?
  {
    var reply := Reply(handler, h.frame);
    if Encodable(reply) {
      DecodePartial(reply, h.written);
    }
  }

  /** Then the client parses exactly the replies that were written whole, in order. */
  lemma TidyParses(handler: Handler, trace: seq<Handled>)
    requires Tidy(handler, trace)
    ensures ParseAll(WireOf(handler, trace)) == WholeReplies(handler, trace)
  {
    if trace == [] || trace[|trace| - 1].io.Done? {
      CleanTearsParse(handler, trace);
    } else {
      var n := |trace| - 1;
      var init, h := trace[..n], trace[n];
      assert trace == init + [h];
      CleanWire(handler, init);
      WireOfSnoc(handler, init, h);
      WholeRepliesSnoc(handler, init, h);
      PartDecidesNothing(handler, h);
      ParseEncodeAll(WholeReplies(handler, init), Part(handler, h));
    }
  }

  // ---------------------------------------------------------------------------------------
  // One reply per request
  // ---------------------------------------------------------------------------------------

  /** As long as no send times out, the whole replies are the replies to all requests. */
  lemma {:induction false} NoneTornAllWhole(handler: Handler, s: Counters, trace: seq<Handled>)
    requires AllRight(handler, trace) && Torn(trace) == 0
    ensures WholeReplies(handler, trace) == Replies(handler, FramesOf(trace))
    ensures CountsOf(s, handler, trace) == CountReplies(s, handler, FramesOf(trace))
    ensures forall i :: 0 <= i < |trace| ==> trace[i].io.Done?
    decreases |trace|
  {
    if trace != [] {
      NoneTornAllWhole(handler, CountHandled(s, handler, trace[0]), trace[1..]);
      FramesOfTail(trace);
      assert HandledRight(handler, trace[0]) && Survives(trace[0]);
      forall i | 0 <= i < |trace| ensures trace[i].io.Done? {
        assert i > 0 ==> trace[i] == trace[1..][i - 1];
      }
    }
  }

  lemma WholeTrace(handler: Handler, s: Counters, trace: seq<Handled>)
    requires AllRight(handler, trace) && Torn(trace) == 0
    ensures var fs := FramesOf(trace);
            && AllEncodable(Replies(handler, fs))
            && WireOf(handler, trace) == EncodeAll(Replies(handler, fs))
            && CountsOf(s, handler, trace) == CountReplies(s, handler, fs)
  {
    NoneTornAllWhole(handler, s, trace);
    forall i | 0 <= i < |trace| ensures Clean(handler, trace[i]) {
      assert HandledRight(handler, trace[i]);
    }
    CleanWire(handler, trace);
  }

  /** A torn reply is missed on the wire. */
  lemma {:induction false} TornIsShorter(handler: Handler, trace: seq<Handled>)
    requires AllRight(handler, trace)
    ensures var fs := FramesOf(trace);
            && AllEncodable(Replies(handler, fs))
            && |WireOf(handler, trace)| <= |EncodeAll(Replies(handler, fs))|
            && (Torn(trace) > 0 ==> |WireOf(handler, trace)| < |EncodeAll(Replies(handler, fs))|)
    decreases |trace|
  {
    if trace != [] {
      TornIsShorter(handler, trace[1..]);
      RepliesCons(handler, trace);
      Uncons(handler, trace);
      assert HandledRight(handler, trace[0]);
    }
  }

  lemma WireOfSnoc(handler: Handler, trace: seq<Handled>, h: Handled)
    ensures WireOf(handler, trace + [h]) == WireOf(handler, trace) + Part(handler, h)
  {
    FlattenAppend(Parts(handler, trace), Part(handler, h));
    assert Parts(handler, trace + [h]) == Parts(handler, trace) + [Part(handler, h)];
  }

  lemma {:induction false} CountsOfSnoc(handler: Handler, s: Counters, trace: seq<Handled>, h: Handled)
    ensures CountsOf(s, handler, trace + [h]) == CountHandled(CountsOf(s, handler, trace), handler, h)
    ensures Torn(trace + [h]) == Torn(trace) + Torn([h])
    decreases |trace|
  {
    if trace == [] {
      assert [] + [h] == [h] && [h][1..] == [];
    } else {
      CountsOfSnoc(handler, CountHandled(s, handler, trace[0]), trace[1..], h);
      assert (trace + [h])[1..] == trace[1..] + [h];
    }
  }

  /** What a handled frame adds to a counter: both messages of an answered request, once the reply is written. */
  function Amount(handler: Handler, h: Handled, f: Field): (n: int)
    ensures n >= 0
  {
    if !IsRequest(h.frame) || !h.io.Done? then 0
    else
      match f
      case MessagesReceived => 1
      case BytesReceived => |h.frame.payload|
      case MessagesSent => 1
      case BytesSent => (match handler(h.frame.payload) case Returned(m) => |m| case Threw => 0)
      case _ => 0
  }

  function Amounts(handler: Handler, trace: seq<Handled>, f: Field): (w: seq<int>)
    ensures |w| == |trace| && forall i :: 0 <= i < |trace| ==> w[i] == Amount(handler, trace[i], f)
  {
    seq(|trace|, i requires 0 <= i < |trace| => Amount(handler, trace[i], f))
  }

  lemma HandledAdds(s: Counters, handler: Handler, h: Handled, f: Field)
    ensures Get(CountHandled(s, handler, h), f) == WrapAdd(Get(s, f), Amount(handler, h, f))
    ensures CountHandled(s, handler, h).rttLastNs == s.rttLastNs
  {}

  lemma FirstAdds(before: U64, first: U64, after: Counters, handler: Handler, trace: seq<Handled>, f: Field)
    requires trace != [] && first == WrapAdd(before, Amount(handler, trace[0], f))
    requires Get(after, f) == (first + Sum(Amounts(handler, trace[1..], f))) % TWO_64
    ensures Get(after, f) == (before + Sum(Amounts(handler, trace, f))) % TWO_64
  {
    assert Amounts(handler, trace, f)[1..] == Amounts(handler, trace[1..], f);
    WrapAddFurther(before, Amount(handler, trace[0], f), Sum(Amounts(handler, trace[1..], f)));
  }

  lemma {:induction false} TraceAdds(s: Counters, handler: Handler, trace: seq<Handled>, f: Field)
    ensures Get(CountsOf(s, handler, trace), f) == (Get(s, f) + Sum(Amounts(handler, trace, f))) % TWO_64
    ensures CountsOf(s, handler, trace).rttLastNs == s.rttLastNs
    decreases |trace|
  {
    if trace == [] {
      SumOfZeros(Amounts(handler, trace, f));
    } else {
      var s1 := CountHandled(s, handler, trace[0]);
      HandledAdds(s, handler, trace[0], f);
      TraceAdds(s1, handler, trace[1..], f);
      FirstAdds(Get(s, f), Get(s1, f), CountsOf(s1, handler, trace[1..]), handler, trace, f);
    }
  }

  /** The loop has counted exactly the requests whose replies were written. */
  lemma CountersAddUp(handler: Handler, open: bool, s: Situation, rounds: nat, f: Field)
    ensures var end := LoopRun(handler, open, s, rounds);
            && Get(end.after.stats, f) == (Get(s.stats, f) + Sum(Amounts(handler, end.trace, f))) % TWO_64
            && end.after.stats.rttLastNs == s.stats.rttLastNs
  {
    TraceAdds(s.stats, handler, LoopRun(handler, open, s, rounds).trace, f);
    LoopCounts(handler, open, s, rounds);
  }

  lemma LoopCounts(handler: Handler, open: bool, s: Situation, rounds: nat)
    ensures var end := LoopRun(handler, open, s, rounds); end.after.stats == CountsOf(s.stats, handler, end.trace)
  {
    LoopIsRight(handler, open, s, rounds);
  }

  lemma {:induction false} UntornEntries(trace: seq<Handled>)
    requires Torn(trace) == 0
    ensures forall i :: 0 <= i < |trace| ==> trace[i].io != P.Failed(P.Timeout)
    decreases |trace|
  {
    if trace != [] {
      UntornEntries(trace[1..]);
      assert forall i :: 0 < i < |trace| ==> trace[i] == trace[1..][i - 1];
    }
  }

  /** Unless a send has timed out, nothing follows a reply that was cut short. */
  lemma UntornIsTidy(handler: Handler, open: bool, s: Situation, rounds: nat)
    requires P.Lapses(LoopRun(handler, open, s, rounds).after.sends) == P.Lapses(s.sends)
    ensures Tidy(handler, LoopRun(handler, open, s, rounds).trace)
  {
    var end := LoopRun(handler, open, s, rounds);
    LoopIsRight(handler, open, s, rounds);
    UntornEntries(end.trace);
    forall i | 0 <= i < |end.trace|
      ensures HandledRight(handler, end.trace[i]) && (i < |end.trace| - 1 ==> end.trace[i].io.Done?)
    {
      assert EntryRight(handler, end.trace[i], end.exit.ReplyEnded? && i == |end.trace| - 1);
    }
  }

  /**
    A loop that no reply ended has put one whole reply per request on the wire, and counted
    them, exactly if no send has timed out.
  */
  lemma OneReplyEach(handler: Handler, open: bool, s: Situation, rounds: nat)
    requires !LoopRun(handler, open, s, rounds).exit.ReplyEnded?
    ensures var end := LoopRun(handler, open, s, rounds);
            var fs := FramesOf(end.trace);
            && AllEncodable(Replies(handler, fs))
            && (P.Lapses(end.after.sends) == P.Lapses(s.sends) <==>
                  && end.after.outgoing == s.outgoing + EncodeAll(Replies(handler, fs))
                  && end.after.stats == CountReplies(s.stats, handler, fs))
  {
    var end := LoopRun(handler, open, s, rounds);
    LoopIsRight(handler, open, s, rounds);
    assert AllRight(handler, end.trace) by {
      forall i | 0 <= i < |end.trace| ensures HandledRight(handler, end.trace[i]) && Survives(end.trace[i]) {
        assert EntryRight(handler, end.trace[i], false);
      }
    }
    TornIsShorter(handler, end.trace);
    if Torn(end.trace) == 0 {
      WholeTrace(handler, s.stats, end.trace);
    }
  }

  /** The last reply ended the loop: a proper prefix of it, or nothing if it is too large, follows the earlier ones. */
  ghost predicate CutShort(handler: Handler, s: Situation, end: LoopEnd) {
    && end.trace != []
    && var n := |end.trace| - 1;
       var h, fs := end.trace[n], FramesOf(end.trace[..n]);
       var reply := Reply(handler, h.frame);
    && IsRequest(h.frame) && AllEncodable(Replies(handler, fs))
    && end.after.outgoing == s.outgoing + (EncodeAll(Replies(handler, fs)) + Part(handler, h))
    && (if Encodable(reply) then Part(handler, h) < Encode(reply) else Part(handler, h) == [])
    && end.after.stats == CountReplies(s.stats, handler, fs)
  }

  lemma LastPart(handler: Handler, h: Handled)
    requires HandledRight(handler, h) && !h.io.Done?
    ensures IsRequest(h.frame) && CountHandled(ZERO, handler, h) == ZERO
    ensures var reply := Reply(handler, h.frame);
            if Encodable(reply) then Part(handler, h) < Encode(reply) else Part(handler, h) == []
  {}

  lemma EndIsCutShort(handler: Handler, s: Situation, end: LoopEnd)
    requires TraceRight(handler, end) && EffectsRight(handler, s, end)
    requires end.exit.ReplyEnded? && P.Lapses(end.after.sends) == P.Lapses(s.sends)
    ensures CutShort(handler, s, end)
  {
    var n := |end.trace| - 1;
    var init, h := end.trace[..n], end.trace[n];
    assert end.trace == init + [h];
    LastPart(handler, h);
    WireOfSnoc(handler, init, h);
    CountsOfSnoc(handler, s.stats, init, h);
    assert AllRight(handler, init) by {
      forall i | 0 <= i < |init| ensures HandledRight(handler, init[i]) && Survives(init[i]) {
        assert EntryRight(handler, end.trace[i], false);
      }
    }
    WholeTrace(handler, s.stats, init);
  }

  lemma LastReply(handler: Handler, open: bool, s: Situation, rounds: nat)
    requires LoopRun(handler, open, s, rounds).exit.ReplyEnded?
    requires P.Lapses(LoopRun(handler, open, s, rounds).after.sends) == P.Lapses(s.sends)
    ensures CutShort(handler, s, LoopRun(handler, open, s, rounds))
  {
    LoopIsRight(handler, open, s, rounds);
    EndIsCutShort(handler, s, LoopRun(handler, open, s, rounds));
  }

  // ---------------------------------------------------------------------------------------
  // Which scripts keep replies whole
  // ---------------------------------------------------------------------------------------

  /** The first error that the script reports, other than an interruption, is a timeout. */
  predicate LapseFirst(sends: seq<P.SendAnswer>) {
    && sends != []
    && match sends[0]
       case Accepts(_) => LapseFirst(sends[1..])
       case SendFails(e) => e == P.ETIMEDOUT || (e == P.EINTR && LapseFirst(sends[1..]))
  }

  /** The script's first error stays its first until it is reported. */
  lemma {:induction false} WriteMeetsLapse(size: nat, sends: seq<P.SendAnswer>)
    ensures var end := P.WriteRun(size, sends);
            && |end.sends| <= |sends|
            && (end.io.Done? ==> (LapseFirst(end.sends) <==> LapseFirst(sends)))
            && (end.io.Done? && size > 0 ==> |end.sends| < |sends|)
            && (end.io == P.Failed(P.Timeout) ==> LapseFirst(sends))
            && (LapseFirst(sends) ==> end.io.Done? || end.io == P.Failed(P.Timeout))
    decreases |sends|
  {
    if size > 0 && sends != [] {
      match sends[0]
      case SendFails(e) =>
        if e == P.EINTR {
          WriteMeetsLapse(size, sends[1..]);
        }
      case Accepts(n) => WriteMeetsLapse(size - Min(n, size), sends[1..]);
    }
  }

  lemma SendMeetsLapse(size: nat, sends: seq<P.SendAnswer>)
    requires size < TWO_32
    ensures var end := SendRun(size, sends);
            && (end.io.Done? ==> |end.sends| < |sends| && (LapseFirst(end.sends) <==> LapseFirst(sends)))
            && (end.io == P.Failed(P.Timeout) ==> LapseFirst(sends))
            && (LapseFirst(sends) ==> end.io.Done? || end.io == P.Failed(P.Timeout))
  {
    WriteMeetsLapse(HEADER_SIZE, sends);
    WriteMeetsLapse(size, P.WriteRun(HEADER_SIZE, sends).sends);
  }

  lemma RoundWithoutLapse(handler: Handler, received: RecvEnd, s: Situation)
    requires !LapseFirst(s.sends)
    ensures var end := RoundRun(handler, received, s);
            && (end.round.Took? ==> end.round.handled.io != P.Failed(P.Timeout))
            && (end.round.Took? && Survives(end.round.handled) ==> !LapseFirst(end.after.sends))
            && (!end.round.Took? ==> end.after.sends == s.sends)
  {
    if received.result.Received? && Encodable(Reply(handler, received.result.frame)) {
      SendMeetsLapse(|Reply(handler, received.result.frame).payload|, s.sends);
    }
  }

  lemma {:induction false} NoneTorn(handler: Handler, rs: Receives, s: Situation)
    requires !LapseFirst(s.sends)
    ensures Torn(LoopOver(handler, rs, s).trace) == 0
  {
    if rs.Cons? {
      var end := RoundRun(handler, rs.head, s);
      RoundWithoutLapse(handler, rs.head, s);
      if end.round.Idled? {
        NoneTorn(handler, rs.tail, end.after);
      } else if end.round.Took? && Survives(end.round.handled) {
        NoneTorn(handler, rs.tail, end.after);
        var rest := LoopOver(handler, rs.tail, end.after).trace;
        assert ([end.round.handled] + rest)[1..] == rest;
      }
    }
  }

  /** A peer that sends the same request n times, each of them at once. */
  function Requests(f: Frame, n: nat): P.Kernel
    requires Encodable(f)
  {
    if n == 0 then P.Kernel([], [], 0, 0)
    else P.Kernel(Encode(f) + Requests(f, n - 1).incoming, AtOnce(f) + Requests(f, n - 1).polls, 0, 0)
  }

  ghost predicate AllReceive(rs: Receives, f: Frame) {
    rs.Cons? ==> rs.head.result == Received(f) && AllReceive(rs.tail, f)
  }

  lemma OneArrives(k: P.Kernel, n: nat, end: RecvEnd)
    requires RecvRun(k, POLL_MS) == end && GoesOn(end.result)
    ensures Arrivals(true, k, n + 1) == Cons(end, Arrivals(true, end.kernel, n))
  {}

  lemma {:induction false} RequestsArrive(f: Frame, n: nat) returns (rs: Receives)
    requires Encodable(f)
    ensures rs == Arrivals(true, Requests(f, n), n) && Length(rs) == n && AllReceive(rs, f)
    decreases n
  {
    if n == 0 {
      rs := Nil;
    } else {
      var later := Requests(f, n - 1);
      FrameArrives(f, later.incoming, later.polls, 0, 0, POLL_MS);
      OneArrives(Requests(f, n), n - 1, RecvEnd(Received(f), later));
      rs := RequestsArrive(f, n - 1);
      rs := Cons(RecvEnd(Received(f), later), rs);
    }
  }

  lemma {:induction false} LapseReached(handler: Handler, f: Frame, rs: Receives, s: Situation)
    requires IsRequest(f) && Encodable(Reply(handler, f))
    requires AllReceive(rs, f)
    requires LapseFirst(s.sends) && |s.sends| <= Length(rs)
    ensures Torn(LoopOver(handler, rs, s).trace) > 0
  {
    var end := RoundRun(handler, rs.head, s);
    SendMeetsLapse(|Reply(handler, f).payload|, s.sends);
    var h := end.round.handled;
    if h.io.Done? {
      LapseReached(handler, f, rs.tail, end.after);
    }
    var rest := LoopOver(handler, rs.tail, end.after).trace;
    assert ([h] + rest)[1..] == rest;
  }

  /** No stream and no number of rounds makes the loop tear a reply. */
  ghost predicate KeepsReplies(handler: Handler, sends: seq<P.SendAnswer>) {
    forall k, out, c, rounds :: Torn(LoopRun(handler, true, Situation(k, sends, out, c), rounds).trace) == 0
  }

  /**
    A script keeps every reply whole or final, on all streams, exactly if its first error is
    not a timeout. Any handler will do that has an answer to some request that fits a frame.
  */
  lemma KeepsRepliesIff(handler: Handler, f: Frame, sends: seq<P.SendAnswer>)
    requires IsRequest(f) && Encodable(f) && Encodable(Reply(handler, f))
    ensures KeepsReplies(handler, sends) <==> !LapseFirst(sends)
  {
    if LapseFirst(sends) {
      var s := Situation(Requests(f, |sends|), sends, [], ZERO);
      var rs := RequestsArrive(f, |sends|);
      LapseReached(handler, f, rs, s);
      assert Torn(LoopRun(handler, true, Situation(s.kernel, sends, [], ZERO), |sends|).trace) > 0;
    } else {
      forall k, out, c, rounds
        ensures Torn(LoopRun(handler, true, Situation(k, sends, out, c), rounds).trace) == 0
      {
        NoneTorn(handler, Arrivals(true, k, rounds), Situation(k, sends, out, c));
      }
    }
  }
}
