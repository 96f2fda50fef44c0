/**
  What a receive has seen does not depend on what comes later: as long as more bytes follow,
  another future of stream and script leads through the same turns at the same times.
*/
module Replay {
  import opened Words
  import opened Frames
  import opened FrameIo
  import opened PosixPipe

  /**
    The script `after` is what is left of `before`, and `start` is the script that has the same
    answers up to there and then q. Only the delay in front of q is that of the original.
  */
  ghost predicate Leads(start: seq<Poll>, before: seq<Poll>, after: seq<Poll>, q: seq<Poll>) {
    && |after| <= |before|
    && var used := |before| - |after|;
    && Soon(after) == Soon(before[used..])
    && q != [] && |start| == used + |q| && start[..used] == before[..used]
    && Soon(start[used..]) == Soon(q) && Delay(start[used..]) == Delay(before[used..])
  }

  lemma SoonAt(s: seq<Poll>, t: seq<Poll>)
    requires Soon(s) == Soon(t)
    ensures |s| == |t|
    ensures forall i :: 0 < i < |s| ==> s[i] == t[i]
    ensures Delay(s) == Delay(t) ==> s == t
    ensures forall n :: 0 < n <= |s| ==> s[n..] == t[n..]
  {
    assert |Soon(s)| == |s| && |Soon(t)| == |t|;
    forall i | 0 < i < |s| ensures s[i] == t[i] {
      assert s[i] == Soon(s)[i] && t[i] == Soon(t)[i];
    }
    if s != [] && Delay(s) == Delay(t) {
      assert Soon(s)[0] == Soon(t)[0];
      assert s[0] == t[0];
    }
  }

  lemma Deeper(s: seq<Poll>, i: nat, j: nat)
    requires i + j <= |s|
    ensures s[i..][j..] == s[i + j..]
  {}

  /** Two scripts that differ at most in their first delay are the same further on. */
  lemma SoonDeeper(s: seq<Poll>, t: seq<Poll>, n: nat)
    requires Soon(s) == Soon(t) && n <= |s|
    ensures |s| == |t| && Soon(s[n..]) == Soon(t[n..])
    ensures n > 0 || Delay(s) == Delay(t) ==> Delay(s[n..]) == Delay(t[n..])
  {
    SoonAt(s, t);
    assert s[0..] == s && t[0..] == t;
  }

  lemma LeadsOnStart(start: seq<Poll>, a: seq<Poll>, b: seq<Poll>, m: seq<Poll>, c: seq<Poll>, q: seq<Poll>)
    requires Leads(start, a, b, m) && Leads(m, b, c, q)
    ensures start[..|a| - |c|] == a[..|a| - |c|]
  {
    var u1 := |a| - |b|;
    forall i | 0 <= i < |a| - |c| ensures start[i] == a[i] {
      if i < u1 {
        assert start[i] == start[..u1][i];
      } else {
        LeadsAt(start, a, b, m, c, q, i - u1);
      }
    }
  }

  lemma LeadsOn(start: seq<Poll>, a: seq<Poll>, b: seq<Poll>, m: seq<Poll>, c: seq<Poll>, q: seq<Poll>)
    requires Leads(start, a, b, m) && Leads(m, b, c, q)
    ensures Leads(start, a, c, q)
  {
    var u1, u2 := |a| - |b|, |b| - |c|;
    LeadsOnStart(start, a, b, m, c, q);
    Deeper(a, u1, u2);
    Deeper(start, u1, u2);
    SoonDeeper(b, a[u1..], u2);
    SoonDeeper(start[u1..], m, u2);
    assert u2 == 0 ==> a[u1..][0..] == a[u1..] && start[u1..][0..] == start[u1..];
  }

  lemma LeadsAt(start: seq<Poll>, a: seq<Poll>, b: seq<Poll>, m: seq<Poll>, c: seq<Poll>, q: seq<Poll>, i: nat)
    requires Leads(start, a, b, m) && Leads(m, b, c, q) && i < |b| - |c|
    ensures start[|a| - |b| + i] == a[|a| - |b| + i]
  {
    var u1 := |a| - |b|;
    SoonAt(b, a[u1..]);
    SoonAt(start[u1..], m);
    assert m[i] == m[..|b| - |c|][i] == b[i];
    if i == 0 {
      assert Soon(start[u1..])[0] == Soon(m)[0] && Soon(b)[0] == Soon(a[u1..])[0];
    } else {
      assert start[u1..][i] == m[i] && b[i] == a[u1..][i];
    }
  }

  /** One wait under another future. */
  lemma ReplayUntil(k: Kernel, timeoutMs: int, deadline: int, t: seq<Byte>, q: seq<Poll>) returns (start: seq<Poll>)
    requires var end := UntilRun(k, timeoutMs, deadline);
             !end.ret.PollBlocked? && q != [] && Delay(q) == Delay(end.kernel.polls)
    ensures var end := UntilRun(k, timeoutMs, deadline);
            && Leads(start, k.polls, end.kernel.polls, q)
            && UntilRun(Kernel(t, start, k.now, k.pollTime), timeoutMs, deadline)
               == PollEnd(end.ret, Kernel(t, q, end.kernel.now, end.kernel.pollTime))
  {
    var end := UntilRun(k, timeoutMs, deadline);
    UntilShape(k, timeoutMs, deadline);
    SoonCounts(k.polls);
    if k.polls != [] && end.kernel.polls == k.polls[1..] {
      start := [k.polls[0]] + q;
      SoonCounts(start);
      assert start[1..] == q;
    } else {
      start := q[0 := q[0].(before := Delay(k.polls))];
      assert Soon(start) == q == Soon(q);
      assert Soon(Soon(k.polls)) == Soon(k.polls);
      assert k.polls[0..] == k.polls && start[0..] == start;
    }
  }

  lemma TurnsAgain(k: Kernel, size: nat, timeoutMs: int, deadline: int, wait: PollEnd)
    requires size > 0 && wait == UntilRun(k, timeoutMs, deadline) && TurnOf(wait.ret, size, |k.incoming|) == Again
    ensures ReadRun(k, size, timeoutMs, deadline) == ReadRun(wait.kernel, size, timeoutMs, deadline)
  {
    TurnProgress(k, size, timeoutMs, deadline);
  }

  lemma TurnGets(k: Kernel, size: nat, timeoutMs: int, deadline: int, wait: PollEnd, c: nat)
    requires size > 0 && wait == UntilRun(k, timeoutMs, deadline) && TurnOf(wait.ret, size, |k.incoming|) == Gets(c)
    ensures c <= |k.incoming| && c <= size
    ensures ReadRun(k, size, timeoutMs, deadline) ==
            Then(k.incoming[..c], ReadRun(wait.kernel.(incoming := k.incoming[c..]), size - c, timeoutMs, deadline))
  {
    TurnProgress(k, size, timeoutMs, deadline);
  }

  lemma TurnEnds(k: Kernel, size: nat, timeoutMs: int, deadline: int, wait: PollEnd, io: IoResult)
    requires size > 0 && wait == UntilRun(k, timeoutMs, deadline) && TurnOf(wait.ret, size, |k.incoming|) == Ends(io)
    ensures ReadRun(k, size, timeoutMs, deadline) == ReadEnd(io, [], wait.kernel)
  {}

  /** While more bytes follow, their number makes no difference to a turn. */
  lemma SameTurn(ret: PollReturn, size: nat, available: nat, other: nat)
    requires size > 0 && available > 0
    ensures match TurnOf(ret, size, available)
            case Gets(c) => c < available && c <= other ==> TurnOf(ret, size, other) == Gets(c)
            case turn => TurnOf(ret, size, other) == turn
  {}

  /** A read and its course under another future: q is what is then left of the script. */
  ghost predicate Replays(k: Kernel, end: ReadEnd, t: seq<Byte>, q: seq<Poll>, start: seq<Poll>, other: ReadEnd) {
    && Leads(start, k.polls, end.kernel.polls, q)
    && other == ReadEnd(end.io, end.data, Kernel(t, q, end.kernel.now, end.kernel.pollTime))
  }

  lemma ReplayEnds(k: Kernel, size: nat, timeoutMs: int, deadline: int, t: seq<Byte>, q: seq<Poll>, wait: PollEnd, io: IoResult)
    returns (start: seq<Poll>)
    requires size > 0 && wait == UntilRun(k, timeoutMs, deadline) && TurnOf(wait.ret, size, |k.incoming|) == Ends(io)
    requires io != Blocked && k.incoming != [] && q != [] && Delay(q) == Delay(wait.kernel.polls)
    ensures Replays(k, ReadEnd(io, [], wait.kernel), t, q, start,
                    ReadRun(Kernel(t, start, k.now, k.pollTime), size, timeoutMs, deadline))
  {
    SameTurn(wait.ret, size, |k.incoming|, |t|);
    start := ReplayUntil(k, timeoutMs, deadline, t, q);
    TurnEnds(Kernel(t, start, k.now, k.pollTime), size, timeoutMs, deadline,
             PollEnd(wait.ret, Kernel(t, q, wait.kernel.now, wait.kernel.pollTime)), io);
  }

  lemma ReplayAgain(k: Kernel, size: nat, timeoutMs: int, deadline: int, t: seq<Byte>, q: seq<Poll>, wait: PollEnd,
                    end: ReadEnd, m: seq<Poll>)
    returns (start: seq<Poll>)
    requires size > 0 && wait == UntilRun(k, timeoutMs, deadline) && TurnOf(wait.ret, size, |k.incoming|) == Again
    requires k.incoming != [] && m != [] && Delay(m) == Delay(wait.kernel.polls)
    requires Replays(wait.kernel, end, t, q, m,
                     ReadRun(Kernel(end.data + t, m, wait.kernel.now, wait.kernel.pollTime), size, timeoutMs, deadline))
    ensures Replays(k, end, t, q, start, ReadRun(Kernel(end.data + t, start, k.now, k.pollTime), size, timeoutMs, deadline))
  {
    var all := end.data + t;
    SameTurn(wait.ret, size, |k.incoming|, |all|);
    start := ReplayUntil(k, timeoutMs, deadline, all, m);
    LeadsOn(start, k.polls, wait.kernel.polls, m, end.kernel.polls, q);
    TurnsAgain(Kernel(all, start, k.now, k.pollTime), size, timeoutMs, deadline,
               PollEnd(wait.ret, Kernel(all, m, wait.kernel.now, wait.kernel.pollTime)));
  }

  lemma Regroup(a: seq<Byte>, b: seq<Byte>, c: seq<Byte>)
    ensures (a + b) + c == a + (b + c)
  {}

  lemma FrontAndRest(a: seq<Byte>, b: seq<Byte>)
    ensures (a + b)[..|a|] == a && (a + b)[|a|..] == b
  {}

  lemma ReplayGets(k: Kernel, size: nat, timeoutMs: int, deadline: int, t: seq<Byte>, q: seq<Poll>, wait: PollEnd, c: nat,
                   rest: ReadEnd, m: seq<Poll>)
    returns (start: seq<Poll>)
    requires size > 0 && wait == UntilRun(k, timeoutMs, deadline) && TurnOf(wait.ret, size, |k.incoming|) == Gets(c)
    requires c < |k.incoming| && c <= size && m != [] && Delay(m) == Delay(wait.kernel.polls)
    requires Replays(wait.kernel, rest, t, q, m,
                     ReadRun(Kernel(rest.data + t, m, wait.kernel.now, wait.kernel.pollTime), size - c, timeoutMs, deadline))
    ensures var end := Then(k.incoming[..c], rest);
            Replays(k, end, t, q, start, ReadRun(Kernel(end.data + t, start, k.now, k.pollTime), size, timeoutMs, deadline))
  {
    var end := Then(k.incoming[..c], rest);
    var all := end.data + t;
    Regroup(k.incoming[..c], rest.data, t);
    FrontAndRest(k.incoming[..c], rest.data + t);
    SameTurn(wait.ret, size, |k.incoming|, |all|);
    start := ReplayUntil(k, timeoutMs, deadline, all, m);
    LeadsOn(start, k.polls, wait.kernel.polls, m, end.kernel.polls, q);
    TurnGets(Kernel(all, start, k.now, k.pollTime), size, timeoutMs, deadline,
             PollEnd(wait.ret, Kernel(all, m, wait.kernel.now, wait.kernel.pollTime)), c);
  }

  lemma LeadsDelay(start: seq<Poll>, before: seq<Poll>, after: seq<Poll>, q: seq<Poll>)
    requires Leads(start, before, after, q)
    ensures start != [] && Delay(start) == Delay(before)
  {
    var used := |before| - |after|;
    assert used == 0 ==> start[used..] == start && before[used..] == before;
    assert used > 0 ==> start[0] == start[..used][0] == before[0];
  }

  /** A read takes the same bytes and the same turns, whatever follows. */
  lemma {:induction false} ReplayRead(k: Kernel, size: nat, timeoutMs: int, deadline: int, t: seq<Byte>, q: seq<Poll>)
    returns (start: seq<Poll>)
    requires size > 0
    requires var end := ReadRun(k, size, timeoutMs, deadline);
             end.io != Blocked && end.kernel.incoming != [] && q != [] && Delay(q) == Delay(end.kernel.polls)
    ensures var end := ReadRun(k, size, timeoutMs, deadline);
            Replays(k, end, t, q, start, ReadRun(Kernel(end.data + t, start, k.now, k.pollTime), size, timeoutMs, deadline))
    decreases |k.polls|, 0
  {
    var end := ReadRun(k, size, timeoutMs, deadline);
    var wait := UntilRun(k, timeoutMs, deadline);
    TurnProgress(k, size, timeoutMs, deadline);
    assert [] + t == t;
    match TurnOf(wait.ret, size, |k.incoming|)
    case Ends(io) =>
      UntilKeepsStream(k, timeoutMs, deadline);
      TurnEnds(k, size, timeoutMs, deadline, wait, io);
      start := ReplayEnds(k, size, timeoutMs, deadline, t, q, wait, io);
    case Again =>
      UntilKeepsStream(k, timeoutMs, deadline);
      TurnsAgain(k, size, timeoutMs, deadline, wait);
      var m := ReplayRest(wait.kernel, size, timeoutMs, deadline, t, q);
      start := ReplayAgain(k, size, timeoutMs, deadline, t, q, wait, end, m);
    case Gets(c) =>
      TurnGets(k, size, timeoutMs, deadline, wait, c);
      var k1 := wait.kernel.(incoming := k.incoming[c..]);
      var rest := ReadRun(k1, size - c, timeoutMs, deadline);
      var m := ReplayRest(k1, size - c, timeoutMs, deadline, t, q);
      start := ReplayGets(k, size, timeoutMs, deadline, t, q, wait, c, rest, m);
  }

  /** What is still to be read, if anything is. */
  lemma {:induction false} ReplayRest(k: Kernel, size: nat, timeoutMs: int, deadline: int, t: seq<Byte>, q: seq<Poll>)
    returns (m: seq<Poll>)
    requires var end := ReadRun(k, size, timeoutMs, deadline);
             end.io != Blocked && end.kernel.incoming != [] && q != [] && Delay(q) == Delay(end.kernel.polls)
    ensures k.incoming != [] && m != [] && Delay(m) == Delay(k.polls)
    ensures var end := ReadRun(k, size, timeoutMs, deadline);
            Replays(k, end, t, q, m, ReadRun(Kernel(end.data + t, m, k.now, k.pollTime), size, timeoutMs, deadline))
    decreases |k.polls|, 1
  {
    ReadDelivers(k, size, timeoutMs, deadline);
    if size > 0 {
      m := ReplayRead(k, size, timeoutMs, deadline, t, q);
    } else {
      m := q;
      Nothing(k, t, q, timeoutMs, deadline);
    }
    LeadsDelay(m, k.polls, ReadRun(k, size, timeoutMs, deadline).kernel.polls, q);
  }

  lemma Nothing(k: Kernel, t: seq<Byte>, q: seq<Poll>, timeoutMs: int, deadline: int)
    requires q != [] && Delay(q) == Delay(k.polls)
    ensures ReadRun(k, 0, timeoutMs, deadline) == ReadEnd(Done, [], k)
    ensures Replays(k, ReadEnd(Done, [], k), t, q, q, ReadRun(Kernel([] + t, q, k.now, k.pollTime), 0, timeoutMs, deadline))
  {
    assert [] + t == t && k.polls[0..] == k.polls && q[0..] == q;
  }

  /** The bytes taken off a stream of which `after` is left. */
  function Taken(before: seq<Byte>, after: seq<Byte>): seq<Byte> {
    if |after| <= |before| then before[..|before| - |after|] else []
  }

  lemma TakenIs(before: seq<Byte>, data: seq<Byte>, after: seq<Byte>)
    requires data + after == before
    ensures Taken(before, after) == data
  {}

  /** A receive and its course under another future. */
  ghost predicate RecvReplays(k: Kernel, end: RecvEnd, t: seq<Byte>, q: seq<Poll>, start: seq<Poll>, other: RecvEnd) {
    && Leads(start, k.polls, end.kernel.polls, q)
    && other == RecvEnd(end.result, Kernel(t, q, end.kernel.now, end.kernel.pollTime))
  }

  lemma AllDelivers(k: Kernel, size: nat, timeoutMs: int)
    ensures var end := ReadAllRun(k, size, timeoutMs);
            end.data + end.kernel.incoming == k.incoming && |end.data| <= size && (end.io.Done? <==> |end.data| == size)
  {
    var timeout := PollTimeout(timeoutMs);
    ReadDelivers(k, size, timeout, k.now + timeout * NANOS_PER_MILLI);
  }

  lemma ReplayReadAll(k: Kernel, size: nat, timeoutMs: int, t: seq<Byte>, q: seq<Poll>) returns (start: seq<Poll>)
    requires size > 0
    requires var end := ReadAllRun(k, size, timeoutMs);
             end.io != Blocked && end.kernel.incoming != [] && q != [] && Delay(q) == Delay(end.kernel.polls)
    ensures var end := ReadAllRun(k, size, timeoutMs);
            && end.data + end.kernel.incoming == k.incoming && |end.data| <= size && (end.io.Done? <==> |end.data| == size)
            && Replays(k, end, t, q, start, ReadAllRun(Kernel(end.data + t, start, k.now, k.pollTime), size, timeoutMs))
  {
    var timeout := PollTimeout(timeoutMs);
    AllDelivers(k, size, timeoutMs);
    start := ReplayRead(k, size, timeout, k.now + timeout * NANOS_PER_MILLI, t, q);
  }

  /** The payload comes back, and with it the decision on the checksum. */
  lemma ReplayBytes(k: Kernel, h: HeaderDecision, timeoutMs: int, t: seq<Byte>, q: seq<Poll>) returns (start: seq<Poll>)
    requires h.GoodHeader? && h.size > 0
    requires var end := PayloadRun(k, h.size, h.checksum, h.messageId, h.flags, timeoutMs);
             !end.result.RecvBlocked? && end.kernel.incoming != [] && q != [] && Delay(q) == Delay(end.kernel.polls)
    ensures var end := PayloadRun(k, h.size, h.checksum, h.messageId, h.flags, timeoutMs);
            var taken := Taken(k.incoming, end.kernel.incoming);
            && taken + end.kernel.incoming == k.incoming
            && RecvReplays(k, end, t, q, start, PayloadRun(Kernel(taken + t, start, k.now, k.pollTime),
                                                           h.size, h.checksum, h.messageId, h.flags, timeoutMs))
  {
    var end := ReadAllRun(k, h.size, timeoutMs);
    start := ReplayReadAll(k, h.size, timeoutMs, t, q);
    ReadTakes(k, h.size, timeoutMs);
    ReadTakes(Kernel(end.data + t, start, k.now, k.pollTime), h.size, timeoutMs);
    TakenIs(k.incoming, end.data, end.kernel.incoming);
  }

  lemma ReplayPayload(k: Kernel, raw: seq<Byte>, timeoutMs: int, t: seq<Byte>, q: seq<Poll>) returns (start: seq<Poll>)
    requires |raw| == HEADER_SIZE
    requires var end := AfterHeader(raw, k, timeoutMs);
             !end.result.RecvBlocked? && end.kernel.incoming != [] && q != [] && Delay(q) == Delay(end.kernel.polls)
    ensures var end := AfterHeader(raw, k, timeoutMs);
            var taken := Taken(k.incoming, end.kernel.incoming);
            && taken + end.kernel.incoming == k.incoming
            && RecvReplays(k, end, t, q, start, AfterHeader(raw, Kernel(taken + t, start, k.now, k.pollTime), timeoutMs))
  {
    var h := ReadHeader(raw);
    if h.GoodHeader? && h.size > 0 {
      start := ReplayBytes(k, h, timeoutMs, t, q);
    } else {
      start := q;
      TakenIs(k.incoming, [], k.incoming);
      assert [] + t == t && [] + k.incoming == k.incoming && k.polls[0..] == k.polls && q[0..] == q;
    }
  }

  lemma RecvUnfolds(k: Kernel, timeoutMs: int, head: ReadEnd)
    requires head == ReadAllRun(k, HEADER_SIZE, timeoutMs)
    ensures head.io.Done? ==> |head.data| == HEADER_SIZE
    ensures RecvRun(k, timeoutMs) ==
            if !head.io.Done? then RecvEnd(Code(head.io), head.kernel) else AfterHeader(head.data, head.kernel, timeoutMs)
  {
    ReadTakes(k, HEADER_SIZE, timeoutMs);
  }

  /** The bytes of the header and those behind it. */
  lemma JoinTaken(whole: seq<Byte>, head: seq<Byte>, middle: seq<Byte>, more: seq<Byte>, after: seq<Byte>, t: seq<Byte>)
    requires head + middle == whole && more + after == middle
    ensures Taken(whole, after) == head + more
    ensures Taken(whole, after) + after == whole
    ensures Taken(whole, after) + t == head + (more + t)
  {
    Regroup(head, more, after);
    Regroup(head, more, t);
    TakenIs(whole, head + more, after);
  }

  lemma ReplayRecv(k: Kernel, timeoutMs: int, t: seq<Byte>, q: seq<Poll>) returns (start: seq<Poll>)
    requires var end := RecvRun(k, timeoutMs);
             !end.result.RecvBlocked? && end.kernel.incoming != [] && q != [] && Delay(q) == Delay(end.kernel.polls)
    ensures var end := RecvRun(k, timeoutMs);
            var taken := Taken(k.incoming, end.kernel.incoming);
            && taken + end.kernel.incoming == k.incoming
            && RecvReplays(k, end, t, q, start, RecvRun(Kernel(taken + t, start, k.now, k.pollTime), timeoutMs))
  {
    var head := ReadAllRun(k, HEADER_SIZE, timeoutMs);
    RecvUnfolds(k, timeoutMs, head);
    var more, m := [], q;
    if head.io.Done? {
      start, more, m := ReplayTwoReads(k, timeoutMs, t, q, head);
    } else {
      start := ReplayReadAll(k, HEADER_SIZE, timeoutMs, t, q);
      TakenIs(k.incoming, head.data, head.kernel.incoming);
    }
    var other := Kernel(head.data + (more + t), start, k.now, k.pollTime);
    assert [] + t == t;
    RecvUnfolds(other, timeoutMs, ReadAllRun(other, HEADER_SIZE, timeoutMs));
  }

  lemma ReplayTwoReads(k: Kernel, timeoutMs: int, t: seq<Byte>, q: seq<Poll>, head: ReadEnd)
    returns (start: seq<Poll>, more: seq<Byte>, m: seq<Poll>)
    requires head == ReadAllRun(k, HEADER_SIZE, timeoutMs) && head.io.Done? && |head.data| == HEADER_SIZE
    requires var end := AfterHeader(head.data, head.kernel, timeoutMs);
             !end.result.RecvBlocked? && end.kernel.incoming != [] && q != [] && Delay(q) == Delay(end.kernel.polls)
    ensures var end := AfterHeader(head.data, head.kernel, timeoutMs);
            && m != [] && Replays(k, head, more + t, m, start,
                       ReadAllRun(Kernel(head.data + (more + t), start, k.now, k.pollTime), HEADER_SIZE, timeoutMs))
            && RecvReplays(head.kernel, end, t, q, m,
                           AfterHeader(head.data, Kernel(more + t, m, head.kernel.now, head.kernel.pollTime), timeoutMs))
            && Taken(k.incoming, end.kernel.incoming) + end.kernel.incoming == k.incoming
            && Taken(k.incoming, end.kernel.incoming) + t == head.data + (more + t)
            && Leads(start, k.polls, end.kernel.polls, q)
  {
    var end := AfterHeader(head.data, head.kernel, timeoutMs);
    AfterHeaderCosts(head.data, head.kernel, timeoutMs);
    m := ReplayPayload(head.kernel, head.data, timeoutMs, t, q);
    more := Taken(head.kernel.incoming, end.kernel.incoming);
    LeadsDelay(m, head.kernel.polls, end.kernel.polls, q);
    start := ReplayReadAll(k, HEADER_SIZE, timeoutMs, more + t, m);
    JoinTaken(k.incoming, head.data, head.kernel.incoming, more, end.kernel.incoming, t);
    LeadsOn(start, k.polls, head.kernel.polls, m, end.kernel.polls, q);
  }
}
