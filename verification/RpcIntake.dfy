/**
  The frames that the serving loop takes, against the stream. The loop polls with an interval
  of 50 ms, and an interval that runs out inside a frame throws away what was read of it.
*/
module RpcIntake {
  import opened Words
  import opened Frames
  import opened FrameIo
  import opened RpcServer
  import opened Replay
  import P = PosixPipe

  /** The interval ran out after part of a frame, and the peer delivers more. */
  ghost predicate Loses(before: seq<Byte>, r: RecvEnd) {
    r.result == RecvFailed(P.Timeout) && r.kernel.incoming != before && r.kernel.incoming != []
  }

  /** None of the receives, from a stream `before`, loses part of a frame. */
  ghost predicate Kept(before: seq<Byte>, rs: Receives)
    decreases rs
  {
    rs.Cons? ==> !Loses(before, rs.head) && Kept(rs.head.kernel.incoming, rs.tail)
  }

  ghost predicate KeepsFrames(k: P.Kernel, rounds: nat) {
    Kept(k.incoming, Arrivals(true, k, rounds))
  }

  /** Each receive fits the stream. */
  ghost predicate Course(before: seq<Byte>, rs: Receives)
    decreases rs
  {
    rs.Cons? ==>
      && Agrees(Decode(before), rs.head.result, before, rs.head.kernel.incoming)
      && Course(rs.head.kernel.incoming, rs.tail)
  }

  lemma ArrivalsCourse(k: P.Kernel, rounds: nat)
    ensures Course(k.incoming, Arrivals(true, k, rounds))
  {
    var rs := FittingArrivals(k, rounds);
  }

  lemma {:induction false} FittingArrivals(k: P.Kernel, rounds: nat) returns (rs: Receives)
    ensures rs == Arrivals(true, k, rounds) && Course(k.incoming, rs)
    decreases rounds
  {
    if rounds == 0 {
      rs := Nil;
    } else {
      var end, later := RecvRun(k, POLL_MS), Nil;
      OneFits(k);
      if GoesOn(end.result) {
        later := FittingArrivals(end.kernel, rounds - 1);
      }
      rs := Cons(end, later);
      ArrivalsFirst(k, rounds - 1);
      CourseFirst(k.incoming, end, later);
    }
  }

  lemma OneFits(k: P.Kernel)
    ensures Agrees(Decode(k.incoming), RecvRun(k, POLL_MS).result, k.incoming, RecvRun(k, POLL_MS).kernel.incoming)
  {
    RecvRunIsRight(k, POLL_MS);
  }

  lemma CourseFirst(before: seq<Byte>, r: RecvEnd, later: Receives)
    requires Agrees(Decode(before), r.result, before, r.kernel.incoming)
    requires later.Nil? || Course(r.kernel.incoming, later)
    ensures Course(before, Cons(r, later))
  {}

  /** One receive that loses nothing takes the first frame of the stream, or leaves the frames alone. */
  lemma OneArrival(before: seq<Byte>, r: RecvEnd)
    requires Agrees(Decode(before), r.result, before, r.kernel.incoming) && !Loses(before, r)
    ensures match r.result
            case Received(f) => ParseAll(before) == [f] + ParseAll(r.kernel.incoming)
            case RecvFailed(code) =>
              && (code == P.Timeout ==> ParseAll(before) == ParseAll(r.kernel.incoming))
              && (code == P.ConnectionReset || code == P.InvalidMessage ==> ParseAll(before) == [])
            case RecvBlocked => true
  {
    ParseBehind(before);
    if r.result == RecvFailed(P.Timeout) {
      NoFrameInRest(before, r.kernel.incoming);
    }
  }

  lemma NoFrameInRest(before: seq<Byte>, after: seq<Byte>)
    requires Undecided(before, after) && (after == before || after == [])
    ensures ParseAll(before) == ParseAll(after)
  {
    if after == [] {
      assert before[..|before|] == before;
      ParseBehind(before);
      ParseBehind([]);
    }
  }

  /**
    As long as no interval runs out inside a frame of which more is to come, the loop takes the
    frames of the stream, in order, and all of them before the end of the stream or a bad frame
    ends it.
  */
  ghost predicate FitsStream(s: seq<Byte>, side: Intake) {
    && side.frames <= ParseAll(s)
    && (side.last == None ==> ParseAll(s) == side.frames + ParseAll(side.kernel.incoming))
    && (side.last == Some(RecvFailed(P.ConnectionReset)) || side.last == Some(RecvFailed(P.InvalidMessage)) ==>
          side.frames == ParseAll(s))
  }

  lemma FrameInFront(s: seq<Byte>, f: Frame, s': seq<Byte>, side: Intake)
    requires ParseAll(s) == [f] + ParseAll(s') && FitsStream(s', side)
    ensures FitsStream(s, After([f], side))
  {
    InFront(f, side.frames, ParseAll(s'), ParseAll(side.kernel.incoming));
  }

  lemma InFront(f: Frame, a: seq<Frame>, b: seq<Frame>, c: seq<Frame>)
    ensures a <= b ==> [f] + a <= [f] + b
    ensures [f] + (a + c) == ([f] + a) + c
  {}

  lemma {:induction false} IntakeFromStream(k: P.Kernel, rs: Receives)
    requires Course(k.incoming, rs) && Kept(k.incoming, rs)
    ensures FitsStream(k.incoming, Gathered(k, rs))
    decreases rs
  {
    match rs
    case Nil => assert [] + ParseAll(k.incoming) == ParseAll(k.incoming);
    case Cons(r, later) =>
      OneArrival(k.incoming, r);
      IntakeFromStream(r.kernel, later);
      if r.result.Received? {
        FrameInFront(k.incoming, r.result.frame, r.kernel.incoming, Gathered(r.kernel, later));
      }
  }

  /** The frames taken are the first ones of the stream, see StartsWithPrefix. */
  ghost predicate TakesStream(k: P.Kernel, rounds: nat) {
    StartsWith(ParseAll(k.incoming), ServeRun(true, k, rounds).frames)
  }

  ghost predicate StartsWith(all: seq<Frame>, fs: seq<Frame>)
    decreases |fs|
  {
    fs != [] ==> all != [] && all[0] == fs[0] && StartsWith(all[1..], fs[1..])
  }

  lemma {:induction false} StartsWithPrefix(all: seq<Frame>, fs: seq<Frame>)
    ensures StartsWith(all, fs) <==> fs <= all
    decreases |fs|
  {
    if fs != [] && all != [] {
      StartsWithPrefix(all[1..], fs[1..]);
      assert fs == [fs[0]] + fs[1..] && all == [all[0]] + all[1..];
    }
  }

  lemma IntakeIsStream(k: P.Kernel, rounds: nat)
    requires KeepsFrames(k, rounds)
    ensures TakesStream(k, rounds)
    ensures var side := ServeRun(true, k, rounds);
            && side.frames <= ParseAll(k.incoming)
            && (side.last == Some(RecvFailed(P.ConnectionReset)) || side.last == Some(RecvFailed(P.InvalidMessage)) ==>
                  side.frames == ParseAll(k.incoming))
  {
    ArrivalsCourse(k, rounds);
    IntakeFromStream(k, Arrivals(true, k, rounds));
    StartsWithPrefix(ParseAll(k.incoming), ServeRun(true, k, rounds).frames);
  }

  // ---------------------------------------------------------------------------------------
  // What a lost part of a frame leads to
  // ---------------------------------------------------------------------------------------

  /** The peer delivers part of the frame, and then nothing for the rest of the interval. */
  function Pause(j: nat): seq<P.Poll> {
    [P.Poll(0, 0, 0, P.Readable(P.Bytes(j))), P.Poll(0, 0, 0, P.Expires)]
  }

  lemma {:induction false} ShortStream(k: P.Kernel, rounds: nat)
    requires |k.incoming| < HEADER_SIZE
    ensures ServeRun(true, k, rounds).frames == []
    decreases rounds
  {
    if rounds > 0 {
      var end := RecvRun(k, POLL_MS);
      RecvRunIsRight(k, POLL_MS);
      ShortStream(end.kernel, rounds - 1);
      ServeUnfolds(k, rounds - 1);
    }
  }

  /** What a receive and the ones after it take. */
  function Onto(end: RecvEnd, inner: Intake): Intake {
    if end.result.Received? then After([end.result.frame], inner)
    else if GoesOn(end.result) then inner
    else Intake([], Some(end.result), end.kernel)
  }

  lemma ServeUnfolds(k: P.Kernel, left: nat)
    ensures ServeRun(true, k, left + 1) == Onto(RecvRun(k, POLL_MS), ServeRun(true, RecvRun(k, POLL_MS).kernel, left))
  {}

  lemma PauseExpires(s: seq<Byte>, j: nat, more: seq<P.Poll>, now: nat, pollTime: nat)
    requires 0 < j < HEADER_SIZE && j <= |s|
    ensures var end := RecvRun(P.Kernel(s, Pause(j) + more, now, pollTime), POLL_MS);
            end.result == RecvFailed(P.Timeout) && end.kernel.incoming == s[j..]
  {
    var k := P.Kernel(s, Pause(j) + more, now, pollTime);
    var deadline := now + POLL_MS * P.NANOS_PER_MILLI;
    var wait := P.UntilRun(k, POLL_MS, deadline);
    P.SoonCounts(k.polls);
    assert wait.ret == P.PollReadable(P.Bytes(j)) && wait.kernel.now == now;
    assert wait.kernel.polls == k.polls[1..] && wait.kernel.polls[0] == Pause(j)[1];
    var k1 := wait.kernel.(incoming := s[j..]);
    TurnGets(k, HEADER_SIZE, POLL_MS, deadline, wait, j);
    var wait1 := P.UntilRun(k1, POLL_MS, deadline);
    assert wait1.ret == P.PollExpired;
    TurnEnds(k1, HEADER_SIZE - j, POLL_MS, deadline, wait1, P.Failed(P.Timeout));
  }

  /** A request that is alone on the stream is never taken if an interval runs out inside its header. */
  lemma IntervalLosesRequest(f: Frame, j: nat, more: seq<P.Poll>, now: nat, pollTime: nat, rounds: nat)
    requires IsRequest(f) && f.payload == [] && 0 < j < HEADER_SIZE
    ensures ServeRun(true, P.Kernel(Encode(f), Pause(j) + more, now, pollTime), rounds).frames == []
    ensures ParseAll(Encode(f)) == [f]
  {
    var k := P.Kernel(Encode(f), Pause(j) + more, now, pollTime);
    ParseCons(f, []);
    assert Encode(f) + [] == Encode(f) && ParseAll([]) == [] && [f] + [] == [f];
    if rounds > 0 {
      PauseExpires(Encode(f), j, more, now, pollTime);
      ServeUnfolds(k, rounds - 1);
      ShortStream(RecvRun(k, POLL_MS).kernel, rounds - 1);
    }
  }

  // ---------------------------------------------------------------------------------------
  // The condition is needed
  // ---------------------------------------------------------------------------------------

  function Snoc(rs: Receives, r: RecvEnd): Receives {
    match rs
    case Nil => Cons(r, Nil)
    case Cons(first, later) => Cons(first, Snoc(later, r))
  }

  function LastKernel(k: P.Kernel, rs: Receives): P.Kernel
    decreases rs
  {
    match rs
    case Nil => k
    case Cons(r, later) => LastKernel(r.kernel, later)
  }

  ghost predicate AllGoOn(rs: Receives) {
    rs.Cons? ==> GoesOn(rs.head.result) && AllGoOn(rs.tail)
  }

  /** Rounds from k that all go on, and one more. */
  datatype Track = Track(k: P.Kernel, init: Receives, final: RecvEnd)

  ghost predicate IsTrack(x: Track) {
    AllGoOn(x.init) && Snoc(x.init, x.final) == Arrivals(true, x.k, Length(x.init) + 1)
  }

  /** The first of the rounds and the later ones. */
  lemma ArrivalsFirst(k: P.Kernel, left: nat)
    ensures var end := RecvRun(k, POLL_MS);
            Arrivals(true, k, left + 1) == Cons(end, if GoesOn(end.result) then Arrivals(true, end.kernel, left) else Nil)
    ensures Arrivals(true, k, 0) == Nil
  {}

  lemma TrackOfOne(k: P.Kernel)
    ensures IsTrack(Track(k, Nil, RecvRun(k, POLL_MS)))
  {
    ArrivalsFirst(k, 0);
    ArrivalsFirst(RecvRun(k, POLL_MS).kernel, 0);
  }

  lemma TrackCons(k: P.Kernel, end: RecvEnd, init: Receives, final: RecvEnd)
    requires end == RecvRun(k, POLL_MS) && GoesOn(end.result) && IsTrack(Track(end.kernel, init, final))
    ensures IsTrack(Track(k, Cons(end, init), final))
  {
    ArrivalsFirst(k, Length(init) + 1);
  }

  lemma TrackTail(x: Track)
    requires IsTrack(x) && x.init.Cons?
    ensures x.init.head == RecvRun(x.k, POLL_MS) && GoesOn(x.init.head.result)
    ensures IsTrack(Track(x.init.head.kernel, x.init.tail, x.final))
  {
    ArrivalsFirst(x.k, Length(x.init));
  }

  lemma TrackFinal(x: Track)
    requires IsTrack(x) && x.init.Nil?
    ensures x.final == RecvRun(x.k, POLL_MS)
  {
    ArrivalsFirst(x.k, 0);
  }

  lemma KeptCons(k: P.Kernel, end: RecvEnd, rs: Receives)
    ensures LastKernel(k, Cons(end, rs)) == LastKernel(end.kernel, rs)
    ensures Kept(k.incoming, Cons(end, rs)) <==> !Loses(k.incoming, end) && Kept(end.kernel.incoming, rs)
    ensures rs.Nil? ==> Kept(end.kernel.incoming, rs)
  {}

  lemma NotKeptOnward(k: P.Kernel, rounds: nat)
    requires !KeepsFrames(k, rounds)
    ensures rounds > 0
    ensures var end := RecvRun(k, POLL_MS);
            Loses(k.incoming, end) || (GoesOn(end.result) && !KeepsFrames(end.kernel, rounds - 1))
  {
    ArrivalsFirst(k, if rounds == 0 then 0 else rounds - 1);
    if rounds > 0 {
      var end := RecvRun(k, POLL_MS);
      KeptCons(k, end, if GoesOn(end.result) then Arrivals(true, end.kernel, rounds - 1) else Nil);
    }
  }

  /** The rounds before the first loss, and the loss. */
  lemma {:induction false} FirstLoss(k: P.Kernel, rounds: nat) returns (x: Track)
    requires !KeepsFrames(k, rounds)
    ensures Length(x.init) < rounds && x.k == k && IsTrack(x)
    ensures Kept(k.incoming, x.init) && Loses(LastKernel(k, x.init).incoming, x.final)
    decreases rounds
  {
    var end := RecvRun(k, POLL_MS);
    NotKeptOnward(k, rounds);
    if Loses(k.incoming, end) {
      x := Track(k, Nil, end);
      TrackOfOne(k);
    } else {
      var tail := FirstLoss(end.kernel, rounds - 1);
      x := Track(k, Cons(end, tail.init), tail.final);
      TrackCons(k, end, tail.init, tail.final);
      KeptCons(k, end, tail.init);
    }
  }

  /** What receives came to and when. */
  datatype Sights = Nothing | Sight(result: RecvResult, now: nat, pollTime: nat, later: Sights)

  function Seen(rs: Receives): Sights {
    match rs
    case Nil => Nothing
    case Cons(r, later) => Sight(r.result, r.kernel.now, r.kernel.pollTime, Seen(later))
  }

  /** Everything that happened: the rounds, the bytes taken, the answers used, and the clock. */
  datatype History = History(now: nat, pollTime: nat, seen: Sights, taken: seq<Byte>, used: seq<P.Poll>)

  function HistoryOf(k: P.Kernel, rs: Receives): History {
    var last := LastKernel(k, rs);
    History(k.now, k.pollTime, Seen(rs), Taken(k.incoming, last.incoming),
            if |last.polls| <= |k.polls| then k.polls[..|k.polls| - |last.polls|] else [])
  }

  /** n rounds were made from k, and the same from other. Only what has not been read yet may differ. */
  ghost predicate SameStart(k: P.Kernel, other: P.Kernel, n: nat) {
    && Length(Arrivals(true, k, n)) == n
    && HistoryOf(k, Arrivals(true, k, n)) == HistoryOf(other, Arrivals(true, other, n))
  }

  /** The same course when t and q follow it. */
  ghost predicate Replayed(x: Track, y: Track, t: seq<Byte>, q: seq<P.Poll>) {
    var last := x.final.kernel;
    var taken := Taken(x.k.incoming, last.incoming);
    && taken + last.incoming == x.k.incoming
    && y.k == P.Kernel(taken + t, y.k.polls, x.k.now, x.k.pollTime) && Leads(y.k.polls, x.k.polls, last.polls, q)
    && Seen(x.init) == Seen(y.init)
    && y.final == RecvEnd(x.final.result, P.Kernel(t, q, last.now, last.pollTime))
    && (Kept(x.k.incoming, x.init) ==> Kept(y.k.incoming, y.init))
    && LastKernel(y.k, y.init).incoming == Taken(LastKernel(x.k, x.init).incoming, last.incoming) + t
  }

  lemma ReplayLast(k: P.Kernel, t: seq<Byte>, q: seq<P.Poll>) returns (y: Track)
    requires var end := RecvRun(k, POLL_MS);
             !end.result.RecvBlocked? && end.kernel.incoming != [] && q != [] && P.Delay(q) == P.Delay(end.kernel.polls)
    ensures IsTrack(y) && Replayed(Track(k, Nil, RecvRun(k, POLL_MS)), y, t, q)
  {
    var end := RecvRun(k, POLL_MS);
    var start := ReplayRecv(k, POLL_MS, t, q);
    var other := P.Kernel(Taken(k.incoming, end.kernel.incoming) + t, start, k.now, k.pollTime);
    y := Track(other, Nil, RecvRun(other, POLL_MS));
    TrackOfOne(other);
  }

  /** Neither the original nor the replay loses anything in the round in front. */
  lemma KeptInFront(before: seq<Byte>, r: RecvEnd, taken: seq<Byte>, r': RecvEnd)
    requires taken + r.kernel.incoming == before && r.kernel.incoming != [] && r'.result == r.result
    ensures !Loses(before, r) ==> !Loses(taken + r'.kernel.incoming, r')
  {
    if r.result == RecvFailed(P.Timeout) && r.kernel.incoming == before {
      assert |taken| == 0;
      assert taken + r'.kernel.incoming == r'.kernel.incoming;
    }
  }

  lemma ReplayFirst(k: P.Kernel, end: RecvEnd, x: Track, y: Track, t: seq<Byte>, q: seq<P.Poll>) returns (y': Track)
    requires end == RecvRun(k, POLL_MS) && GoesOn(end.result) && x.final.kernel.incoming != []
    requires x.k == end.kernel && IsTrack(y) && Replayed(x, y, t, q)
    ensures IsTrack(y') && Replayed(Track(k, Cons(end, x.init), x.final), y', t, q)
  {
    var last := x.final.kernel;
    var more := Taken(end.kernel.incoming, last.incoming);
    LeadsDelay(y.k.polls, end.kernel.polls, last.polls, q);
    var start := ReplayRecv(k, POLL_MS, more + t, y.k.polls);
    var taken := Taken(k.incoming, end.kernel.incoming);
    var mid := RecvEnd(end.result, y.k);
    var other := P.Kernel(taken + (more + t), start, k.now, k.pollTime);
    y' := Track(other, Cons(mid, y.init), y.final);
    TrackCons(other, mid, y.init, y.final);
    JoinTaken(k.incoming, taken, end.kernel.incoming, more, last.incoming, t);
    LeadsOn(start, k.polls, end.kernel.polls, y.k.polls, last.polls, q);
    KeptInFront(k.incoming, end, taken, mid);
    JoinReplays(k, end, x, other, mid, y, t, q);
  }

  lemma JoinReplays(k: P.Kernel, end: RecvEnd, x: Track, other: P.Kernel, mid: RecvEnd, y: Track, t: seq<Byte>, q: seq<P.Poll>)
    requires x.k == end.kernel && y.k == mid.kernel && Replayed(x, y, t, q) && mid.result == end.result
    requires var all := Taken(k.incoming, x.final.kernel.incoming);
             && all + x.final.kernel.incoming == k.incoming
             && other == P.Kernel(all + t, other.polls, k.now, k.pollTime)
             && Leads(other.polls, k.polls, x.final.kernel.polls, q)
    requires !Loses(k.incoming, end) ==> !Loses(other.incoming, mid)
    ensures Replayed(Track(k, Cons(end, x.init), x.final), Track(other, Cons(mid, y.init), y.final), t, q)
  {}

  lemma {:induction false} ReplayRounds(x: Track, t: seq<Byte>, q: seq<P.Poll>) returns (y: Track)
    requires IsTrack(x)
    requires !x.final.result.RecvBlocked? && x.final.kernel.incoming != []
    requires q != [] && P.Delay(q) == P.Delay(x.final.kernel.polls)
    ensures IsTrack(y) && Replayed(x, y, t, q)
    decreases x.init
  {
    var end := RecvRun(x.k, POLL_MS);
    match x.init
    case Nil =>
      TrackFinal(x);
      y := ReplayLast(x.k, t, q);
    case Cons(r, later) =>
      TrackTail(x);
      var tail := Track(end.kernel, later, x.final);
      var y1 := ReplayRounds(tail, t, q);
      y := ReplayFirst(x.k, end, tail, y1, t, q);
  }

  /** The first frame of a stream has the id that its first 20 bytes say. */
  lemma FirstId(s: seq<Byte>, f: Frame)
    requires StartsWith(ParseAll(s), [f])
    ensures |s| >= HEADER_SIZE && ReadHeader(s[..HEADER_SIZE]).GoodHeader?
    ensures ReadHeader(s[..HEADER_SIZE]).messageId == f.messageId
  {
    ParseBehind(s);
  }

  lemma SameHeader(c: seq<Byte>, a: seq<Byte>, b: seq<Byte>)
    requires c != [] && |a| == |b| == HEADER_SIZE && a[..HEADER_SIZE - 1] == b[..HEADER_SIZE - 1]
    ensures (c + a)[..HEADER_SIZE] == (c + b)[..HEADER_SIZE]
  {
    forall i | 0 <= i < HEADER_SIZE ensures (c + a)[i] == (c + b)[i] {
      if i >= |c| {
        assert a[i - |c|] == a[..HEADER_SIZE - 1][i - |c|] && b[i - |c|] == b[..HEADER_SIZE - 1][i - |c|];
      }
    }
  }

  /** A frame that is not the first one of the stream when it comes after these bytes. */
  lemma Misread(c: seq<Byte>) returns (g: Frame)
    requires c != []
    ensures g.payload == [] && Encodable(g) && !StartsWith(ParseAll(c + Encode(g)), [g])
  {
    var f0, f1 := Frame([], 0, 0), Frame([], 0x100_0000, 0);
    SameBytes(f0, f1);
    SameHeader(c, Encode(f0), Encode(f1));
    g := f0;
    if StartsWith(ParseAll(c + Encode(f0)), [f0]) {
      FirstId(c + Encode(f0), f0);
      g := f1;
      if StartsWith(ParseAll(c + Encode(f1)), [f1]) {
        FirstId(c + Encode(f1), f1);
        assert false;
      }
    }
  }

  /** Ids that differ only in their last byte. */
  lemma SameBytes(f0: Frame, f1: Frame)
    requires f0 == Frame([], 0, 0) && f1 == Frame([], 0x100_0000, 0)
    ensures Encode(f0)[..HEADER_SIZE - 1] == Encode(f1)[..HEADER_SIZE - 1]
  {
    assert Wire(0) == [0, 0, 0, 0] && Wire(0x100_0000) == [0, 0, 0, 1];
  }

  /** The frame in one piece, after some delay. */
  function Stray(delay: nat): seq<P.Poll> {
    [P.Poll(delay, 0, 0, P.Readable(P.Bytes(HEADER_SIZE)))]
  }

  lemma StrayInTime(g: Frame, delay: nat, now: nat, pollTime: nat)
    requires g.payload == [] && POLL_MS * P.NANOS_PER_MILLI - delay >= P.NANOS_PER_MILLI
    ensures RecvRun(P.Kernel(Encode(g), Stray(delay), now, pollTime), POLL_MS)
            == RecvEnd(Received(g), P.Kernel([], [], now + delay, pollTime))
  {
    var k := P.Kernel(Encode(g), Stray(delay), now, pollTime);
    assert Encode(g) + [] == Encode(g);
    EncodeFields(g, []);
    P.ReadAtOnce(k, HEADER_SIZE, POLL_MS);
    assert k.polls[1..] == [];
  }

  lemma StrayTooLate(g: Frame, delay: nat, now: nat, pollTime: nat)
    requires POLL_MS * P.NANOS_PER_MILLI - delay < P.NANOS_PER_MILLI && Encodable(g)
    ensures RecvRun(P.Kernel(Encode(g), Stray(delay), now, pollTime), POLL_MS)
            == RecvEnd(RecvFailed(P.Timeout), P.Kernel(Encode(g), Stray(0), now + delay, pollTime))
  {}

  /** A round that takes the last frame of the stream. */
  lemma LastFrame(k: P.Kernel, g: Frame, k1: P.Kernel, left: nat)
    requires RecvRun(k, POLL_MS) == RecvEnd(Received(g), k1) && k1.incoming == []
    ensures ServeRun(true, k, left + 1).frames == [g]
  {
    ServeUnfolds(k, left);
    ShortStream(k1, left);
    assert [g] + [] == [g];
  }

  lemma FrameAfterIdle(k: P.Kernel, g: Frame, k1: P.Kernel, k2: P.Kernel)
    requires RecvRun(k, POLL_MS) == RecvEnd(RecvFailed(P.Timeout), k1)
    requires RecvRun(k1, POLL_MS) == RecvEnd(Received(g), k2) && k2.incoming == []
    ensures ServeRun(true, k, 2).frames == [g]
  {
    ServeUnfolds(k, 1);
    LastFrame(k1, g, k2, 0);
  }

  lemma StrayIsTaken(g: Frame, delay: nat, now: nat, pollTime: nat)
    requires g.payload == []
    ensures ServeRun(true, P.Kernel(Encode(g), Stray(delay), now, pollTime), 2).frames == [g]
  {
    var k := P.Kernel(Encode(g), Stray(delay), now, pollTime);
    var k1 := P.Kernel([], [], now + delay, pollTime);
    if POLL_MS * P.NANOS_PER_MILLI - delay >= P.NANOS_PER_MILLI {
      StrayInTime(g, delay, now, pollTime);
      LastFrame(k, g, k1, 1);
    } else {
      StrayTooLate(g, delay, now, pollTime);
      StrayInTime(g, 0, now + delay, pollTime);
      FrameAfterIdle(k, g, P.Kernel(Encode(g), Stray(0), now + delay, pollTime), k1);
    }
  }

  // ---------------------------------------------------------------------------------------
  // The frames around a loss
  // ---------------------------------------------------------------------------------------

  /** The rounds before the last fit the stream; the last fits what they have left. */
  lemma {:induction false} CourseSplit(k: P.Kernel, init: Receives, final: RecvEnd)
    requires Course(k.incoming, Snoc(init, final))
    ensures Course(k.incoming, init)
    ensures var b := LastKernel(k, init).incoming; Agrees(Decode(b), final.result, b, final.kernel.incoming)
    decreases init
  {
    if init.Cons? {
      CourseSplit(init.head.kernel, init.tail, final);
    }
  }

  lemma FrameFirst(f: Frame, frames: seq<Frame>, rest: Intake)
    ensures After([f], After(frames, rest)) == After([f] + frames, rest)
  {
    assert [f] + (frames + rest.frames) == ([f] + frames) + rest.frames;
  }

  /** What is taken in m rounds after those of a track that goes on. */
  ghost predicate Splits(x: Track, m: nat) {
    ServeRun(true, x.k, Length(x.init) + 1 + m)
    == After(Gathered(x.k, Snoc(x.init, x.final)).frames, ServeRun(true, x.final.kernel, m))
  }

  lemma SplitsLast(x: Track, m: nat)
    requires IsTrack(x) && x.init.Nil? && GoesOn(x.final.result)
    ensures Splits(x, m)
  {
    var last := ServeRun(true, x.final.kernel, m);
    TrackFinal(x);
    ServeUnfolds(x.k, m);
    assert [] + last.frames == last.frames;
  }

  lemma SplitsFirst(x: Track, m: nat)
    requires x.init.Cons? && x.init.head == RecvRun(x.k, POLL_MS) && GoesOn(x.init.head.result)
    requires Splits(Track(x.init.head.kernel, x.init.tail, x.final), m)
    ensures Splits(x, m)
  {
    var left := Length(x.init.tail) + 1 + m;
    ServeUnfolds(x.k, left);
    SplitJoins(x, ServeRun(true, x.init.head.kernel, left), ServeRun(true, x.final.kernel, m));
    assert Length(x.init) + 1 + m == left + 1;
  }

  lemma SplitJoins(x: Track, inner: Intake, last: Intake)
    requires x.init.Cons? && GoesOn(x.init.head.result)
    requires inner == After(Gathered(x.init.head.kernel, Snoc(x.init.tail, x.final)).frames, last)
    ensures Onto(x.init.head, inner) == After(Gathered(x.k, Snoc(x.init, x.final)).frames, last)
  {
    if x.init.head.result.Received? {
      FrameFirst(x.init.head.result.frame, Gathered(x.init.head.kernel, Snoc(x.init.tail, x.final)).frames, last);
    }
  }

  lemma {:induction false} ServeRunSplit(x: Track, m: nat)
    requires IsTrack(x) && GoesOn(x.final.result)
    ensures Splits(x, m)
    decreases x.init
  {
    match x.init
    case Nil => SplitsLast(x, m);
    case Cons(r, later) =>
      TrackTail(x);
      ServeRunSplit(Track(r.kernel, later, x.final), m);
      SplitsFirst(x, m);
  }

  lemma {:induction false} IdleTakesNothing(k: P.Kernel, init: Receives, final: RecvEnd)
    requires AllGoOn(init) && final.result == RecvFailed(P.Timeout)
    ensures Gathered(k, Snoc(init, final)).frames == Gathered(k, init).frames
    ensures Gathered(k, init).last == None && Gathered(k, init).kernel == LastKernel(k, init)
    decreases init
  {
    if init.Cons? {
      IdleTakesNothing(init.head.kernel, init.tail, final);
    }
  }

  /** The frames taken in the rounds of a loss and the two rounds after it. */
  lemma FramesAroundLoss(y: Track, g: Frame)
    requires IsTrack(y) && y.final.result == RecvFailed(P.Timeout) && ServeRun(true, y.final.kernel, 2).frames == [g]
    ensures ServeRun(true, y.k, Length(y.init) + 3).frames == Gathered(y.k, y.init).frames + [g]
  {
    IdleTakesNothing(y.k, y.init, y.final);
    ServeRunSplit(y, 2);
  }

  /** The frames taken before a loss, and the stream from there on. */
  lemma StreamAtLoss(y: Track)
    requires IsTrack(y) && Kept(y.k.incoming, y.init) && y.final.result == RecvFailed(P.Timeout)
    ensures ParseAll(y.k.incoming) == Gathered(y.k, y.init).frames + ParseAll(LastKernel(y.k, y.init).incoming)
  {
    ArrivalsCourse(y.k, Length(y.init) + 1);
    CourseSplit(y.k, y.init, y.final);
    IntakeFromStream(y.k, y.init);
    IdleTakesNothing(y.k, y.init, y.final);
  }

  /** A course that loses bytes, and then a frame comes that is not the stream's. */
  lemma LossShows(k: P.Kernel, n: nat, y: Track, g: Frame)
    requires k == y.k && n == Length(y.init)
    requires IsTrack(y) && y.final.result == RecvFailed(P.Timeout) && Kept(y.k.incoming, y.init)
    requires !StartsWith(ParseAll(LastKernel(y.k, y.init).incoming), [g])
    requires ServeRun(true, y.final.kernel, 2).frames == [g]
    ensures !TakesStream(k, n + 3)
  {
    FramesAroundLoss(y, g);
    StreamAtLoss(y);
    NotPrefix(Gathered(y.k, y.init).frames, ParseAll(LastKernel(y.k, y.init).incoming), [g]);
  }

  lemma {:induction false} NotPrefix(fs: seq<Frame>, rest: seq<Frame>, more: seq<Frame>)
    ensures StartsWith(fs + rest, fs + more) <==> StartsWith(rest, more)
    decreases |fs|
  {
    if fs == [] {
      assert [] + rest == rest && [] + more == more;
    } else {
      NotPrefix(fs[1..], rest, more);
      assert (fs + rest)[1..] == fs[1..] + rest && (fs + more)[1..] == fs[1..] + more;
    }
  }

  lemma TakenByTimeout(before: seq<Byte>, r: RecvEnd)
    requires Loses(before, r) && Agrees(Decode(before), r.result, before, r.kernel.incoming)
    ensures Taken(before, r.kernel.incoming) != []
  {}

  /** A loss has taken something. */
  lemma LossTakes(x: Track)
    requires IsTrack(x) && Loses(LastKernel(x.k, x.init).incoming, x.final)
    ensures Taken(LastKernel(x.k, x.init).incoming, x.final.kernel.incoming) != []
  {
    ArrivalsCourse(x.k, Length(x.init) + 1);
    CourseSplit(x.k, x.init, x.final);
    TakenByTimeout(LastKernel(x.k, x.init).incoming, x.final);
  }

  lemma {:induction false} SnocFacts(k: P.Kernel, rs: Receives, r: RecvEnd)
    ensures Length(Snoc(rs, r)) == Length(rs) + 1 && LastKernel(k, Snoc(rs, r)) == r.kernel
    decreases rs
  {
    if rs.Cons? {
      SnocFacts(rs.head.kernel, rs.tail, r);
    }
  }

  lemma {:induction false} SeenSnoc(rs: Receives, r: RecvEnd, rs': Receives, r': RecvEnd)
    requires Seen(rs) == Seen(rs') && Seen(Cons(r, Nil)) == Seen(Cons(r', Nil))
    ensures Seen(Snoc(rs, r)) == Seen(Snoc(rs', r')) && Length(rs) == Length(rs')
    decreases rs
  {
    if rs.Cons? {
      SeenSnoc(rs.tail, r, rs'.tail, r');
    }
  }

  lemma SameHistory(x: Track, y: Track, t: seq<Byte>, q: seq<P.Poll>)
    requires Replayed(x, y, t, q)
    ensures Length(y.init) == Length(x.init) && Length(Snoc(x.init, x.final)) == Length(x.init) + 1
    ensures HistoryOf(x.k, Snoc(x.init, x.final)) == HistoryOf(y.k, Snoc(y.init, y.final))
  {
    SnocFacts(x.k, x.init, x.final);
    SnocFacts(y.k, y.init, y.final);
    SeenSnoc(x.init, x.final, y.init, y.final);
    TakenIs(y.k.incoming, Taken(x.k.incoming, x.final.kernel.incoming), t);
    SameUsed(y.k.polls, x.k.polls, x.final.kernel.polls, q);
  }

  lemma ReplayIsSame(x: Track, y: Track, t: seq<Byte>, q: seq<P.Poll>)
    requires IsTrack(x) && IsTrack(y) && Replayed(x, y, t, q)
    ensures Length(y.init) == Length(x.init)
    ensures SameStart(x.k, y.k, Length(x.init) + 1)
  {
    SameHistory(x, y, t, q);
  }

  lemma SameUsed(start: seq<P.Poll>, before: seq<P.Poll>, after: seq<P.Poll>, q: seq<P.Poll>)
    requires Leads(start, before, after, q)
    ensures |q| <= |start| && start[..|start| - |q|] == before[..|before| - |after|]
  {}

  /**
    The condition of IntakeIsStream is needed: once an interval has run out inside a frame of
    which more is to come, the stream can go on, after the same rounds, in such a way that the
    loop takes a frame which is not one of the stream.
  */
  lemma LossMisleads(k: P.Kernel, rounds: nat) returns (other: P.Kernel, n: nat)
    requires !KeepsFrames(k, rounds)
    ensures n < rounds && SameStart(k, other, n + 1)
    ensures !TakesStream(other, n + 3)
  {
    var x := FirstLoss(k, rounds);
    other, n := Misleading(k, x);
  }

  lemma Misleading(k: P.Kernel, x: Track) returns (other: P.Kernel, n: nat)
    requires x.k == k && IsTrack(x) && Kept(k.incoming, x.init) && Loses(LastKernel(k, x.init).incoming, x.final)
    ensures n == Length(x.init) && SameStart(k, other, n + 1) && !TakesStream(other, n + 3)
  {
    LossTakes(x);
    var g, t := Stranger(Taken(LastKernel(x.k, x.init).incoming, x.final.kernel.incoming));
    n := Length(x.init);
    var y := ReplayWith(k, x, n, g, t);
    other := y.k;
    LossShows(other, n, y, g);
  }

  /** Bytes from which the loop takes a frame, but not if c is in front of them. */
  lemma Stranger(c: seq<Byte>) returns (g: Frame, t: seq<Byte>)
    requires c != []
    ensures !StartsWith(ParseAll(c + t), [g]) && AlwaysTaken(t, g)
  {
    g := Misread(c);
    t := Encode(g);
    forall delay, now, pollTime
      ensures ServeRun(true, P.Kernel(t, Stray(delay), now, pollTime), 2).frames == [g]
    {
      StrayIsTaken(g, delay, now, pollTime);
    }
  }

  ghost predicate AlwaysTaken(t: seq<Byte>, g: Frame) {
    forall delay, now, pollTime :: ServeRun(true, P.Kernel(t, Stray(delay), now, pollTime), 2).frames == [g]
  }

  /** The same rounds with the bytes t coming after them. */
  lemma ReplayWith(k: P.Kernel, x: Track, n: nat, g: Frame, t: seq<Byte>) returns (y: Track)
    requires k == x.k && n == Length(x.init)
    requires IsTrack(x) && Kept(x.k.incoming, x.init) && Loses(LastKernel(x.k, x.init).incoming, x.final) && AlwaysTaken(t, g)
    ensures IsTrack(y) && y.final.result == x.final.result && Kept(y.k.incoming, y.init)
    ensures LastKernel(y.k, y.init).incoming == Taken(LastKernel(x.k, x.init).incoming, x.final.kernel.incoming) + t
    ensures ServeRun(true, y.final.kernel, 2).frames == [g]
    ensures Length(y.init) == n && SameStart(k, y.k, n + 1)
  {
    var delay := P.Delay(x.final.kernel.polls);
    y := ReplayRounds(x, t, Stray(delay));
    ReplayIsSame(x, y, t, Stray(delay));
  }
}
