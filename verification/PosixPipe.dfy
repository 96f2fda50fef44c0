/**
  The blocking read and write loops of the POSIX pipe. The kernel is the part of the object
  that answers system calls: a script of answers for every poll, recv and send to come, the
  bytes the peer has still to deliver, and a clock. Contracts hold for every script.
*/
module PosixPipe {
  import opened Words

  const INT_MAX: int := 0x7FFF_FFFF
  const NANOS_PER_MILLI: int := 1_000_000

  datatype ErrorCode =
    | SystemError | AccessDenied | NotFound | NotConnected | ConnectionReset | Timeout
    | BrokenPipe | Overflow | InvalidMessage | InvalidArgument

  datatype Errno = EINTR | EPIPE | ECONNRESET | ENOENT | ECONNREFUSED | EACCES | ETIMEDOUT | EOTHER

  function MapErrno(e: Errno): ErrorCode {
    match e
    case EPIPE => BrokenPipe
    case ECONNRESET => BrokenPipe
    case ENOENT => NotFound
    case ECONNREFUSED => NotFound
    case EACCES => AccessDenied
    case ETIMEDOUT => Timeout
    case EINTR => SystemError
    case EOTHER => SystemError
  }

  datatype RecvAnswer = Bytes(n: nat) | RecvFails(e: Errno)

  datatype PollAnswer = Expires | PollFails(e: Errno) | Readable(recv: RecvAnswer)

  /**
    Time that passes before the clock is next read, until poll is entered, and inside poll;
    then the answer. The time before a reading passes once, whether or not poll is entered.
  */
  datatype Poll = Poll(before: nat, between: nat, wait: nat, answer: PollAnswer)

  datatype SendAnswer = Accepts(n: nat) | SendFails(e: Errno)

  /** Blocked: the script ended while the call was still waiting for the kernel. */
  datatype IoResult = Done | Failed(code: ErrorCode) | Blocked

  predicate IsFault(a: PollAnswer) {
    match a
    case PollFails(e) => e != EINTR
    case Readable(RecvFails(e)) => e != EINTR
    case _ => false
  }

  /** How many answers report an error that is not simply retried. */
  function Faults(polls: seq<Poll>): nat {
    if polls == [] then 0 else (if IsFault(polls[0].answer) then 1 else 0) + Faults(polls[1..])
  }

  /** How many answers deliver bytes. */
  function Deliveries(polls: seq<Poll>): nat {
    if polls == [] then 0
    else (if polls[0].answer.Readable? && polls[0].answer.recv.Bytes? then 1 else 0) + Deliveries(polls[1..])
  }

  /** The conversion from 64-bit milliseconds to int, on a two's complement machine. */
  function ToInt32(v: int): (r: int)
    ensures -INT_MAX - 1 <= r <= INT_MAX
    ensures -INT_MAX - 1 <= v <= INT_MAX ==> r == v
    ensures (v - r) % TWO_32 == 0
  {
    var m := v % TWO_32;
    if m > INT_MAX then m - TWO_32 else m
  }

  /** Zero means to wait without limit. */
  function PollTimeout(timeoutMs: int): int {
    if timeoutMs == 0 then -1 else ToInt32(timeoutMs)
  }

  /** What a system call, or its absence, can raise. */
  predicate IsIoError(code: ErrorCode) { !code.Overflow? && !code.InvalidMessage? && !code.InvalidArgument? }

  datatype PollReturn = PollBlocked | PollExpired | PollError(e: Errno) | PollReadable(recv: RecvAnswer)

  /** An expiry nobody asked for reads as an interruption. */
  function AnswerOf(a: PollAnswer, timeoutMs: int): PollReturn {
    match a
    case Expires => if timeoutMs < 0 then PollError(EINTR) else PollExpired
    case PollFails(e) => PollError(e)
    case Readable(r) => PollReadable(r)
  }

  datatype RecvReturn = RecvError(e: Errno) | Chunk(bytes: seq<Byte>)

  // ---------------------------------------------------------------------------------------
  // What a script makes of a read
  // ---------------------------------------------------------------------------------------

  /** The receiving side of the kernel: what the peer delivers, the script, the clock, time spent in poll. */
  datatype Kernel = Kernel(incoming: seq<Byte>, polls: seq<Poll>, now: nat, pollTime: nat)

  datatype PollEnd = PollEnd(ret: PollReturn, kernel: Kernel)

  /** How a read ends, with the part of the buffer that was filled. */
  datatype ReadEnd = ReadEnd(io: IoResult, data: seq<Byte>, kernel: Kernel)

  /**
    The kernel's poll: it neither overstays a finite timeout nor reports its expiry early,
    and never expires without one.
  */
  function PollRun(k: Kernel, timeoutMs: int): PollEnd {
    if k.polls == [] then PollEnd(PollBlocked, k)
    else
      var p := k.polls[0];
      var limit := timeoutMs * NANOS_PER_MILLI;
      var elapsed := if timeoutMs < 0 then p.wait else if p.answer.Expires? then limit else Min(p.wait, limit);
      PollEnd(AnswerOf(p.answer, timeoutMs),
              Kernel(k.incoming, k.polls[1..], k.now + p.between + elapsed, k.pollTime + elapsed))
  }

  function Delay(polls: seq<Poll>): nat {
    if polls == [] then 0 else polls[0].before
  }

  /** The script once its next delay has passed. */
  function Soon(polls: seq<Poll>): seq<Poll> {
    if polls == [] then polls else polls[0 := polls[0].(before := 0)]
  }

  /** The clock at the point where the loop reads it. */
  function ClockRun(k: Kernel): Kernel {
    k.(now := k.now + Delay(k.polls), polls := Soon(k.polls))
  }

  /** One wait: what is left until the deadline bounds the poll. */
  function UntilRun(k: Kernel, timeoutMs: int, deadline: int): PollEnd {
    if timeoutMs < 0 then PollRun(k, timeoutMs)
    else
      var k1 := ClockRun(k);
      var left := if deadline < k1.now then -1 else (deadline - k1.now) / NANOS_PER_MILLI;
      if left <= 0 then PollEnd(PollExpired, k1) else PollRun(k1, if left > INT_MAX then INT_MAX else left)
  }

  /** recv gives at least one byte unless the stream is at its end, and never more than asked for. */
  function ChunkSize(n: nat, size: nat, available: nat): nat {
    Min(Min(if n == 0 then 1 else n, size), available)
  }

  /** What an answer means for the read: its end, another turn, or c bytes. */
  datatype Turn = Ends(io: IoResult) | Again | Gets(c: nat)

  function TurnOf(ret: PollReturn, size: nat, available: nat): Turn {
    match ret
    case PollBlocked => Ends(Blocked)
    case PollExpired => Ends(Failed(Timeout))
    case PollError(e) => if e == EINTR then Again else Ends(Failed(MapErrno(e)))
    case PollReadable(RecvFails(e)) => if e == EINTR then Again else Ends(Failed(MapErrno(e)))
    case PollReadable(Bytes(n)) =>
      var c := ChunkSize(n, size, available);
      if c == 0 then Ends(Failed(ConnectionReset)) else Gets(c)
  }

  function ReadRun(k: Kernel, size: nat, timeoutMs: int, deadline: int): ReadEnd
    decreases |k.polls|
  {
    if size == 0 then ReadEnd(Done, [], k)
    else
      var end := UntilRun(k, timeoutMs, deadline);
      match TurnOf(end.ret, size, |k.incoming|)
      case Ends(io) => ReadEnd(io, [], end.kernel)
      case Again => ReadRun(end.kernel, size, timeoutMs, deadline)
      case Gets(c) =>
        Then(k.incoming[..c], ReadRun(end.kernel.(incoming := k.incoming[c..]), size - c, timeoutMs, deadline))
  }

  function Then(data: seq<Byte>, rest: ReadEnd): ReadEnd {
    rest.(data := data + rest.data)
  }

  /** A read of which data has been filled, and then more. */
  lemma ThenThen(whole: ReadEnd, data: seq<Byte>, more: seq<Byte>, rest: ReadEnd)
    requires whole == Then(data, Then(more, rest))
    ensures whole == Then(data + more, rest)
  {
    assert data + (more + rest.data) == (data + more) + rest.data;
  }

  lemma SoonCounts(polls: seq<Poll>)
    ensures |Soon(polls)| == |polls| && (polls != [] ==> Soon(polls)[1..] == polls[1..] && Soon(polls)[0].answer == polls[0].answer)
    ensures Faults(Soon(polls)) == Faults(polls) && Deliveries(Soon(polls)) == Deliveries(polls)
  {}

  lemma UntilShape(k: Kernel, timeoutMs: int, deadline: int)
    ensures var end := UntilRun(k, timeoutMs, deadline);
            && end.kernel.incoming == k.incoming
            && (end.ret.PollBlocked? ==> end.kernel.polls == k.polls == [])
            && (end.ret.PollExpired? ==> timeoutMs >= 0)
            && (end.ret.PollError? || end.ret.PollReadable? ==> k.polls != [] && end.kernel.polls == k.polls[1..])
            && (end.ret.PollError? || end.ret.PollReadable? ==>
                  end.ret == AnswerOf(k.polls[0].answer, -1) || end.ret == AnswerOf(k.polls[0].answer, 0))
            && (end.ret.PollExpired? ==>
                  || end.kernel.polls == Soon(k.polls)
                  || (k.polls != [] && end.kernel.polls == k.polls[1..] && k.polls[0].answer.Expires?))
  {
    SoonCounts(k.polls);
  }

  /** A wait asks the kernel exactly if it has no limit or at least a millisecond is left at the clock. */
  lemma UntilPolls(k: Kernel, timeoutMs: int, deadline: int)
    ensures var end := UntilRun(k, timeoutMs, deadline);
            if timeoutMs < 0 || deadline - (k.now + Delay(k.polls)) >= NANOS_PER_MILLI then
              if k.polls == [] then end.ret == PollBlocked else end.kernel.polls == k.polls[1..]
            else end.ret == PollExpired && end.kernel.polls == Soon(k.polls) && end.kernel.pollTime == k.pollTime
  {
    SoonCounts(k.polls);
  }

  lemma ThenWhole(whole: ReadEnd)
    ensures Then([], whole) == whole
  {
    assert [] + whole.data == whole.data;
  }

  lemma ThenNothing(whole: ReadEnd, data: seq<Byte>, io: IoResult, k: Kernel)
    requires whole == Then(data, ReadEnd(io, [], k))
    ensures whole == ReadEnd(io, data, k)
  {
    assert data + [] == data;
  }

  /** One turn more of a read. */
  lemma TurnFills(whole: ReadEnd, data: seq<Byte>, k: Kernel, size: nat, timeoutMs: int, deadline: int)
    requires size > 0 && whole == Then(data, ReadRun(k, size, timeoutMs, deadline))
    ensures var end := UntilRun(k, timeoutMs, deadline);
            match TurnOf(end.ret, size, |k.incoming|)
            case Ends(io) => whole == ReadEnd(io, data, end.kernel)
            case Again => whole == Then(data, ReadRun(end.kernel, size, timeoutMs, deadline))
            case Gets(c) =>
              whole == Then(data + k.incoming[..c],
                            ReadRun(end.kernel.(incoming := k.incoming[c..]), size - c, timeoutMs, deadline))
  {
    var end := UntilRun(k, timeoutMs, deadline);
    match TurnOf(end.ret, size, |k.incoming|)
    case Ends(io) => ThenNothing(whole, data, io, end.kernel);
    case Again =>
    case Gets(c) =>
      ThenThen(whole, data, k.incoming[..c],
               ReadRun(end.kernel.(incoming := k.incoming[c..]), size - c, timeoutMs, deadline));
  }

  lemma ReadNothing(k: Kernel, timeoutMs: int, deadline: int)
    ensures ReadRun(k, 0, timeoutMs, deadline) == ReadEnd(Done, [], k)
  {}

  lemma UntilKeepsStream(k: Kernel, timeoutMs: int, deadline: int)
    ensures UntilRun(k, timeoutMs, deadline).kernel.incoming == k.incoming
  {}

  /** Every turn but the last uses one answer up; only an error ends the read with one fault less. */
  lemma TurnShape(k: Kernel, size: nat, timeoutMs: int, deadline: int)
    requires size > 0
    ensures var end := UntilRun(k, timeoutMs, deadline);
            var rest := end.kernel.polls;
            match TurnOf(end.ret, size, |k.incoming|)
            case Ends(io) =>
              && !io.Done? && Faults(rest) <= Faults(k.polls)
              && Deliveries(rest) + (if io == Failed(ConnectionReset) then 1 else 0) >= Deliveries(k.polls)
              && (io.Failed? ==> IsIoError(io.code) && !io.code.NotConnected?)
              && (io == Failed(ConnectionReset) ==> k.incoming == [])
              && (io == Failed(Timeout) ==> (end.ret.PollExpired? && timeoutMs >= 0) || Faults(rest) < Faults(k.polls))
              && (io.Failed? && Faults(rest) == Faults(k.polls) ==> io.code.ConnectionReset? || io.code.Timeout?)
              && (io == Blocked ==> rest == k.polls == [])
            case Again =>
              |rest| < |k.polls| && Faults(rest) == Faults(k.polls) && Deliveries(rest) == Deliveries(k.polls)
            case Gets(c) =>
              && |rest| < |k.polls| && Faults(rest) == Faults(k.polls) && Deliveries(rest) + 1 == Deliveries(k.polls)
              && 0 < c <= size && c <= |k.incoming|
  {
    UntilShape(k, timeoutMs, deadline);
    SoonCounts(k.polls);
  }

  lemma TurnProgress(k: Kernel, size: nat, timeoutMs: int, deadline: int)
    requires size > 0
    ensures var end := UntilRun(k, timeoutMs, deadline);
            match TurnOf(end.ret, size, |k.incoming|)
            case Ends(io) => !io.Done?
            case Again => |end.kernel.polls| < |k.polls|
            case Gets(c) => |end.kernel.polls| < |k.polls| && 0 < c <= size && c <= |k.incoming|
  {
    TurnShape(k, size, timeoutMs, deadline);
  }

  /** Success delivers exactly the bytes asked for, in stream order; nothing else is lost. */
  ghost predicate Delivers(stream: seq<Byte>, size: nat, end: ReadEnd) {
    && end.data + end.kernel.incoming == stream && |end.data| <= size
    && (end.io.Done? <==> |end.data| == size)
    && (end.io == Failed(ConnectionReset) ==> end.kernel.incoming == [])
    && (end.io == Blocked ==> end.kernel.polls == [])
  }

  lemma ThenDelivers(stream: seq<Byte>, size: nat, c: nat, rest: ReadEnd)
    requires c <= |stream| && c <= size && Delivers(stream[c..], size - c, rest)
    ensures Delivers(stream, size, Then(stream[..c], rest))
  {
    assert (stream[..c] + rest.data) + rest.kernel.incoming == stream[..c] + (rest.data + rest.kernel.incoming);
  }

  lemma EndDelivers(k: Kernel, size: nat, io: IoResult)
    requires size > 0 && !io.Done?
    requires io == Failed(ConnectionReset) ==> k.incoming == []
    requires io == Blocked ==> k.polls == []
    ensures Delivers(k.incoming, size, ReadEnd(io, [], k))
  {
    assert [] + k.incoming == k.incoming;
  }

  lemma {:induction false} ReadDelivers(k: Kernel, size: nat, timeoutMs: int, deadline: int)
    ensures Delivers(k.incoming, size, ReadRun(k, size, timeoutMs, deadline))
    decreases |k.polls|
  {
    if size == 0 {
      assert [] + k.incoming == k.incoming;
    } else {
      var end := UntilRun(k, timeoutMs, deadline);
      UntilKeepsStream(k, timeoutMs, deadline);
      TurnShape(k, size, timeoutMs, deadline);
      match TurnOf(end.ret, size, |k.incoming|)
      case Ends(io) => EndDelivers(end.kernel, size, io);
      case Again => ReadDelivers(end.kernel, size, timeoutMs, deadline);
      case Gets(c) =>
        var k1 := end.kernel.(incoming := k.incoming[c..]);
        ReadDelivers(k1, size - c, timeoutMs, deadline);
        ThenDelivers(k.incoming, size, c, ReadRun(k1, size - c, timeoutMs, deadline));
    }
  }

  // What is left of a script ------------------------------------------------------------------

  /** `rest` is what is left of `polls`, up to the delay in front of it. */
  ghost predicate Later(polls: seq<Poll>, rest: seq<Poll>)
    decreases |polls|
  {
    Soon(rest) == Soon(polls) || (polls != [] && Later(polls[1..], rest))
  }

  /** The last answer that was used when `left` of them are left. */
  function LastUsed(polls: seq<Poll>, left: nat): Option<PollAnswer> {
    if |polls| <= left then None
    else if |polls| == left + 1 then Some(polls[0].answer)
    else LastUsed(polls[1..], left)
  }

  lemma SoonSame(a: seq<Poll>, b: seq<Poll>)
    requires Soon(a) == Soon(b)
    ensures |a| == |b| && (a != [] ==> a[1..] == b[1..] && a[0].answer == b[0].answer)
  {
    SoonCounts(a);
    SoonCounts(b);
  }

  lemma {:induction false} LaterShorter(a: seq<Poll>, b: seq<Poll>)
    requires Later(a, b)
    ensures |b| <= |a| && (|b| < |a| ==> Later(a[1..], b))
    decreases |a|
  {
    if Soon(a) == Soon(b) {
      SoonSame(a, b);
    } else {
      LaterShorter(a[1..], b);
    }
  }

  lemma {:induction false} LastUsedLater(a: seq<Poll>, b: seq<Poll>, left: nat)
    requires Later(a, b) && left < |b|
    ensures LastUsed(a, left) == LastUsed(b, left)
    decreases |a|
  {
    LaterShorter(a, b);
    if |b| < |a| {
      LastUsedLater(a[1..], b, left);
    } else {
      SameLength(a, b);
      SoonSame(a, b);
    }
  }

  lemma SameLength(a: seq<Poll>, b: seq<Poll>)
    requires Later(a, b) && |a| == |b|
    ensures Soon(a) == Soon(b)
  {
    if Soon(a) != Soon(b) {
      LaterShorter(a[1..], b);
    }
  }

  lemma {:induction false} LaterLater(a: seq<Poll>, b: seq<Poll>, c: seq<Poll>)
    requires Later(a, b) && Later(b, c)
    ensures Later(a, c)
    decreases |a|
  {
    LaterShorter(a, b);
    if |b| < |a| {
      LaterLater(a[1..], b, c);
    } else {
      SameLength(a, b);
      SoonSame(a, b);
    }
  }

  lemma OneLater(polls: seq<Poll>)
    ensures Later(polls, polls) && Later(polls, Soon(polls)) && (polls != [] ==> Later(polls, polls[1..]))
  {
    SoonCounts(polls);
    assert Soon(Soon(polls)) == Soon(polls);
  }

  /** A recv that reported an error which is not simply retried. */
  predicate RecvFault(last: Option<PollAnswer>) {
    last.Some? && last.value.Readable? && last.value.recv.RecvFails? && last.value.recv.e != EINTR
  }

  /** A read takes the connection for lost at the end of the stream and when recv fails. */
  predicate Disconnects(polls: seq<Poll>, left: nat, io: IoResult) {
    io.Failed? && (io.code.ConnectionReset? || RecvFault(LastUsed(polls, left)))
  }

  // Failures ----------------------------------------------------------------------------------

  /** The errno that an answer reports, unless it is simply retried. */
  function ErrnoOf(a: PollAnswer): Option<Errno> {
    match a
    case PollFails(e) => if e == EINTR then None else Some(e)
    case Readable(RecvFails(e)) => if e == EINTR then None else Some(e)
    case _ => None
  }

  /** The errno in the last answer used. */
  function ErrorUsed(polls: seq<Poll>, left: nat): Option<Errno> {
    match LastUsed(polls, left)
    case None => None
    case Some(a) => ErrnoOf(a)
  }

  /** The code that an errno is raised as. */
  ghost predicate RaisedAs(e: Errno, code: ErrorCode) {
    && (e == EPIPE || e == ECONNRESET ==> code == BrokenPipe)
    && (e == ENOENT || e == ECONNREFUSED ==> code == NotFound)
    && (e == EACCES ==> code == AccessDenied)
    && (e == ETIMEDOUT ==> code == Timeout)
    && (e == EINTR || e == EOTHER ==> code == SystemError)
  }

  /** The last answer used reports an error, and the code is the one due for it. */
  ghost predicate FaultRaises(polls: seq<Poll>, left: nat, code: ErrorCode) {
    ErrorUsed(polls, left).Some? && RaisedAs(ErrorUsed(polls, left).value, code)
  }

  /**
    Why a read ends as it does: at most one answer that reports an error was used, and then it
    was the last one and gives the code; otherwise only an expired timeout and the end of the
    stream make a read fail.
  */
  ghost predicate FailsRight(polls: seq<Poll>, rest: seq<Poll>, limited: bool, io: IoResult) {
    && Later(polls, rest)
    && (if io.Failed? && Faults(rest) != Faults(polls) then
          Faults(rest) == Faults(polls) - 1 && FaultRaises(polls, |rest|, io.code)
        else Faults(rest) == Faults(polls))
    && (io.Failed? && Faults(rest) == Faults(polls) ==> io.code.ConnectionReset? || (io.code.Timeout? && limited))
  }

  lemma FailsLater(a: seq<Poll>, b: seq<Poll>, c: seq<Poll>, limited: bool, io: IoResult)
    requires Later(a, b) && Faults(a) == Faults(b) && FailsRight(b, c, limited, io)
    ensures FailsRight(a, c, limited, io)
  {
    LaterLater(a, b, c);
    LaterShorter(b, c);
    if |c| < |b| {
      LaterOne(a, b, |c|);
    }
  }

  lemma LaterOne(a: seq<Poll>, b: seq<Poll>, left: nat)
    requires Later(a, b) && left < |b|
    ensures LastUsed(a, left) == LastUsed(b, left)
  {
    LastUsedLater(a, b, left);
  }

  /** One turn of a read. */
  lemma TurnFails(k: Kernel, size: nat, timeoutMs: int, deadline: int)
    requires size > 0
    ensures var end := UntilRun(k, timeoutMs, deadline);
            match TurnOf(end.ret, size, |k.incoming|)
            case Ends(io) => FailsRight(k.polls, end.kernel.polls, timeoutMs >= 0, io)
            case _ => Later(k.polls, end.kernel.polls) && Faults(end.kernel.polls) == Faults(k.polls)
  {
    UntilShape(k, timeoutMs, deadline);
    SoonCounts(k.polls);
    OneLater(k.polls);
  }

  /** Every failure has its cause in the script. */
  lemma {:induction false} ReadFails(k: Kernel, size: nat, timeoutMs: int, deadline: int)
    ensures var end := ReadRun(k, size, timeoutMs, deadline);
            && FailsRight(k.polls, end.kernel.polls, timeoutMs >= 0, end.io)
            && (end.io.Failed? ==> IsIoError(end.io.code) && !end.io.code.NotConnected?)
    decreases |k.polls|
  {
    if size == 0 {
      OneLater(k.polls);
    } else {
      var end := UntilRun(k, timeoutMs, deadline);
      TurnShape(k, size, timeoutMs, deadline);
      TurnFails(k, size, timeoutMs, deadline);
      match TurnOf(end.ret, size, |k.incoming|)
      case Ends(io) =>
      case Again =>
        ReadFails(end.kernel, size, timeoutMs, deadline);
        var rest := ReadRun(end.kernel, size, timeoutMs, deadline);
        FailsLater(k.polls, end.kernel.polls, rest.kernel.polls, timeoutMs >= 0, rest.io);
      case Gets(c) =>
        var k1 := end.kernel.(incoming := k.incoming[c..]);
        ReadFails(k1, size - c, timeoutMs, deadline);
        var rest := ReadRun(k1, size - c, timeoutMs, deadline);
        FailsLater(k.polls, k1.polls, rest.kernel.polls, timeoutMs >= 0, rest.io);
    }
  }

  /** A read times out exactly if its timeout expired or the error it met was ETIMEDOUT. */
  lemma ReadTimesOutIff(k: Kernel, size: nat, timeoutMs: int, deadline: int)
    requires deadline - k.now <= INT_MAX * NANOS_PER_MILLI
    ensures var end := ReadRun(k, size, timeoutMs, deadline);
            var faulted := Faults(end.kernel.polls) < Faults(k.polls);
            && (end.io == Failed(Timeout) <==>
                  end.io.Failed? && if faulted then ErrorUsed(k.polls, |end.kernel.polls|) == Some(ETIMEDOUT)
                                    else end.io != Failed(ConnectionReset))
            && (end.io == Failed(Timeout) && !faulted ==> timeoutMs >= 0 && end.kernel.now > deadline - NANOS_PER_MILLI)
            && (end.io == Failed(ConnectionReset) ==> !faulted && end.kernel.incoming == [])
  {
    ReadFails(k, size, timeoutMs, deadline);
    ReadTime(k, size, timeoutMs, deadline);
    ReadDelivers(k, size, timeoutMs, deadline);
  }

  /** The turn that ends a read decides whether the connection is taken for lost. */
  lemma TurnDisconnects(k: Kernel, size: nat, timeoutMs: int, deadline: int)
    requires size > 0
    ensures var end, run := UntilRun(k, timeoutMs, deadline), ReadRun(k, size, timeoutMs, deadline);
            match TurnOf(end.ret, size, |k.incoming|)
            case Ends(io) =>
              Disconnects(k.polls, |end.kernel.polls|, io) <==>
                (end.ret.PollReadable? && end.ret.recv.RecvFails?) || io == Failed(ConnectionReset)
            case _ =>
              Disconnects(k.polls, |run.kernel.polls|, run.io) <==> Disconnects(end.kernel.polls, |run.kernel.polls|, run.io)
  {
    var end := UntilRun(k, timeoutMs, deadline);
    UntilShape(k, timeoutMs, deadline);
    SoonCounts(k.polls);
    match TurnOf(end.ret, size, |k.incoming|)
    case Ends(_) =>
    case Again => LaterEnds(k.polls, end.kernel, size, timeoutMs, deadline);
    case Gets(c) => LaterEnds(k.polls, end.kernel.(incoming := k.incoming[c..]), size - c, timeoutMs, deadline);
  }

  lemma LaterEnds(polls: seq<Poll>, k: Kernel, size: nat, timeoutMs: int, deadline: int)
    requires polls != [] && k.polls == polls[1..] && !RecvFault(Some(polls[0].answer))
    ensures var run := ReadRun(k, size, timeoutMs, deadline);
            Disconnects(polls, |run.kernel.polls|, run.io) <==> Disconnects(k.polls, |run.kernel.polls|, run.io)
  {
    ReadFails(k, size, timeoutMs, deadline);
    LaterShorter(k.polls, ReadRun(k, size, timeoutMs, deadline).kernel.polls);
  }

  /** Every delivery brings at least one byte, or the end of the stream. */
  lemma {:induction false} ReadCounts(k: Kernel, size: nat, timeoutMs: int, deadline: int)
    ensures var end := ReadRun(k, size, timeoutMs, deadline);
            |end.data| + Deliveries(end.kernel.polls) + (if end.io == Failed(ConnectionReset) then 1 else 0) >= Deliveries(k.polls)
    decreases |k.polls|
  {
    if size > 0 {
      var end := UntilRun(k, timeoutMs, deadline);
      TurnShape(k, size, timeoutMs, deadline);
      match TurnOf(end.ret, size, |k.incoming|)
      case Ends(io) =>
      case Again => ReadCounts(end.kernel, size, timeoutMs, deadline);
      case Gets(c) => ReadCounts(end.kernel.(incoming := k.incoming[c..]), size - c, timeoutMs, deadline);
    }
  }

  function NotNegative(x: int): nat { if x < 0 then 0 else x }

  lemma UntilTime(k: Kernel, timeoutMs: int, deadline: int)
    ensures var end := UntilRun(k, timeoutMs, deadline);
            && end.kernel.now - k.now >= end.kernel.pollTime - k.pollTime >= 0
            && (timeoutMs >= 0 ==>
                  && end.kernel.pollTime - k.pollTime <= NotNegative(deadline - k.now)
                  && (end.kernel.pollTime - k.pollTime) + NotNegative(deadline - end.kernel.now) <= NotNegative(deadline - k.now))
            && (end.ret.PollExpired? && deadline - k.now <= INT_MAX * NANOS_PER_MILLI ==>
                  end.kernel.now > deadline - NANOS_PER_MILLI)
  {}

  /** The time in poll stays within the deadline over all chunks; a timeout is never a millisecond early. */
  lemma {:induction false} ReadTime(k: Kernel, size: nat, timeoutMs: int, deadline: int)
    requires deadline - k.now <= INT_MAX * NANOS_PER_MILLI
    ensures var end := ReadRun(k, size, timeoutMs, deadline);
            && end.kernel.now - k.now >= end.kernel.pollTime - k.pollTime >= 0
            && (timeoutMs >= 0 ==> end.kernel.pollTime - k.pollTime <= NotNegative(deadline - k.now))
            && (end.io == Failed(Timeout) && Faults(end.kernel.polls) == Faults(k.polls) ==>
                  end.kernel.now > deadline - NANOS_PER_MILLI)
    decreases |k.polls|
  {
    if size > 0 {
      var end := UntilRun(k, timeoutMs, deadline);
      TurnShape(k, size, timeoutMs, deadline);
      UntilTime(k, timeoutMs, deadline);
      match TurnOf(end.ret, size, |k.incoming|)
      case Ends(io) =>
      case Again => ReadTime(end.kernel, size, timeoutMs, deadline);
      case Gets(c) => ReadTime(end.kernel.(incoming := k.incoming[c..]), size - c, timeoutMs, deadline);
    }
  }

  /**
    What a read with the given timeout promises, whatever the script: the bytes asked for in
    stream order, a bounded time in poll, and a cause for every failure. Blocked means that
    the deliveries of the script did not suffice.
  */
  ghost predicate ReadsRight(k: Kernel, size: nat, timeoutMs: int, end: ReadEnd) {
    && end.data + end.kernel.incoming == k.incoming && |end.data| <= size
    && (end.io.Done? <==> |end.data| == size)
    && (end.io == Failed(ConnectionReset) ==> end.kernel.incoming == [])
    && (end.io == Blocked ==> end.kernel.polls == [])
    && |end.data| + Deliveries(end.kernel.polls) + (if end.io == Failed(ConnectionReset) then 1 else 0) >= Deliveries(k.polls)
    && FailsRight(k.polls, end.kernel.polls, timeoutMs >= 0, end.io)
    && (end.io.Failed? ==> IsIoError(end.io.code) && !end.io.code.NotConnected?)
    && end.kernel.now - k.now >= end.kernel.pollTime - k.pollTime >= 0
    && (timeoutMs >= 0 ==> end.kernel.pollTime - k.pollTime <= timeoutMs * NANOS_PER_MILLI)
    && (end.io == Failed(Timeout) && Faults(end.kernel.polls) == Faults(k.polls) ==>
          end.kernel.now - k.now > (timeoutMs - 1) * NANOS_PER_MILLI)
  }

  lemma ReadRunIsRight(k: Kernel, size: nat, timeoutMs: int)
    requires timeoutMs <= INT_MAX
    ensures ReadsRight(k, size, timeoutMs, ReadRun(k, size, timeoutMs, k.now + timeoutMs * NANOS_PER_MILLI))
  {
    var deadline := k.now + timeoutMs * NANOS_PER_MILLI;
    ReadDelivers(k, size, timeoutMs, deadline);
    ReadFails(k, size, timeoutMs, deadline);
    ReadCounts(k, size, timeoutMs, deadline);
    ReadTime(k, size, timeoutMs, deadline);
  }

  /** A read that starts now with the timeout that the interface gives it. */
  function ReadAllRun(k: Kernel, size: nat, timeoutMs: int): ReadEnd {
    ReadRun(k, size, PollTimeout(timeoutMs), k.now + PollTimeout(timeoutMs) * NANOS_PER_MILLI)
  }

  /** Without a limit only ETIMEDOUT makes a read time out; a limit is kept, and used up when it expires. */
  ghost predicate KeepsLimit(k: Kernel, timeoutMs: int, io: IoResult, k': Kernel) {
    && (timeoutMs == 0 && io == Failed(Timeout) ==> ErrorUsed(k.polls, |k'.polls|) == Some(ETIMEDOUT))
    && (0 < timeoutMs <= INT_MAX ==> k'.pollTime - k.pollTime <= timeoutMs * NANOS_PER_MILLI)
    && (0 < timeoutMs <= INT_MAX && io == Failed(Timeout) ==>
          k'.now - k.now > (timeoutMs - 1) * NANOS_PER_MILLI || ErrorUsed(k.polls, |k'.polls|) == Some(ETIMEDOUT))
  }

  lemma ReadKeepsLimit(k: Kernel, size: nat, timeoutMs: int, end: ReadEnd)
    requires ReadsRight(k, size, PollTimeout(timeoutMs), end)
    ensures KeepsLimit(k, timeoutMs, end.io, end.kernel)
  {}

  /** A delivery of all that is asked for, while there is time for it. */
  lemma ReadAtOnce(k: Kernel, size: nat, timeoutMs: int)
    requires 0 < size <= |k.incoming| && k.polls != [] && k.polls[0].between == 0
    requires k.polls[0].answer == Readable(Bytes(size))
    requires var left := PollTimeout(timeoutMs) * NANOS_PER_MILLI - k.polls[0].before;
             left >= NANOS_PER_MILLI && k.polls[0].wait <= left / NANOS_PER_MILLI * NANOS_PER_MILLI
    ensures var time := k.polls[0].before + k.polls[0].wait;
            ReadAllRun(k, size, timeoutMs) ==
            ReadEnd(Done, k.incoming[..size],
                    Kernel(k.incoming[size..], k.polls[1..], k.now + time, k.pollTime + k.polls[0].wait))
  {
    var timeout := PollTimeout(timeoutMs);
    var deadline := k.now + timeout * NANOS_PER_MILLI;
    var end := UntilRun(k, timeout, deadline);
    SoonCounts(k.polls);
    var time := k.polls[0].before + k.polls[0].wait;
    assert end == PollEnd(PollReadable(Bytes(size)), Kernel(k.incoming, k.polls[1..], k.now + time, k.pollTime + k.polls[0].wait));
    assert TurnOf(end.ret, size, |k.incoming|) == Gets(size);
    var rest := end.kernel.(incoming := k.incoming[size..]);
    assert ReadRun(rest, 0, timeout, deadline) == ReadEnd(Done, [], rest);
    assert k.incoming[..size] + [] == k.incoming[..size];
    assert ReadRun(k, size, timeout, deadline) == Then(k.incoming[..size], ReadRun(rest, 0, timeout, deadline));
  }

  // ---------------------------------------------------------------------------------------
  // What a script makes of a write
  // ---------------------------------------------------------------------------------------

  /** How many answers take at least one byte. */
  function Takes(sends: seq<SendAnswer>): nat {
    if sends == [] then 0 else (if sends[0].Accepts? && sends[0].n > 0 then 1 else 0) + Takes(sends[1..])
  }

  /** How many answers report an error that is not simply retried. */
  function SendFaults(sends: seq<SendAnswer>): nat {
    if sends == [] then 0 else (if sends[0].SendFails? && sends[0].e != EINTR then 1 else 0) + SendFaults(sends[1..])
  }

  /** How many answers report that the send timed out. */
  function Lapses(sends: seq<SendAnswer>): nat {
    if sends == [] then 0 else (if sends[0] == SendFails(ETIMEDOUT) then 1 else 0) + Lapses(sends[1..])
  }

  /** The last answer that was used when `left` of them are left. */
  function LastSend(sends: seq<SendAnswer>, left: nat): Option<SendAnswer> {
    if |sends| <= left then None
    else if |sends| == left + 1 then Some(sends[0])
    else LastSend(sends[1..], left)
  }

  /** `rest` is what is left of `sends`. */
  ghost predicate LaterSends(sends: seq<SendAnswer>, rest: seq<SendAnswer>)
    decreases |sends|
  {
    rest == sends || (sends != [] && LaterSends(sends[1..], rest))
  }

  lemma {:induction false} LaterSendsLast(a: seq<SendAnswer>, b: seq<SendAnswer>, left: nat)
    requires LaterSends(a, b)
    ensures |b| <= |a| && (left < |b| ==> LastSend(a, left) == LastSend(b, left))
    decreases |a|
  {
    if a != b {
      LaterSendsLast(a[1..], b, left);
    }
  }

  lemma {:induction false} LaterSendsLater(a: seq<SendAnswer>, b: seq<SendAnswer>, c: seq<SendAnswer>)
    requires LaterSends(a, b) && LaterSends(b, c)
    ensures LaterSends(a, c)
    decreases |a|
  {
    if a != b {
      LaterSendsLater(a[1..], b, c);
    }
  }

  lemma NextSend(start: seq<SendAnswer>, sends: seq<SendAnswer>)
    requires LaterSends(start, sends) && sends != []
    ensures LaterSends(start, sends[1..]) && LastSend(start, |sends| - 1) == Some(sends[0])
  {
    LaterSendsLast(start, sends, |sends| - 1);
    assert LaterSends(sends, sends[1..]);
    LaterSendsLater(start, sends, sends[1..]);
  }

  /** The last answer used reports an error, and the code is the one due for it. */
  ghost predicate SendRaises(sends: seq<SendAnswer>, left: nat, code: ErrorCode) {
    var last := LastSend(sends, left);
    last.Some? && last.value.SendFails? && last.value.e != EINTR && RaisedAs(last.value.e, code)
  }

  /** What a write that began later makes of the whole script. */
  lemma SendRaisesLater(a: seq<SendAnswer>, b: seq<SendAnswer>, rest: seq<SendAnswer>, code: ErrorCode)
    requires LaterSends(a, b) && LaterSends(b, rest) && |rest| < |b|
    ensures LaterSends(a, rest) && (SendRaises(a, |rest|, code) <==> SendRaises(b, |rest|, code))
  {
    LaterSendsLater(a, b, rest);
    LaterSendsLast(a, b, |rest|);
  }

  /** How a write ends, with the number of bytes that the kernel has taken. */
  datatype WriteEnd = WriteEnd(io: IoResult, written: nat, sends: seq<SendAnswer>)

  function WriteRun(size: nat, sends: seq<SendAnswer>): WriteEnd
    decreases |sends|
  {
    if size == 0 then WriteEnd(Done, 0, sends)
    else if sends == [] then WriteEnd(Blocked, 0, [])
    else
      match sends[0]
      case SendFails(e) => if e == EINTR then WriteRun(size, sends[1..]) else WriteEnd(Failed(MapErrno(e)), 0, sends[1..])
      case Accepts(n) => Further(Min(n, size), WriteRun(size - Min(n, size), sends[1..]))
  }

  function Further(n: nat, rest: WriteEnd): WriteEnd {
    rest.(written := n + rest.written)
  }

  /**
    What a write promises, whatever the script: all of the data exactly if it succeeds; only an
    answer that reports an error makes it fail, and only ETIMEDOUT with Timeout; it blocks only
    when the script is used up, each answer that takes bytes having taken at least one.
  */
  ghost predicate WritesRight(size: nat, sends: seq<SendAnswer>, end: WriteEnd) {
    && end.written <= size && (end.io.Done? <==> end.written == size)
    && (end.io.Failed? ==> IsIoError(end.io.code) && !end.io.code.NotConnected?)
    && SendFaults(end.sends) == SendFaults(sends) - (if end.io.Failed? then 1 else 0)
    && Lapses(end.sends) == Lapses(sends) - (if end.io == Failed(Timeout) then 1 else 0)
    && end.written + Takes(end.sends) >= Takes(sends)
    && (end.io == Blocked ==> end.sends == [])
    && LaterSends(sends, end.sends) && (end.io.Failed? ==> SendRaises(sends, |end.sends|, end.io.code))
  }

  lemma {:induction false} WriteRunIsRight(size: nat, sends: seq<SendAnswer>)
    ensures WritesRight(size, sends, WriteRun(size, sends))
    decreases |sends|
  {
    if size > 0 && sends != [] {
      match sends[0]
      case SendFails(e) =>
        if e == EINTR {
          WriteRunIsRight(size, sends[1..]);
        }
      case Accepts(n) => WriteRunIsRight(size - Min(n, size), sends[1..]);
    }
  }

  class PosixPipe {
    var open: bool           // client_fd_ >= 0
    var connected: bool
    var incoming: seq<Byte>  // what the peer still delivers before it closes
    var outgoing: seq<Byte>  // what the kernel has accepted so far
    var polls: seq<Poll>
    var sends: seq<SendAnswer>
    var now: nat             // nanoseconds
    ghost var pollTime: nat  // time spent inside poll

    constructor (incoming: seq<Byte>, polls: seq<Poll>, sends: seq<SendAnswer>)
      ensures open && connected
      ensures this.incoming == incoming && this.polls == polls && this.sends == sends && outgoing == []
    {
      open, connected := true, true;
      this.incoming, outgoing := incoming, [];
      this.polls, this.sends := polls, sends;
      now, pollTime := 0, 0;
    }

    ghost function Reading(): Kernel
      reads this
    {
      Kernel(incoming, polls, now, pollTime)
    }

    method KernelPoll(timeoutMs: int) returns (ret: PollReturn)
      modifies this`polls, this`now, this`pollTime
      ensures PollEnd(ret, Reading()) == PollRun(old(Reading()), timeoutMs)
    {
      if polls == [] {
        return PollBlocked;
      }
      var p := polls[0];
      polls := polls[1..];
      var limit := timeoutMs * NANOS_PER_MILLI;
      var elapsed := if timeoutMs < 0 then p.wait else if p.answer.Expires? then limit else Min(p.wait, limit);
      now := now + p.between + elapsed;
      pollTime := pollTime + elapsed;
      ret := AnswerOf(p.answer, timeoutMs);
    }

    method KernelRecv(answer: RecvAnswer, size: nat) returns (ret: RecvReturn)
      requires size > 0
      modifies this`incoming
      ensures answer.RecvFails? ==> ret == RecvError(answer.e) && incoming == old(incoming)
      ensures answer.Bytes? ==>
                var c := ChunkSize(answer.n, size, |old(incoming)|);
                ret == Chunk(old(incoming)[..c]) && incoming == old(incoming)[c..]
    {
      match answer
      case RecvFails(e) => ret := RecvError(e);
      case Bytes(n) =>
        var c := ChunkSize(n, size, |incoming|);
        ret := Chunk(incoming[..c]);
        incoming := incoming[c..];
    }

    method ReadClock() returns (t: nat)
      modifies this`now, this`polls
      ensures t == now && Reading() == ClockRun(old(Reading()))
    {
      if polls != [] {
        now := now + polls[0].before;
        polls := polls[0 := polls[0].(before := 0)];
      }
      t := now;
    }

    /** One wait of timed_read_all: what is left until the deadline bounds the poll. */
    method PollUntil(timeoutMs: int, deadline: int) returns (ret: PollReturn)
      modifies this`polls, this`now, this`pollTime
      ensures PollEnd(ret, Reading()) == UntilRun(old(Reading()), timeoutMs, deadline)
      ensures timeoutMs >= 0 ==> pollTime - old(pollTime) <= NotNegative(deadline - old(now))
      ensures ret.PollExpired? ==> timeoutMs >= 0
      ensures ret.PollExpired? && deadline - old(now) <= INT_MAX * NANOS_PER_MILLI ==> now > deadline - NANOS_PER_MILLI
    {
      UntilShape(Reading(), timeoutMs, deadline);
      UntilTime(Reading(), timeoutMs, deadline);
      var chunkTimeout := timeoutMs;
      if timeoutMs >= 0 {
        var t := ReadClock();
        var left := if deadline < t then -1 else (deadline - t) / NANOS_PER_MILLI;
        if left <= 0 {
          return PollExpired;
        }
        chunkTimeout := if left > INT_MAX then INT_MAX else left;
      }
      ret := KernelPoll(chunkTimeout);
    }

    /** read_all: `data` is the buffer as far as it was filled. */
    method ReadAll(size: nat, timeoutMs: int) returns (r: IoResult, data: seq<Byte>)
      requires size > 0
      modifies this`connected, this`incoming, this`polls, this`now, this`pollTime
      ensures !open ==> r == Failed(NotConnected) && data == [] && unchanged(this)
      ensures open ==> ReadEnd(r, data, Reading()) == ReadAllRun(old(Reading()), size, timeoutMs)
      ensures open ==> ReadsRight(old(Reading()), size, PollTimeout(timeoutMs), ReadEnd(r, data, Reading()))
      ensures open ==> KeepsLimit(old(Reading()), timeoutMs, r, Reading())
      ensures open ==> connected == (old(connected) && !Disconnects(old(polls), |polls|, r))
    {
      ReadRunIsRight(Reading(), size, PollTimeout(timeoutMs));
      ReadKeepsLimit(Reading(), size, timeoutMs, ReadAllRun(Reading(), size, timeoutMs));
      r, data := TimedReadAll(size, if timeoutMs == 0 then -1 else ToInt32(timeoutMs));
    }

    method TimedReadAll(size: nat, timeoutMs: int) returns (r: IoResult, data: seq<Byte>)
      requires size > 0
      modifies this`connected, this`incoming, this`polls, this`now, this`pollTime
      ensures !open ==> r == Failed(NotConnected) && data == [] && unchanged(this)
      ensures open ==>
                ReadEnd(r, data, Reading()) ==
                ReadRun(old(Reading()), size, timeoutMs, old(now) + timeoutMs * NANOS_PER_MILLI)
      ensures open && timeoutMs <= INT_MAX ==> ReadsRight(old(Reading()), size, timeoutMs, ReadEnd(r, data, Reading()))
      ensures open ==> connected == (old(connected) && !Disconnects(old(polls), |polls|, r))
    {
      if !open {
        return Failed(NotConnected), [];
      }
      if timeoutMs <= INT_MAX {
        ReadRunIsRight(Reading(), size, timeoutMs);
      }
      var deadline := now + timeoutMs * NANOS_PER_MILLI;
      r, data := ReadUntil(size, timeoutMs, deadline);
    }

    /** The loop of timed_read_all. */
    method ReadUntil(size: nat, timeoutMs: int, deadline: int) returns (r: IoResult, data: seq<Byte>)
      requires size > 0
      modifies this`connected, this`incoming, this`polls, this`now, this`pollTime
      ensures ReadEnd(r, data, Reading()) == ReadRun(old(Reading()), size, timeoutMs, deadline)
      ensures connected == (old(connected) && !Disconnects(old(polls), |polls|, r))
    {
      data := [];
      var remaining: nat := size;
      ghost var whole := ReadRun(Reading(), size, timeoutMs, deadline);
      ghost var lost := Disconnects(polls, |whole.kernel.polls|, whole.io);
      ThenWhole(whole);
      while remaining > 0
        invariant Ahead(whole, lost, data, remaining, timeoutMs, deadline)
        invariant connected == old(connected)
        decreases |polls|
      {
        var turn, bytes := ReadTurn(whole, lost, data, remaining, timeoutMs, deadline);
        match turn
        case Ends(io) => return io, data;
        case Again =>
        case Gets(c) =>
          data := data + bytes;
          remaining := remaining - c;
      }
      ReadNothing(Reading(), timeoutMs, deadline);
      ThenNothing(whole, data, Done, Reading());
      r := Done;
    }

    /** The whole read is what has been filled and what is still to come; it takes the connection for lost or not. */
    ghost predicate Ahead(whole: ReadEnd, lost: bool, data: seq<Byte>, remaining: nat, timeoutMs: int, deadline: int)
      reads this
    {
      && whole == Then(data, ReadRun(Reading(), remaining, timeoutMs, deadline))
      && lost == Disconnects(polls, |whole.kernel.polls|, whole.io)
    }

    /** One turn of that loop: wait, then receive. */
    method ReadTurn(ghost whole: ReadEnd, ghost lost: bool, ghost data: seq<Byte>, remaining: nat, timeoutMs: int, deadline: int)
      returns (turn: Turn, bytes: seq<Byte>)
      requires remaining > 0 && Ahead(whole, lost, data, remaining, timeoutMs, deadline)
      modifies this`connected, this`incoming, this`polls, this`now, this`pollTime
      ensures match turn
              case Ends(io) => !io.Done? && whole == ReadEnd(io, data, Reading())
              case Again => |polls| < |old(polls)| && Ahead(whole, lost, data, remaining, timeoutMs, deadline)
              case Gets(c) =>
                && |polls| < |old(polls)| && |bytes| == c && 0 < c <= remaining
                && Ahead(whole, lost, data + bytes, remaining - c, timeoutMs, deadline)
      ensures connected == (old(connected) && !(turn.Ends? && lost))
      ensures turn.Ends? ==> lost == Disconnects(old(polls), |polls|, turn.io)
    {
      bytes := [];
      UntilKeepsStream(Reading(), timeoutMs, deadline);
      TurnProgress(Reading(), remaining, timeoutMs, deadline);
      TurnDisconnects(Reading(), remaining, timeoutMs, deadline);
      TurnFills(whole, data, Reading(), remaining, timeoutMs, deadline);
      var ret := PollUntil(timeoutMs, deadline);
      if ret.PollBlocked? {
        return Ends(Blocked), bytes;
      }
      if ret.PollExpired? {
        return Ends(Failed(Timeout)), bytes;
      }
      if ret.PollError? {
        if ret.e == EINTR {
          return Again, bytes;
        }
        return Ends(Failed(MapErrno(ret.e))), bytes;
      }
      var got := KernelRecv(ret.recv, remaining);
      if got.RecvError? {
        if got.e == EINTR {
          return Again, bytes;
        }
        connected := false;
        return Ends(Failed(MapErrno(got.e))), bytes;
      }
      if got.bytes == [] {
        connected := false;
        return Ends(Failed(ConnectionReset)), bytes;
      }
      return Gets(|got.bytes|), got.bytes;
    }

    /** write_all. */
    method WriteAll(data: seq<Byte>) returns (r: IoResult)
      modifies this`connected, this`outgoing, this`sends
      ensures |old(outgoing)| <= |outgoing| <= |old(outgoing)| + |data|
      ensures outgoing == old(outgoing) + data[..|outgoing| - |old(outgoing)|]
      ensures !open ==> r == Failed(NotConnected) && unchanged(this)
      ensures open ==> WriteEnd(r, |outgoing| - |old(outgoing)|, sends) == WriteRun(|data|, old(sends))
      ensures open ==> WritesRight(|data|, old(sends), WriteEnd(r, |outgoing| - |old(outgoing)|, sends))
      ensures connected == (old(connected) && !(r.Failed? && LastSend(old(sends), |sends|) == Some(SendFails(EPIPE))))
    {
      if !open {
        assert data[..0] == [];
        return Failed(NotConnected);
      }
      WriteRunIsRight(|data|, sends);
      r := WriteRemaining(data);
    }

    /** The loop of write_all. */
    method WriteRemaining(data: seq<Byte>) returns (r: IoResult)
      modifies this`connected, this`outgoing, this`sends
      ensures |old(outgoing)| <= |outgoing| <= |old(outgoing)| + |data|
      ensures outgoing == old(outgoing) + data[..|outgoing| - |old(outgoing)|]
      ensures WriteEnd(r, |outgoing| - |old(outgoing)|, sends) == WriteRun(|data|, old(sends))
      ensures connected == (old(connected) && !(r.Failed? && LastSend(old(sends), |sends|) == Some(SendFails(EPIPE))))
    {
      var position: nat := 0;
      var remaining: nat := |data|;
      assert data[..0] == [];
      ghost var start := sends;
      ghost var whole := WriteRun(|data|, sends);
      while remaining > 0
        invariant position + remaining == |data|
        invariant outgoing == old(outgoing) + data[..position]
        invariant connected == old(connected) && LaterSends(start, sends)
        invariant whole == Further(position, WriteRun(remaining, sends))
        decreases |sends|
      {
        if sends == [] {
          return Blocked;
        }
        var answer := sends[0];
        NextSend(start, sends);
        sends := sends[1..];
        match answer
        case SendFails(e) =>
          if e == EINTR {
            continue;
          }
          if e == EPIPE {
            connected := false;
            return Failed(BrokenPipe);
          }
          return Failed(MapErrno(e));
        case Accepts(n) =>
          var k: nat := Min(n, remaining);
          outgoing := outgoing + data[position..position + k];
          assert data[..position + k] == data[..position] + data[position..position + k];
          position := position + k;
          remaining := remaining - k;
      }
      assert data[..position] == data;
      r := Done;
    }
  }
}
