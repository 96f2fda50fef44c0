/**
  The Linux half of the asynchronous pipe: callbacks that the event loop runs whenever the
  socket is readable or writable, each making at most one step of progress per phase. Buffers
  are kept as the part filled so far.
*/
module AsyncPipe {
  import opened Words
  import opened Crc32c
  import opened Frames
  import opened FrameIo
  import P = PosixPipe

  const MAX_PAYLOAD: U32 := 0x7FFF_FFFF

  /** What completes a future. */
  datatype Outcome = Success(bytes: seq<Byte>) | Error(code: P.ErrorCode)

  /** What a non-blocking system call answers: progress, EAGAIN, or any other errno. */
  datatype Answer = Gives(n: nat) | WouldBlock | Fails

  datatype ReadReturn = Data(bytes: seq<Byte>) | ReadAgain | ReadError

  /** How a read that starts at the head of s ends, if no system call fails. */
  function ReadOutcome(s: seq<Byte>): Outcome {
    if |s| < HEADER_SIZE then Error(P.BrokenPipe)
    else
      match ReadHeader(s[..HEADER_SIZE])
      case BadHeader => Error(P.InvalidMessage)
      case GoodHeader(size, checksum, _, _) =>
        if size > MAX_PAYLOAD then Error(P.Overflow) else PayloadOutcome(size, checksum, s[HEADER_SIZE..])
  }

  function PayloadOutcome(size: U32, checksum: U32, rest: seq<Byte>): Outcome {
    match TakePayload(size, checksum, rest)
    case Short => Error(P.BrokenPipe)
    case Corrupt => Error(P.InvalidMessage)
    case Payload(bytes) => Success(bytes)
  }

  /** A complete header that declares more than the callback reader takes. */
  predicate DeclaresTooMuch(s: seq<Byte>) {
    |s| >= HEADER_SIZE && ReadHeader(s[..HEADER_SIZE]).GoodHeader? && ReadHeader(s[..HEADER_SIZE]).size > MAX_PAYLOAD
  }

  /**
    The callback reader against the blocking one on the same stream, whatever the kernel's
    chunks were for either: the same decision and payload, except that the callback reader
    refuses sizes above MAX_PAYLOAD and calls the end of the stream BrokenPipe.
  */
  lemma ReaderAgreesWithRecvFrame(s: seq<Byte>, r: RecvResult, left: seq<Byte>)
    requires Agrees(Decode(s), r, s, left)
    requires r.Received? || r == RecvFailed(P.InvalidMessage) || r == RecvFailed(P.ConnectionReset)
    ensures ReadOutcome(s) ==
            if DeclaresTooMuch(s) then Error(P.Overflow)
            else if r.Received? then Success(r.frame.payload)
            else if r == RecvFailed(P.InvalidMessage) then Error(P.InvalidMessage)
            else Error(P.BrokenPipe)
    ensures ReadOutcome(s).Success? ==> Consumed(s, HEADER_SIZE + |ReadOutcome(s).bytes|, left)
  {
    if |s| >= HEADER_SIZE {
      DecodeHeaderAndRest(s[..HEADER_SIZE], s[HEADER_SIZE..]);
      assert s == s[..HEADER_SIZE] + s[HEADER_SIZE..];
    }
  }

  /** That is a size with its top bit set. */
  lemma TooMuchIsTopBit(s: seq<Byte>)
    requires |s| >= HEADER_SIZE && ReadHeader(s[..HEADER_SIZE]).GoodHeader?
    ensures DeclaresTooMuch(s) <==> s[11] >= 0x80
  {
    assert s[..HEADER_SIZE][8..12][3] == s[11];
  }

  lemma ReadOutcomeAfterHeader(raw: seq<Byte>, rest: seq<Byte>)
    requires |raw| == HEADER_SIZE
    ensures ReadOutcome(raw + rest) ==
            match ReadHeader(raw)
            case BadHeader => Error(P.InvalidMessage)
            case GoodHeader(size, checksum, _, _) =>
              if size > MAX_PAYLOAD then Error(P.Overflow) else PayloadOutcome(size, checksum, rest)
    ensures (raw + rest)[HEADER_SIZE..] == rest
  {
    assert (raw + rest)[..HEADER_SIZE] == raw && (raw + rest)[HEADER_SIZE..] == rest;
  }

  /** How many answers are errors other than EAGAIN. */
  function Failures(answers: seq<Answer>): nat {
    if answers == [] then 0 else (if answers[0].Fails? then 1 else 0) + Failures(answers[1..])
  }

  /** How many answers to a read deliver: at least one byte, or the end of the stream. */
  function Gifts(answers: seq<Answer>): nat {
    if answers == [] then 0 else (if answers[0].Gives? then 1 else 0) + Gifts(answers[1..])
  }

  /** How many answers to a write take at least one byte. */
  function Moves(answers: seq<Answer>): nat {
    if answers == [] then 0 else (if answers[0].Gives? && answers[0].n > 0 then 1 else 0) + Moves(answers[1..])
  }

  /** How many answers to a write end it: an error, or nothing taken. */
  function Stops(answers: seq<Answer>): nat {
    if answers == [] then 0
    else (if answers[0].Fails? || (answers[0].Gives? && answers[0].n == 0) then 1 else 0) + Stops(answers[1..])
  }

  /** The outcome is the prescribed one, or BrokenPipe because a system call failed. */
  ghost predicate Explains(outcome: Outcome, prescribed: Outcome, failures: int) {
    if failures == 0 then outcome == prescribed else outcome == Error(P.BrokenPipe)
  }

  ghost predicate Consumed(start: seq<Byte>, n: nat, rest: seq<Byte>) {
    n <= |start| && rest == start[n..]
  }

  function VerifiedPayload(checksum: U32, payload: seq<Byte>): Outcome {
    if Crc(payload) == checksum then Success(payload) else Error(P.InvalidMessage)
  }

  lemma PayloadComplete(checksum: U32, payload: seq<Byte>, rest: seq<Byte>)
    requires 0 < |payload| < TWO_32
    ensures PayloadOutcome(|payload|, checksum, payload + rest) == VerifiedPayload(checksum, payload)
    ensures Consumed(payload + rest, |payload|, rest)
  {
    assert (payload + rest)[..|payload|] == payload;
  }

  /** How a phase of a callback ends. */
  datatype Progress = Continue | Proceed | Finished(outcome: Outcome)

  lemma ConsumedAfterHeader(raw: seq<Byte>, rest: seq<Byte>, n: nat, left: seq<Byte>)
    requires |raw| == HEADER_SIZE && Consumed(rest, n, left)
    ensures Consumed(raw + rest, HEADER_SIZE + n, left)
  {}

  datatype WriteReturn = Wrote(n: nat) | WriteAgain | WriteError

  /** The whole frame after a success, a proper prefix of it after an error. */
  ghost predicate LeftOnWire(before: seq<Byte>, after: seq<Byte>, frame: seq<Byte>, outcome: Outcome) {
    match outcome
    case Success(bytes) => bytes == [] && after == before + frame
    case Error(code) =>
      code.BrokenPipe? && exists k :: 0 <= k < |frame| && after == before + frame[..k]
  }

  class LinuxReadCtx {
    var hdrRaw: seq<Byte>
    var headerDone: bool
    var payloadSize: nat
    var checksum: U32
    var payload: seq<Byte>

    constructor ()
      ensures hdrRaw == [] && !headerDone && payloadSize == 0 && payload == []
    {
      hdrRaw, headerDone, payloadSize, checksum, payload := [], false, 0, 0, [];
    }

    /** Between callbacks: part of a header, or a header and part of its payload. */
    ghost predicate Valid()
      reads this
    {
      if headerDone then
        && |hdrRaw| == HEADER_SIZE && ReadHeader(hdrRaw).GoodHeader?
        && payloadSize == ReadHeader(hdrRaw).size && 0 < payloadSize <= MAX_PAYLOAD
        && checksum == ReadHeader(hdrRaw).checksum
        && |payload| < payloadSize
      else
        |hdrRaw| < HEADER_SIZE && payload == []
    }
  }

  class LinuxWriteCtx {
    const frameBuf: seq<Byte>
    var written: nat

    constructor (frameBuf: seq<Byte>)
      ensures this.frameBuf == frameBuf && written == 0
    {
      this.frameBuf := frameBuf;
      written := 0;
    }
  }

  class AsyncPlatformPipe {
    var incoming: seq<Byte>         // what the peer still delivers before it closes
    var outgoing: seq<Byte>         // what the kernel has accepted
    var readAnswers: seq<Answer>
    var writeAnswers: seq<Answer>
    var activeRead: LinuxReadCtx?   // active_read_cap_
    var activeWrite: LinuxWriteCtx? // active_write_cap_
    var readDone: seq<Outcome>      // completions of read futures, in order
    var writeDone: seq<Outcome>

    constructor (incoming: seq<Byte>, readAnswers: seq<Answer>, writeAnswers: seq<Answer>)
      ensures activeRead == null && activeWrite == null && readDone == [] && writeDone == [] && outgoing == []
      ensures this.incoming == incoming && this.readAnswers == readAnswers && this.writeAnswers == writeAnswers
    {
      this.incoming, this.readAnswers, this.writeAnswers := incoming, readAnswers, writeAnswers;
      outgoing, readDone, writeDone := [], [], [];
      activeRead, activeWrite := null, null;
    }

    /** The kernel's read: empty data is the end of the stream. Without an answer nothing is ready. */
    method KernelRead(size: nat) returns (ret: ReadReturn)
      requires size > 0
      modifies this`incoming, this`readAnswers
      ensures ret.Data? ==> ret.bytes + incoming == old(incoming) && |ret.bytes| <= size
      ensures ret == Data([]) ==> incoming == []
      ensures !ret.Data? ==> incoming == old(incoming)
      ensures readAnswers == if old(readAnswers) == [] then [] else old(readAnswers)[1..]
      ensures Failures(readAnswers) == Failures(old(readAnswers)) - (if ret.ReadError? then 1 else 0)
      ensures Gifts(readAnswers) == Gifts(old(readAnswers)) - (if ret.Data? then 1 else 0)
      ensures ret.ReadAgain? ==> old(readAnswers) == [] || old(readAnswers)[0].WouldBlock?
    {
      if readAnswers == [] {
        return ReadAgain;
      }
      var answer := readAnswers[0];
      readAnswers := readAnswers[1..];
      match answer
      case WouldBlock => return ReadAgain;
      case Fails => return ReadError;
      case Gives(n) =>
        var k := Min(Min(if n == 0 then 1 else n, size), |incoming|);
        ret := Data(incoming[..k]);
        incoming := incoming[k..];
    }

    /** linux_finish_read and linux_finish_read_err: complete the future, free the slot. */
    method FinishRead(outcome: Outcome)
      modifies this`activeRead, this`readDone
      ensures activeRead == null && readDone == old(readDone) + [outcome]
    {
      readDone := readDone + [outcome];
      activeRead := null;
    }

    method AsyncReadFrame() returns (accepted: bool)
      modifies this`activeRead
      ensures accepted == (old(activeRead) == null)
      ensures !accepted ==> activeRead == old(activeRead)
      ensures accepted ==> activeRead != null && fresh(activeRead) && activeRead.Valid() && activeRead.hdrRaw == []
    {
      if activeRead != null {
        return false;
      }
      activeRead := new LinuxReadCtx();
      return true;
    }

    /** Everything the active read has taken off the stream so far. */
    ghost function Taken(): seq<Byte>
      reads this, activeRead
    {
      if activeRead == null then [] else activeRead.hdrRaw + activeRead.payload
    }

    /** The header phase of the readable callback. */
    method HeaderPhase(ghost start: seq<Byte>) returns (p: Progress)
      requires activeRead != null && activeRead.Valid() && !activeRead.headerDone
      requires activeRead.hdrRaw + incoming == start
      modifies this`incoming, this`readAnswers, this`activeRead, this`readDone, activeRead
      ensures !p.Finished? ==>
                && activeRead == old(activeRead) && activeRead != null && activeRead.Valid() && readDone == old(readDone)
                && activeRead.hdrRaw + incoming == start && activeRead.payload == []
                && (p.Proceed? <==> activeRead.headerDone)
                && |activeRead.hdrRaw| + Gifts(readAnswers) >= |old(activeRead.hdrRaw)| + Gifts(old(readAnswers))
      ensures p.Finished? ==>
                && activeRead == null && readDone == old(readDone) + [p.outcome]
                && Explains(p.outcome, ReadOutcome(start), Failures(old(readAnswers)) - Failures(readAnswers))
                && (p.outcome.Success? ==> Consumed(start, HEADER_SIZE + |p.outcome.bytes|, incoming))
      ensures Failures(readAnswers) <= Failures(old(readAnswers))
      ensures !p.Finished? ==> Failures(readAnswers) == Failures(old(readAnswers))
      ensures readAnswers == if old(readAnswers) == [] then [] else old(readAnswers)[1..]
    {
      var ctx := activeRead;
      var ret := KernelRead(HEADER_SIZE - |ctx.hdrRaw|);
      if ret.ReadAgain? {
        return Continue;
      }
      if ret.ReadError? {
        FinishRead(Error(P.BrokenPipe));
        return Finished(Error(P.BrokenPipe));
      }
      if ret.bytes == [] {
        assert start == ctx.hdrRaw;
        FinishRead(Error(P.BrokenPipe));
        return Finished(Error(P.BrokenPipe));
      }
      ctx.hdrRaw := ctx.hdrRaw + ret.bytes;
      assert start == ctx.hdrRaw + incoming;
      if |ctx.hdrRaw| < HEADER_SIZE {
        return Continue;
      }
      p := CheckHeader(start);
    }

    /** A complete header: magic, version and size. */
    method CheckHeader(ghost start: seq<Byte>) returns (p: Progress)
      requires activeRead != null && |activeRead.hdrRaw| == HEADER_SIZE
      requires !activeRead.headerDone && activeRead.payload == []
      requires activeRead.hdrRaw + incoming == start
      modifies this`activeRead, this`readDone, activeRead
      ensures p.Proceed? ==>
                && activeRead == old(activeRead) && activeRead != null && activeRead.Valid() && activeRead.headerDone
                && readDone == old(readDone) && activeRead.hdrRaw + incoming == start && activeRead.payload == []
                && activeRead.hdrRaw == old(activeRead.hdrRaw)
      ensures p.Finished? ==>
                && activeRead == null && readDone == old(readDone) + [p.outcome]
                && p.outcome == ReadOutcome(start)
                && (p.outcome.Success? ==> Consumed(start, HEADER_SIZE + |p.outcome.bytes|, incoming))
      ensures !p.Continue?
    {
      var ctx := activeRead;
      ReadOutcomeAfterHeader(ctx.hdrRaw, incoming);
      if ctx.hdrRaw[..4] != MAGIC {
        FinishRead(Error(P.InvalidMessage));
        return Finished(Error(P.InvalidMessage));
      }
      if ctx.hdrRaw[4] != PROTOCOL_VERSION {
        FinishRead(Error(P.InvalidMessage));
        return Finished(Error(P.InvalidMessage));
      }
      var size := FromWire(ctx.hdrRaw[8..12]);
      if size > 0x7FFF_FFFF {
        FinishRead(Error(P.Overflow));
        return Finished(Error(P.Overflow));
      }
      if size == 0 {
        FinishRead(Success([]));
        return Finished(Success([]));
      }
      ctx.payloadSize := size;
      ctx.checksum := FromWire(ctx.hdrRaw[12..16]);
      ctx.headerDone := true;
      p := Proceed;
    }

    /** The payload phase of the same callback. */
    method PayloadPhase(ghost rest: seq<Byte>) returns (p: Progress)
      requires activeRead != null && activeRead.Valid() && activeRead.headerDone
      requires activeRead.payload + incoming == rest
      modifies this`incoming, this`readAnswers, this`activeRead, this`readDone, activeRead`payload
      ensures !p.Finished? ==>
                && activeRead == old(activeRead) && activeRead != null && activeRead.Valid() && readDone == old(readDone)
                && activeRead.payload + incoming == rest
                && |activeRead.payload| + Gifts(readAnswers) >= |old(activeRead.payload)| + Gifts(old(readAnswers))
      ensures p.Finished? ==>
                && activeRead == null && readDone == old(readDone) + [p.outcome]
                && Explains(p.outcome, PayloadOutcome(old(activeRead.payloadSize), old(activeRead.checksum), rest),
                            Failures(old(readAnswers)) - Failures(readAnswers))
                && (p.outcome.Success? ==> Consumed(rest, |p.outcome.bytes|, incoming))
      ensures Failures(readAnswers) <= Failures(old(readAnswers))
      ensures !p.Finished? ==> Failures(readAnswers) == Failures(old(readAnswers))
      ensures readAnswers == if old(readAnswers) == [] then [] else old(readAnswers)[1..]
    {
      var ctx := activeRead;
      var ret := KernelRead(ctx.payloadSize - |ctx.payload|);
      if ret.ReadAgain? {
        return Continue;
      }
      if ret.ReadError? {
        FinishRead(Error(P.BrokenPipe));
        return Finished(Error(P.BrokenPipe));
      }
      if ret.bytes == [] {
        assert rest == ctx.payload;
        FinishRead(Error(P.BrokenPipe));
        return Finished(Error(P.BrokenPipe));
      }
      ctx.payload := ctx.payload + ret.bytes;
      assert rest == ctx.payload + incoming;
      if |ctx.payload| < ctx.payloadSize {
        return Continue;
      }
      PayloadComplete(ctx.checksum, ctx.payload, incoming);
      p := CheckPayload();
    }

    /** A complete payload: its checksum. */
    method CheckPayload() returns (p: Progress)
      requires activeRead != null
      modifies this`activeRead, this`readDone
      ensures activeRead == null
      ensures p == Finished(VerifiedPayload(old(activeRead.checksum), old(activeRead.payload)))
      ensures readDone == old(readDone) + [p.outcome]
    {
      var actual := AsyncCrc32cCompute(activeRead.payload);
      if actual != activeRead.checksum {
        FinishRead(Error(P.InvalidMessage));
        return Finished(Error(P.InvalidMessage));
      }
      var payload := activeRead.payload;
      FinishRead(Success(payload));
      return Finished(Success(payload));
    }

    /**
      One readable callback. Either the read goes on, with all bytes accounted for, or its
      future is completed, once, with the outcome the stream prescribes; on success exactly
      header and payload have been consumed.
    */
    method OnReadable(ghost start: seq<Byte>) returns (p: Progress)
      requires activeRead != null && activeRead.Valid()
      requires Taken() + incoming == start
      modifies this`incoming, this`readAnswers, this`activeRead, this`readDone, activeRead
      ensures !p.Finished? ==>
                && activeRead == old(activeRead) && activeRead != null && activeRead.Valid() && readDone == old(readDone)
                && Taken() + incoming == start && Failures(readAnswers) == Failures(old(readAnswers))
                && |Taken()| + Gifts(readAnswers) >= |old(Taken())| + Gifts(old(readAnswers))
      ensures p.Finished? ==>
                && activeRead == null && readDone == old(readDone) + [p.outcome]
                && Explains(p.outcome, ReadOutcome(start), Failures(old(readAnswers)) - Failures(readAnswers))
                && (p.outcome.Success? ==> Consumed(start, HEADER_SIZE + |p.outcome.bytes|, incoming))
      ensures Failures(readAnswers) <= Failures(old(readAnswers))
      ensures old(readAnswers) != [] ==> |readAnswers| < |old(readAnswers)|
    {
      if activeRead.headerDone {
        p := PayloadCallback(start);
        return;
      }
      assert activeRead.hdrRaw + [] == activeRead.hdrRaw;
      p := HeaderPhase(start);
      if p.Finished? {
        return;
      }
      assert activeRead.hdrRaw + [] == activeRead.hdrRaw;
      if p.Proceed? {
        p := PayloadCallback(start);
      }
    }

    /** The payload phase seen from the start of the read. */
    method PayloadCallback(ghost start: seq<Byte>) returns (p: Progress)
      requires activeRead != null && activeRead.Valid() && activeRead.headerDone
      requires Taken() + incoming == start
      modifies this`incoming, this`readAnswers, this`activeRead, this`readDone, activeRead`payload
      ensures !p.Finished? ==>
                && activeRead == old(activeRead) && activeRead != null && activeRead.Valid() && readDone == old(readDone)
                && Taken() + incoming == start && Failures(readAnswers) == Failures(old(readAnswers))
                && |Taken()| + Gifts(readAnswers) >= |old(Taken())| + Gifts(old(readAnswers))
      ensures p.Finished? ==>
                && activeRead == null && readDone == old(readDone) + [p.outcome]
                && Explains(p.outcome, ReadOutcome(start), Failures(old(readAnswers)) - Failures(readAnswers))
                && (p.outcome.Success? ==> Consumed(start, HEADER_SIZE + |p.outcome.bytes|, incoming))
      ensures Failures(readAnswers) <= Failures(old(readAnswers))
      ensures readAnswers == if old(readAnswers) == [] then [] else old(readAnswers)[1..]
    {
      ghost var raw, rest := activeRead.hdrRaw, activeRead.payload + incoming;
      assert start == raw + rest;
      ReadOutcomeAfterHeader(raw, rest);
      p := PayloadPhase(rest);
      if p.Finished? {
        if p.outcome.Success? {
          ConsumedAfterHeader(raw, rest, |p.outcome.bytes|, incoming);
        }
      } else {
        assert raw + activeRead.payload + incoming == raw + rest;
      }
    }

    /**
      The event loop: callbacks run until the future is completed or nothing more becomes
      readable. The future is still open only if no read failed and all that was delivered,
      at least a byte each time, does not make a frame yet.
    */
    method RunReader(ghost start: seq<Byte>) returns (p: Progress)
      requires activeRead != null && activeRead.Valid()
      requires Taken() + incoming == start
      modifies this`incoming, this`readAnswers, this`activeRead, this`readDone, activeRead
      ensures !p.Finished? ==>
                && activeRead == old(activeRead) && activeRead != null && activeRead.Valid() && readDone == old(readDone)
                && Taken() + incoming == start && readAnswers == [] && Failures(old(readAnswers)) == 0
                && |Taken()| >= |old(Taken())| + Gifts(old(readAnswers)) && Decode(Taken()) == NeedMore
      ensures p.Finished? ==>
                && activeRead == null && readDone == old(readDone) + [p.outcome]
                && Explains(p.outcome, ReadOutcome(start), Failures(old(readAnswers)) - Failures(readAnswers))
                && (p.outcome.Success? ==> Consumed(start, HEADER_SIZE + |p.outcome.bytes|, incoming))
    {
      p := Continue;
      while !p.Finished? && readAnswers != []
        invariant !p.Finished? ==>
                    && activeRead == old(activeRead) && activeRead != null && activeRead.Valid() && readDone == old(readDone)
                    && Taken() + incoming == start && Failures(readAnswers) == Failures(old(readAnswers))
                    && |Taken()| + Gifts(readAnswers) >= |old(Taken())| + Gifts(old(readAnswers))
        invariant p.Finished? ==>
                    && activeRead == null && readDone == old(readDone) + [p.outcome]
                    && Explains(p.outcome, ReadOutcome(start), Failures(old(readAnswers)) - Failures(readAnswers))
                    && (p.outcome.Success? ==> Consumed(start, HEADER_SIZE + |p.outcome.bytes|, incoming))
        decreases |readAnswers|
      {
        p := OnReadable(start);
      }
      if !p.Finished? && activeRead.headerDone {
        DecodeHeaderAndRest(activeRead.hdrRaw, activeRead.payload);
      }
    }

    /** The kernel's write takes any part of what is offered, even nothing. */
    method KernelWrite(data: seq<Byte>) returns (ret: WriteReturn)
      modifies this`outgoing, this`writeAnswers
      ensures ret.Wrote? ==> ret.n <= |data| && outgoing == old(outgoing) + data[..ret.n]
      ensures !ret.Wrote? ==> outgoing == old(outgoing)
      ensures old(writeAnswers) != [] ==> |writeAnswers| < |old(writeAnswers)|
      ensures data != [] ==>
                Stops(writeAnswers) == Stops(old(writeAnswers)) - (if ret.WriteError? || ret == Wrote(0) then 1 else 0)
      ensures data != [] ==>
                Moves(writeAnswers) == Moves(old(writeAnswers)) - (if ret.Wrote? && ret.n > 0 then 1 else 0)
    {
      if writeAnswers == [] {
        return WriteAgain;
      }
      var answer := writeAnswers[0];
      writeAnswers := writeAnswers[1..];
      match answer
      case WouldBlock => return WriteAgain;
      case Fails => return WriteError;
      case Gives(n) =>
        var k := Min(n, |data|);
        outgoing := outgoing + data[..k];
        return Wrote(k);
    }

    method AsyncWriteFrame(host: Host, data: seq<Byte>, messageId: U32) returns (error: seq<P.ErrorCode>)
      modifies this`activeWrite
      ensures old(activeWrite) != null ==> error == [P.InvalidArgument] && activeWrite == old(activeWrite)
      ensures old(activeWrite) == null && |data| >= TWO_32 ==> error == [P.Overflow] && activeWrite == null
      ensures old(activeWrite) == null && |data| < TWO_32 ==>
                && error == [] && activeWrite != null && fresh(activeWrite) && activeWrite.written == 0
                && activeWrite.frameBuf == Encode(Frame(data, messageId, 0))
    {
      if activeWrite != null {
        return [P.InvalidArgument];
      }
      if |data| > 0xFFFF_FFFF {
        return [P.Overflow];
      }
      var size: U32 := |data|;
      var crc: U32 := 0;
      if size > 0 {
        crc := AsyncCrc32cCompute(data);
      }
      assert crc == Checksum(data);
      var hdr := FrameHeader([0, 0, 0, 0], 0, 0, [0, 0], 0, 0, 0);
      hdr := hdr.(magic := MAGIC);
      hdr := hdr.(version := PROTOCOL_VERSION);
      hdr := hdr.(payloadSize := ToLe32(host, size));
      hdr := hdr.(checksum := ToLe32(host, crc));
      hdr := hdr.(messageId := ToLe32(host, messageId));
      HeaderBytesAreLayout(host, 0, size, crc, messageId);
      activeWrite := new LinuxWriteCtx(HeaderBytes(host, hdr) + data);
      return [];
    }

    /** linux_finish_write. */
    method FinishWrite(outcome: Outcome)
      modifies this`activeWrite, this`writeDone
      ensures activeWrite == null && writeDone == old(writeDone) + [outcome]
    {
      writeDone := writeDone + [outcome];
      activeWrite := null;
    }

    /** One writable callback: the future succeeds exactly when the whole frame is on the wire. */
    method OnWritable(ghost begin: seq<Byte>) returns (p: Progress)
      requires activeWrite != null && activeWrite.written < |activeWrite.frameBuf|
      requires outgoing == begin + activeWrite.frameBuf[..activeWrite.written]
      modifies this`outgoing, this`writeAnswers, this`activeWrite, this`writeDone, activeWrite
      ensures p.Continue? ==>
                && activeWrite == old(activeWrite) && activeWrite != null && writeDone == old(writeDone)
                && activeWrite.written < |activeWrite.frameBuf|
                && outgoing == begin + activeWrite.frameBuf[..activeWrite.written]
      ensures p.Finished? ==>
                && activeWrite == null && writeDone == old(writeDone) + [p.outcome]
                && LeftOnWire(begin, outgoing, old(activeWrite.frameBuf), p.outcome)
                && (p.outcome.Error? <==> Stops(writeAnswers) < Stops(old(writeAnswers)))
      ensures p.Continue? ==>
                && Stops(writeAnswers) == Stops(old(writeAnswers))
                && activeWrite.written + Moves(writeAnswers) >= old(activeWrite.written) + Moves(old(writeAnswers))
      ensures !p.Proceed?
      ensures old(writeAnswers) != [] ==> |writeAnswers| < |old(writeAnswers)|
    {
      var ctx := activeWrite;
      var frame := ctx.frameBuf;
      var ret := KernelWrite(frame[ctx.written..]);
      if ret.WriteAgain? {
        return Continue;
      }
      if ret.WriteError? || ret.n == 0 {
        FinishWrite(Error(P.BrokenPipe));
        assert outgoing == begin + frame[..ctx.written];
        return Finished(Error(P.BrokenPipe));
      }
      assert frame[..ctx.written] + frame[ctx.written..][..ret.n] == frame[..ctx.written + ret.n];
      ctx.written := ctx.written + ret.n;
      if ctx.written < |frame| {
        return Continue;
      }
      assert frame[..ctx.written] == frame;
      FinishWrite(Success([]));
      p := Finished(Success([]));
    }

    /**
      The event loop on the writing side. The future is still open only if no write failed and
      every answer that took bytes has taken at least one.
    */
    method RunWriter(ghost begin: seq<Byte>) returns (p: Progress)
      requires activeWrite != null && activeWrite.written < |activeWrite.frameBuf|
      requires outgoing == begin + activeWrite.frameBuf[..activeWrite.written]
      modifies this`outgoing, this`writeAnswers, this`activeWrite, this`writeDone, activeWrite
      ensures p.Continue? ==>
                && activeWrite == old(activeWrite) && activeWrite != null && writeDone == old(writeDone)
                && activeWrite.written < |activeWrite.frameBuf|
                && outgoing == begin + activeWrite.frameBuf[..activeWrite.written] && writeAnswers == []
                && Stops(old(writeAnswers)) == 0
                && activeWrite.written >= old(activeWrite.written) + Moves(old(writeAnswers))
      ensures p.Finished? ==>
                && activeWrite == null && writeDone == old(writeDone) + [p.outcome]
                && LeftOnWire(begin, outgoing, old(activeWrite.frameBuf), p.outcome)
                && (p.outcome.Error? <==> Stops(writeAnswers) < Stops(old(writeAnswers)))
      ensures !p.Proceed?
    {
      p := Continue;
      while p.Continue? && writeAnswers != []
        invariant p.Continue? ==>
                    && activeWrite == old(activeWrite) && activeWrite != null && writeDone == old(writeDone)
                    && activeWrite.written < |activeWrite.frameBuf|
                    && outgoing == begin + activeWrite.frameBuf[..activeWrite.written]
                    && Stops(writeAnswers) == Stops(old(writeAnswers))
                    && activeWrite.written + Moves(writeAnswers) >= old(activeWrite.written) + Moves(old(writeAnswers))
        invariant p.Finished? ==>
                    && activeWrite == null && writeDone == old(writeDone) + [p.outcome]
                    && LeftOnWire(begin, outgoing, old(activeWrite.frameBuf), p.outcome)
                    && (p.outcome.Error? <==> Stops(writeAnswers) < Stops(old(writeAnswers)))
        invariant !p.Proceed?
        decreases |writeAnswers|
      {
        p := OnWritable(begin);
      }
    }
  }
}
