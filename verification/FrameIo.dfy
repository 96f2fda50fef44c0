/** Frames written to and read from a pipe. */
module FrameIo {
  import opened Words
  import opened Crc32c
  import opened Frames
  import opened PosixPipe

  /** The header record as the code fills it; 32-bit fields are as the host stores them. */
  datatype FrameHeader = FrameHeader(
    magic: seq<Byte>, version: Byte, flags: Byte, reserved: seq<Byte>,
    payloadSize: U32, checksum: U32, messageId: U32)

  /** The object representation of a packed header. */
  function HeaderBytes(host: Host, h: FrameHeader): seq<Byte> {
    h.magic + [h.version, h.flags] + h.reserved
    + InMemory(host, h.payloadSize) + InMemory(host, h.checksum) + InMemory(host, h.messageId)
  }

  function HeaderFromBytes(host: Host, s: seq<Byte>): FrameHeader
    requires |s| == HEADER_SIZE
  {
    FrameHeader(s[..4], s[4], s[5], s[6..8],
                LoadFromMemory(host, s[8..12]), LoadFromMemory(host, s[12..16]), LoadFromMemory(host, s[16..20]))
  }

  /** A header filled with converted fields has the layout of the protocol on every host. */
  lemma HeaderBytesAreLayout(host: Host, flags: Byte, size: U32, checksum: U32, id: U32)
    ensures HeaderBytes(host, FrameHeader(MAGIC, PROTOCOL_VERSION, flags, [0, 0],
                                          ToLe32(host, size), ToLe32(host, checksum), ToLe32(host, id)))
            == Layout(flags, size, checksum, id)
  {
    ConvertedFieldIsLittleEndian(host, size);
    ConvertedFieldIsLittleEndian(host, checksum);
    ConvertedFieldIsLittleEndian(host, id);
    var b: seq<Byte> := [PROTOCOL_VERSION, flags];
    assert (MAGIC + b) + [0, 0] == MAGIC + [PROTOCOL_VERSION, flags, 0, 0];
  }

  /** What a send leaves on the wire: all of the frame if it succeeds, a proper prefix if not. */
  ghost predicate Wrote(before: seq<Byte>, after: seq<Byte>, frame: seq<Byte>, complete: bool) {
    && |before| <= |after| <= |before| + |frame|
    && after == before + frame[..|after| - |before|]
    && (complete <==> |after| == |before| + |frame|)
  }

  // ---------------------------------------------------------------------------------------
  // What a script makes of a send
  // ---------------------------------------------------------------------------------------

  /** The header, then a payload that is not empty: two writes. */
  function PartsRun(header: nat, payload: nat, sends: seq<SendAnswer>): WriteEnd {
    var first := WriteRun(header, sends);
    if first.io.Done? && payload > 0 then Further(header, WriteRun(payload, first.sends)) else first
  }

  /** A send of a payload of that size. */
  function SendRun(size: nat, sends: seq<SendAnswer>): WriteEnd {
    if size >= TWO_32 then WriteEnd(Failed(Overflow), 0, sends) else PartsRun(HEADER_SIZE, size, sends)
  }

  lemma PartsRunIsRight(header: nat, payload: nat, sends: seq<SendAnswer>)
    ensures WritesRight(header + payload, sends, PartsRun(header, payload, sends))
  {
    var first := WriteRun(header, sends);
    WriteRunIsRight(header, sends);
    if first.io.Done? && payload > 0 {
      var second := WriteRun(payload, first.sends);
      WriteRunIsRight(payload, first.sends);
      LaterSendsLater(sends, first.sends, second.sends);
      if second.io.Failed? {
        SecondWriteFails(sends, first.sends, second);
      }
    }
  }

  lemma SecondWriteFails(sends: seq<SendAnswer>, between: seq<SendAnswer>, second: WriteEnd)
    requires LaterSends(sends, between) && LaterSends(between, second.sends) && second.io.Failed?
    requires SendRaises(between, |second.sends|, second.io.code)
    ensures SendRaises(sends, |second.sends|, second.io.code)
  {
    SendRaisesLater(sends, between, second.sends, second.io.code);
  }

  lemma SendRunIsRight(size: nat, sends: seq<SendAnswer>)
    requires size < TWO_32
    ensures WritesRight(HEADER_SIZE + size, sends, SendRun(size, sends))
  {
    PartsRunIsRight(HEADER_SIZE, size, sends);
  }

  method SendFrame(host: Host, pipe: PosixPipe, payload: seq<Byte>, messageId: U32, extraFlags: Byte)
    returns (r: IoResult)
    modifies pipe`connected, pipe`outgoing, pipe`sends
    ensures |payload| >= TWO_32 ==> r == Failed(Overflow) && unchanged(pipe)
    ensures |payload| < TWO_32 ==>
              Wrote(old(pipe.outgoing), pipe.outgoing, Encode(Frame(payload, messageId, extraFlags)), r.Done?)
    ensures |payload| < TWO_32 && !pipe.open ==> r == Failed(NotConnected) && unchanged(pipe)
    ensures |payload| < TWO_32 && pipe.open ==>
              WritesRight(HEADER_SIZE + |payload|, old(pipe.sends),
                          WriteEnd(r, |pipe.outgoing| - |old(pipe.outgoing)|, pipe.sends))
    ensures |pipe.outgoing| >= |old(pipe.outgoing)|
    ensures pipe.open ==> WriteEnd(r, |pipe.outgoing| - |old(pipe.outgoing)|, pipe.sends) == SendRun(|payload|, old(pipe.sends))
  {
    if |payload| > 0xFFFF_FFFF {
      return Failed(Overflow);
    }
    var size: U32 := |payload|;
    var crc: U32 := 0;
    if payload != [] {
      crc := ComputeCrc32c(payload);
    }
    assert crc == Checksum(payload);
    var hdr := FrameHeader([0, 0, 0, 0], 0, 0, [0, 0], 0, 0, 0);
    hdr := hdr.(magic := MAGIC);
    hdr := hdr.(version := PROTOCOL_VERSION);
    hdr := hdr.(flags := extraFlags);
    hdr := hdr.(reserved := [0, 0]);
    hdr := hdr.(payloadSize := ToLe32(host, size));
    hdr := hdr.(checksum := ToLe32(host, crc));
    hdr := hdr.(messageId := ToLe32(host, messageId));
    HeaderBytesAreLayout(host, extraFlags, size, crc, messageId);
    PartsRunIsRight(HEADER_SIZE, |payload|, pipe.sends);
    r := WriteParts(pipe, HeaderBytes(host, hdr), payload);
  }

  /** The two writes of send_frame: the header, then a payload that is not empty. */
  method WriteParts(pipe: PosixPipe, header: seq<Byte>, payload: seq<Byte>) returns (r: IoResult)
    requires header != []
    modifies pipe`connected, pipe`outgoing, pipe`sends
    ensures Wrote(old(pipe.outgoing), pipe.outgoing, header + payload, r.Done?)
    ensures !pipe.open ==> r == Failed(NotConnected) && unchanged(pipe)
    ensures pipe.open ==>
              WriteEnd(r, |pipe.outgoing| - |old(pipe.outgoing)|, pipe.sends) == PartsRun(|header|, |payload|, old(pipe.sends))
  {
    ghost var start := pipe.outgoing;
    r := pipe.WriteAll(header);
    PrefixOfFrame(header, payload, |pipe.outgoing| - |start|);
    if !r.Done? {
      return;
    }
    assert pipe.outgoing == start + header;
    if payload != [] {
      r := WritePayload(pipe, start, header, payload);
    }
  }

  /** The second of them. */
  method WritePayload(pipe: PosixPipe, ghost start: seq<Byte>, ghost header: seq<Byte>, payload: seq<Byte>)
    returns (r: IoResult)
    requires pipe.outgoing == start + header && payload != []
    modifies pipe`connected, pipe`outgoing, pipe`sends
    ensures Wrote(start, pipe.outgoing, header + payload, r.Done?)
    ensures !pipe.open ==> r == Failed(NotConnected) && unchanged(pipe)
    ensures |pipe.outgoing| >= |start| + |header|
    ensures pipe.open ==>
              WriteEnd(r, |pipe.outgoing| - |start| - |header|, pipe.sends) == WriteRun(|payload|, old(pipe.sends))
  {
    r := pipe.WriteAll(payload);
    ghost var k := |pipe.outgoing| - |start| - |header|;
    PrefixOfFrame(header, payload, |header| + k);
    assert pipe.outgoing == start + (header + payload[..k]);
  }

  lemma PrefixOfFrame(header: seq<Byte>, payload: seq<Byte>, k: nat)
    requires k <= |header| + |payload|
    ensures (header + payload)[..k] ==
            if k <= |header| then header[..k] else header + payload[..k - |header|]
  {}

  /** Reading the fields of a header on any host is reading the header of the protocol. */
  lemma HostHeader(host: Host, raw: seq<Byte>)
    requires |raw| == HEADER_SIZE
    ensures var h := HeaderFromBytes(host, raw);
            && (h.magic == MAGIC && h.version == PROTOCOL_VERSION <==> ReadHeader(raw).GoodHeader?)
            && (ReadHeader(raw).GoodHeader? ==>
                  ReadHeader(raw) == GoodHeader(FromLe32(host, h.payloadSize), FromLe32(host, h.checksum),
                                                FromLe32(host, h.messageId), h.flags))
  {
    LoadedFieldIsLittleEndian(host, raw[8..12]);
    LoadedFieldIsLittleEndian(host, raw[12..16]);
    LoadedFieldIsLittleEndian(host, raw[16..20]);
  }

  datatype RecvResult = Received(frame: Frame) | RecvFailed(code: ErrorCode) | RecvBlocked

  function Code(r: IoResult): RecvResult
    requires !r.Done?
  {
    if r.Failed? then RecvFailed(r.code) else RecvBlocked
  }

  /** What was read does not decide anything yet. */
  ghost predicate Undecided(before: seq<Byte>, after: seq<Byte>) {
    && |after| <= |before| && after == before[|before| - |after|..]
    && Decode(before[..|before| - |after|]) == NeedMore
  }

  /**
    A result and a rest of the stream that fit what the stream decodes to. A receive ends
    without a decision only when what it has read does not allow one.
  */
  ghost predicate Agrees(d: Decoded, r: RecvResult, before: seq<Byte>, after: seq<Byte>) {
    match r
    case Received(frame) => d.Got? && d.length <= |before| && frame == d.frame && after == before[d.length..]
    case RecvFailed(code) =>
      && (code.InvalidMessage? ==> d.Reject?)
      && (code.ConnectionReset? ==> d.NeedMore? && after == [])
      && (code.Timeout? ==> Undecided(before, after))
    case RecvBlocked => Undecided(before, after)
  }

  /** How the reads behind a result ended. */
  function IoOf(r: RecvResult): IoResult {
    match r
    case Received(_) => Done
    case RecvFailed(code) => if code.InvalidMessage? then Done else Failed(code)
    case RecvBlocked => Blocked
  }

  // ---------------------------------------------------------------------------------------
  // What a script makes of a receive
  // ---------------------------------------------------------------------------------------

  datatype RecvEnd = RecvEnd(result: RecvResult, kernel: Kernel)

  /** The bytes of a read that is done are the first ones of the stream. */
  lemma ReadTakes(k: Kernel, size: nat, timeoutMs: int)
    ensures var end := ReadAllRun(k, size, timeoutMs);
            end.io.Done? ==>
              size <= |k.incoming| && end.data == k.incoming[..size] && end.kernel.incoming == k.incoming[size..]
  {
    ReadRunIsRight(k, size, PollTimeout(timeoutMs));
    var end := ReadAllRun(k, size, timeoutMs);
    assert end.io.Done? ==> (end.data + end.kernel.incoming)[..size] == end.data;
  }

  function PayloadRun(k: Kernel, size: U32, checksum: U32, messageId: U32, flags: Byte, timeoutMs: int): RecvEnd {
    ReadTakes(k, size, timeoutMs);
    var end := ReadAllRun(k, size, timeoutMs);
    if !end.io.Done? then RecvEnd(Code(end.io), end.kernel)
    else if Crc(k.incoming[..size]) != checksum then RecvEnd(RecvFailed(InvalidMessage), end.kernel)
    else RecvEnd(Received(Frame(k.incoming[..size], messageId, flags)), end.kernel)
  }

  function AfterHeader(raw: seq<Byte>, k: Kernel, timeoutMs: int): RecvEnd
    requires |raw| == HEADER_SIZE
  {
    match ReadHeader(raw)
    case BadHeader => RecvEnd(RecvFailed(InvalidMessage), k)
    case GoodHeader(size, checksum, messageId, flags) =>
      if size == 0 then RecvEnd(Received(Frame([], messageId, flags)), k)
      else PayloadRun(k, size, checksum, messageId, flags, timeoutMs)
  }

  function RecvRun(k: Kernel, timeoutMs: int): RecvEnd {
    ReadTakes(k, HEADER_SIZE, timeoutMs);
    var end := ReadAllRun(k, HEADER_SIZE, timeoutMs);
    if !end.io.Done? then RecvEnd(Code(end.io), end.kernel) else AfterHeader(k.incoming[..HEADER_SIZE], end.kernel, timeoutMs)
  }

  /** Without a connection nothing is read. */
  function PipeRun(open: bool, k: Kernel, timeoutMs: int): RecvEnd {
    if open then RecvRun(k, timeoutMs) else RecvEnd(RecvFailed(NotConnected), k)
  }

  /** A receive against the stream, the script and the clock. */
  ghost predicate RecvsRight(k: Kernel, timeoutMs: int, end: RecvEnd) {
    && Agrees(Decode(k.incoming), end.result, k.incoming, end.kernel.incoming)
    && CostsRight(k, timeoutMs, 2, end)
  }

  lemma UndecidedHeader(before: seq<Byte>, data: seq<Byte>, after: seq<Byte>)
    requires data + after == before && |data| < HEADER_SIZE
    ensures Undecided(before, after)
  {
    assert before[..|data|] == data && before[|data|..] == after;
  }

  lemma UndecidedPayload(before: seq<Byte>, raw: seq<Byte>, data: seq<Byte>, after: seq<Byte>)
    requires |raw| == HEADER_SIZE && raw + (data + after) == before
    requires ReadHeader(raw).GoodHeader? && |data| < ReadHeader(raw).size
    ensures Undecided(before, after)
  {
    assert before[..HEADER_SIZE + |data|] == raw + data && before[HEADER_SIZE + |data|..] == after;
    DecodeHeaderAndRest(raw, data);
  }

  lemma PayloadRunIsRight(k: Kernel, size: U32, checksum: U32, messageId: U32, flags: Byte, timeoutMs: int, raw: seq<Byte>)
    requires size > 0 && |raw| == HEADER_SIZE && ReadHeader(raw) == GoodHeader(size, checksum, messageId, flags)
    ensures var end := PayloadRun(k, size, checksum, messageId, flags, timeoutMs);
            Agrees(Decode(raw + k.incoming), end.result, raw + k.incoming, end.kernel.incoming)
  {
    var end := ReadAllRun(k, size, timeoutMs);
    var before, after := raw + k.incoming, end.kernel.incoming;
    ReadRunIsRight(k, size, PollTimeout(timeoutMs));
    ReadTakes(k, size, timeoutMs);
    DecodeHeaderAndRest(raw, k.incoming);
    assert end.data + after == k.incoming;
    if end.io.Done? {
      assert k.incoming[..size] == end.data && before[HEADER_SIZE + size..] == after;
    } else {
      UndecidedPayload(before, raw, end.data, after);
    }
  }

  /** The second read against the script and the clock. */
  lemma PayloadRunCosts(k: Kernel, size: U32, checksum: U32, messageId: U32, flags: Byte, timeoutMs: int)
    requires size > 0
    ensures CostsRight(k, timeoutMs, 1, PayloadRun(k, size, checksum, messageId, flags, timeoutMs))
  {
    ReadRunIsRight(k, size, PollTimeout(timeoutMs));
  }

  /** Deliveries, errors and time of a receive with the given number of reads. */
  ghost predicate CostsRight(k: Kernel, timeoutMs: int, parts: nat, end: RecvEnd) {
    var r, k' := end.result, end.kernel;
    && |k'.incoming| <= |k.incoming|
    && (r == RecvBlocked ==> k'.polls == [])
    && (r != RecvFailed(ConnectionReset) ==> |k.incoming| - |k'.incoming| + Deliveries(k'.polls) >= Deliveries(k.polls))
    && FailsRight(k.polls, k'.polls, PollTimeout(timeoutMs) >= 0, IoOf(r))
    && (r.RecvFailed? ==> !r.code.Overflow? && !r.code.NotConnected? && !r.code.InvalidArgument?)
    && k'.now >= k.now && k'.pollTime >= k.pollTime
    && (r == RecvFailed(Timeout) && Faults(k'.polls) == Faults(k.polls) ==>
          k'.now - k.now > (PollTimeout(timeoutMs) - 1) * NANOS_PER_MILLI)
    && (PollTimeout(timeoutMs) >= 0 ==> k'.pollTime - k.pollTime <= parts * (PollTimeout(timeoutMs) * NANOS_PER_MILLI))
  }

  lemma AfterHeaderCosts(raw: seq<Byte>, k: Kernel, timeoutMs: int)
    requires |raw| == HEADER_SIZE
    ensures CostsRight(k, timeoutMs, 1, AfterHeader(raw, k, timeoutMs))
  {
    var h := ReadHeader(raw);
    OneLater(k.polls);
    if h.GoodHeader? && h.size > 0 {
      PayloadRunCosts(k, h.size, h.checksum, h.messageId, h.flags, timeoutMs);
    }
  }

  lemma AfterHeaderAgrees(raw: seq<Byte>, k: Kernel, timeoutMs: int)
    requires |raw| == HEADER_SIZE
    ensures var end := AfterHeader(raw, k, timeoutMs);
            Agrees(Decode(raw + k.incoming), end.result, raw + k.incoming, end.kernel.incoming)
  {
    var h := ReadHeader(raw);
    DecodeHeaderAndRest(raw, k.incoming);
    if h.GoodHeader? && h.size > 0 {
      PayloadRunIsRight(k, h.size, h.checksum, h.messageId, h.flags, timeoutMs, raw);
    } else {
      assert (raw + k.incoming)[HEADER_SIZE..] == k.incoming;
    }
  }

  lemma RecvRunIsRight(k: Kernel, timeoutMs: int)
    ensures RecvsRight(k, timeoutMs, RecvRun(k, timeoutMs))
  {
    var end := ReadAllRun(k, HEADER_SIZE, timeoutMs);
    ReadRunIsRight(k, HEADER_SIZE, PollTimeout(timeoutMs));
    ReadTakes(k, HEADER_SIZE, timeoutMs);
    if end.io.Done? {
      AfterHeaderCosts(end.data, end.kernel, timeoutMs);
      AfterHeaderAgrees(end.data, end.kernel, timeoutMs);
      var whole := RecvRun(k, timeoutMs);
      FailsLater(k.polls, end.kernel.polls, whole.kernel.polls, PollTimeout(timeoutMs) >= 0, IoOf(whole.result));
    } else {
      HeaderReadAgrees(k.incoming, end);
    }
  }

  /**
    Without a limit only ETIMEDOUT makes a receive time out. A limit covers each of the two
    reads, and one of them has used it up when it expires.
  */
  ghost predicate RecvKeepsLimit(k: Kernel, timeoutMs: int, end: RecvEnd) {
    var k', lapsed := end.kernel, ErrorUsed(k.polls, |end.kernel.polls|) == Some(ETIMEDOUT);
    && (timeoutMs == 0 && end.result == RecvFailed(Timeout) ==> lapsed)
    && (0 < timeoutMs <= INT_MAX ==> k'.pollTime - k.pollTime <= 2 * timeoutMs * NANOS_PER_MILLI)
    && (0 < timeoutMs <= INT_MAX && end.result == RecvFailed(Timeout) ==>
          lapsed || k'.now - k.now > (timeoutMs - 1) * NANOS_PER_MILLI)
  }

  lemma LimitIsKept(k: Kernel, timeoutMs: int, end: RecvEnd)
    requires CostsRight(k, timeoutMs, 2, end)
    ensures RecvKeepsLimit(k, timeoutMs, end)
  {}

  lemma HeaderReadAgrees(before: seq<Byte>, end: ReadEnd)
    requires end.data + end.kernel.incoming == before && !end.io.Done? && |end.data| < HEADER_SIZE
    requires end.io.Failed? ==> IsIoError(end.io.code)
    requires end.io == Failed(ConnectionReset) ==> end.kernel.incoming == []
    ensures Agrees(Decode(before), Code(end.io), before, end.kernel.incoming)
  {
    UndecidedHeader(before, end.data, end.kernel.incoming);
  }

  /** A frame that is delivered in one piece per read, without delay. */
  function AtOnce(f: Frame): seq<Poll> {
    [Poll(0, 0, 0, Readable(Bytes(HEADER_SIZE)))]
    + if f.payload == [] then [] else [Poll(0, 0, 0, Readable(Bytes(|f.payload|)))]
  }

  lemma FrameArrives(f: Frame, rest: seq<Byte>, polls: seq<Poll>, now: nat, pollTime: nat, timeoutMs: int)
    requires Encodable(f) && PollTimeout(timeoutMs) > 0
    ensures RecvRun(Kernel(Encode(f) + rest, AtOnce(f) + polls, now, pollTime), timeoutMs)
            == RecvEnd(Received(f), Kernel(rest, polls, now, pollTime))
  {
    var k := Kernel(Encode(f) + rest, AtOnce(f) + polls, now, pollTime);
    EncodeFields(f, rest);
    ReadAtOnce(k, HEADER_SIZE, timeoutMs);
    var k1 := Kernel(f.payload + rest, AtOnce(f)[1..] + polls, now, pollTime);
    assert k.polls[1..] == k1.polls;
    if f.payload == [] {
      assert k1.incoming == rest && k1.polls == polls;
    } else {
      ReadAtOnce(k1, |f.payload|, timeoutMs);
      assert k1.incoming[..|f.payload|] == f.payload && k1.incoming[|f.payload|..] == rest && k1.polls[1..] == polls;
    }
  }

  /** The stream begins with a good header that announces a payload. */
  ghost predicate Announces(s: seq<Byte>) {
    |s| >= HEADER_SIZE && ReadHeader(s[..HEADER_SIZE]).GoodHeader? && ReadHeader(s[..HEADER_SIZE]).size > 0
  }

  /** The header comes when its timeout is about to expire, and the payload never. */
  function LateHeader(limit: nat): seq<Poll> {
    [Poll(0, 0, limit, Readable(Bytes(HEADER_SIZE))), Poll(0, 0, limit, Expires)]
  }

  lemma WaitsTwice(s: seq<Byte>, timeoutMs: int, now: nat, pollTime: nat)
    requires Announces(s) && PollTimeout(timeoutMs) > 0
    ensures var limit := PollTimeout(timeoutMs) * NANOS_PER_MILLI;
            RecvRun(Kernel(s, LateHeader(limit), now, pollTime), timeoutMs)
            == RecvEnd(RecvFailed(Timeout), Kernel(s[HEADER_SIZE..], [], now + 2 * limit, pollTime + 2 * limit))
  {
    var limit := PollTimeout(timeoutMs) * NANOS_PER_MILLI;
    var k := Kernel(s, LateHeader(limit), now, pollTime);
    var k1 := Kernel(s[HEADER_SIZE..], LateHeader(limit)[1..], now + limit, pollTime + limit);
    ReadAtOnce(k, HEADER_SIZE, timeoutMs);
    assert k.polls[1..] == k1.polls && k1.polls[1..] == [];
  }

  lemma WaitsOnce(k: Kernel, timeoutMs: int)
    requires PollTimeout(timeoutMs) >= 0 && !Announces(k.incoming)
    ensures RecvRun(k, timeoutMs).kernel.pollTime - k.pollTime <= PollTimeout(timeoutMs) * NANOS_PER_MILLI
  {
    var end := ReadAllRun(k, HEADER_SIZE, timeoutMs);
    ReadRunIsRight(k, HEADER_SIZE, PollTimeout(timeoutMs));
    if end.io.Done? {
      assert k.incoming[..HEADER_SIZE] == end.data;
    }
  }

  /**
    A receive keeps its timeout under every script exactly on those streams that do not begin
    with a good header of a payload; on the others it may take twice as long.
  */
  lemma TimeoutKeptIff(s: seq<Byte>, timeoutMs: int)
    requires PollTimeout(timeoutMs) > 0
    ensures !Announces(s) <==>
            forall k: Kernel :: k.incoming == s ==>
              RecvRun(k, timeoutMs).kernel.pollTime - k.pollTime <= PollTimeout(timeoutMs) * NANOS_PER_MILLI
    ensures Announces(s) <==>
            exists k: Kernel :: k.incoming == s &&
              RecvRun(k, timeoutMs).kernel.pollTime - k.pollTime == 2 * (PollTimeout(timeoutMs) * NANOS_PER_MILLI)
  {
    if Announces(s) {
      WaitsTwice(s, timeoutMs, 0, 0);
      var k := Kernel(s, LateHeader(PollTimeout(timeoutMs) * NANOS_PER_MILLI), 0, 0);
      assert k.incoming == s && RecvRun(k, timeoutMs).kernel.pollTime == 2 * (PollTimeout(timeoutMs) * NANOS_PER_MILLI);
    } else {
      forall k: Kernel | k.incoming == s
        ensures RecvRun(k, timeoutMs).kernel.pollTime - k.pollTime <= PollTimeout(timeoutMs) * NANOS_PER_MILLI
      {
        WaitsOnce(k, timeoutMs);
      }
    }
  }

  /**
    Whatever the kernel answers, a frame is delivered only when the stream decodes to it,
    InvalidMessage is raised only when it is rejected, and ConnectionReset means that it ends
    inside a frame; unless a system call fails, those and an expired timeout are all that can
    happen. The timeout covers header and payload separately.
  */
  method RecvFrame(host: Host, pipe: PosixPipe, timeoutMs: int) returns (r: RecvResult)
    modifies pipe`connected, pipe`incoming, pipe`polls, pipe`now, pipe`pollTime
    ensures Agrees(Decode(old(pipe.incoming)), r, old(pipe.incoming), pipe.incoming)
    ensures !pipe.open ==> r == RecvFailed(NotConnected) && unchanged(pipe)
    ensures RecvEnd(r, pipe.Reading()) == PipeRun(pipe.open, old(pipe.Reading()), timeoutMs)
    ensures pipe.open ==> RecvsRight(old(pipe.Reading()), timeoutMs, RecvEnd(r, pipe.Reading()))
    ensures pipe.open ==> RecvKeepsLimit(old(pipe.Reading()), timeoutMs, RecvEnd(r, pipe.Reading()))
  {
    RecvRunIsRight(pipe.Reading(), timeoutMs);
    LimitIsKept(pipe.Reading(), timeoutMs, RecvRun(pipe.Reading(), timeoutMs));
    ReadTakes(pipe.Reading(), HEADER_SIZE, timeoutMs);
    var io, raw := pipe.ReadAll(HEADER_SIZE, timeoutMs);
    if !io.Done? {
      return Code(io);
    }
    r := RecvRest(host, pipe, raw, timeoutMs);
  }

  /** recv_frame once the header is complete. */
  method RecvRest(host: Host, pipe: PosixPipe, raw: seq<Byte>, timeoutMs: int) returns (r: RecvResult)
    requires pipe.open && |raw| == HEADER_SIZE
    modifies pipe`connected, pipe`incoming, pipe`polls, pipe`now, pipe`pollTime
    ensures RecvEnd(r, pipe.Reading()) == AfterHeader(raw, old(pipe.Reading()), timeoutMs)
  {
    HostHeader(host, raw);
    var hdr := HeaderFromBytes(host, raw);
    if hdr.magic != MAGIC {
      return RecvFailed(InvalidMessage);
    }
    if hdr.version != PROTOCOL_VERSION {
      return RecvFailed(InvalidMessage);
    }
    var size := FromLe32(host, hdr.payloadSize);
    var expected := FromLe32(host, hdr.checksum);
    var id := FromLe32(host, hdr.messageId);
    if size == 0 {
      return Received(Frame([], id, hdr.flags));
    }
    ReadTakes(pipe.Reading(), size, timeoutMs);
    var io, payload := pipe.ReadAll(size, timeoutMs);
    if !io.Done? {
      return Code(io);
    }
    var computed := ComputeCrc32c(payload);
    if computed != expected {
      return RecvFailed(InvalidMessage);
    }
    return Received(Frame(payload, id, hdr.flags));
  }
}
