/**
  The wire format: a 20-byte header followed by the payload. `Encode` is the layout the
  protocol prescribes and `Decode` the decision a receiver makes about a byte stream, both as
  plain functions; the methods that read and write frames are proved against them.
*/
module Frames {
  import opened Words
  import opened Crc32c

  // ---------------------------------------------------------------------------------------
  // Host byte order
  // ---------------------------------------------------------------------------------------

  /** Little-endian bytes of a word. */
  function Wire(v: U32): (bytes: seq<Byte>)
    ensures |bytes| == 4
  {
    var v1 := v / 0x100;
    var v2 := v1 / 0x100;
    var v3 := v2 / 0x100;
    [v % 0x100, v1 % 0x100, v2 % 0x100, v3]
  }

  function FromWire(bytes: seq<Byte>): U32
    requires |bytes| == 4
  {
    var b0, b1, b2, b3: int := bytes[0], bytes[1], bytes[2], bytes[3];
    b0 + 0x100 * (b1 + 0x100 * (b2 + 0x100 * b3))
  }

  lemma WireRoundTrip(v: U32)
    ensures FromWire(Wire(v)) == v
  {}

  lemma WireSurjective(bytes: seq<Byte>)
    requires |bytes| == 4
    ensures Wire(FromWire(bytes)) == bytes
  {
    var b0, b1, b2, b3: int := bytes[0], bytes[1], bytes[2], bytes[3];
    var v2 := b2 + 0x100 * b3;
    var v1 := b1 + 0x100 * v2;
    var v := b0 + 0x100 * v1;
    assert v % 0x100 == b0 && v / 0x100 == v1;
    assert v1 % 0x100 == b1 && v1 / 0x100 == v2;
    assert v2 % 0x100 == b2 && v2 / 0x100 == b3;
  }

  datatype Host = LittleHost | BigHost

  function Reversed(bytes: seq<Byte>): (r: seq<Byte>)
    requires |bytes| == 4
    ensures |r| == 4
  {
    [bytes[3], bytes[2], bytes[1], bytes[0]]
  }

  /** Masks each byte out and shifts it to the mirrored place, on big-endian hosts only. */
  function ToLe32(host: Host, v: U32): U32 {
    match host
    case LittleHost => v
    case BigHost =>
      var b0, b1, b2, b3: int := Wire(v)[0], Wire(v)[1], Wire(v)[2], Wire(v)[3];
      b0 * 0x100_0000 + b1 * 0x1_0000 + b2 * 0x100 + b3
  }

  function FromLe32(host: Host, v: U32): U32 {
    ToLe32(host, v)
  }

  /** How a host lays out a 32-bit variable in memory. */
  function InMemory(host: Host, v: U32): (bytes: seq<Byte>)
    ensures |bytes| == 4
  {
    if host.LittleHost? then Wire(v) else Reversed(Wire(v))
  }

  function LoadFromMemory(host: Host, bytes: seq<Byte>): U32
    requires |bytes| == 4
  {
    FromWire(if host.LittleHost? then bytes else Reversed(bytes))
  }

  lemma SwapReverses(v: U32)
    ensures ToLe32(BigHost, v) == FromWire(Reversed(Wire(v)))
  {}

  /** Whatever the host, a converted field is little-endian in memory. */
  lemma ConvertedFieldIsLittleEndian(host: Host, v: U32)
    ensures InMemory(host, ToLe32(host, v)) == Wire(v)
  {
    SwapReverses(v);
    WireSurjective(Reversed(Wire(v)));
  }

  /** Whatever the host, a loaded and converted field is the little-endian value. */
  lemma LoadedFieldIsLittleEndian(host: Host, bytes: seq<Byte>)
    requires |bytes| == 4
    ensures FromLe32(host, LoadFromMemory(host, bytes)) == FromWire(bytes)
  {
    var v := LoadFromMemory(host, bytes);
    SwapReverses(v);
    WireSurjective(Reversed(bytes));
    assert host.BigHost? ==> Reversed(Wire(v)) == bytes;
  }

  // ---------------------------------------------------------------------------------------
  // Frames
  // ---------------------------------------------------------------------------------------

  const MAGIC: seq<Byte> := [0x50, 0x49, 0x50, 0x45]
  const PROTOCOL_VERSION: Byte := 0x02
  const FLAG_REQUEST: Byte := 0x04
  const FLAG_RESPONSE: Byte := 0x08
  const NO_MESSAGE_ID: U32 := 0
  const RESERVED_ID_MAX: U32 := 0xFFFF_FFFF
  const HEADER_SIZE: nat := 20

  /** A message is its payload. */
  type Message = seq<Byte>

  datatype Frame = Frame(payload: seq<Byte>, messageId: U32, flags: Byte)

  predicate HasFlag(flags: Byte, flag: Byte)
    requires flag > 0
  {
    flags / flag % 2 == 1
  }

  predicate Encodable(f: Frame) { |f.payload| < TWO_32 }

  function Checksum(payload: seq<Byte>): U32 {
    if payload == [] then 0 else Crc(payload)
  }

  /** The 20 header bytes as the protocol lays them out. */
  function Layout(flags: Byte, size: U32, checksum: U32, id: U32): (bytes: seq<Byte>)
    ensures |bytes| == HEADER_SIZE
  {
    MAGIC + [PROTOCOL_VERSION, flags, 0, 0] + Wire(size) + Wire(checksum) + Wire(id)
  }

  function Header(f: Frame): (bytes: seq<Byte>)
    requires Encodable(f)
    ensures |bytes| == HEADER_SIZE
  {
    Layout(f.flags, |f.payload|, Checksum(f.payload), f.messageId)
  }

  function Encode(f: Frame): (bytes: seq<Byte>)
    requires Encodable(f)
    ensures |bytes| == HEADER_SIZE + |f.payload|
  {
    Header(f) + f.payload
  }

  lemma SliceParts(a: seq<Byte>, b: seq<Byte>, c: seq<Byte>, d: seq<Byte>, e: seq<Byte>)
    requires |a| == |b| == |c| == |d| == |e| == 4
    ensures var s := a + b + c + d + e;
            && s[..4] == a && s[4..8] == b && s[8..12] == c && s[12..16] == d && s[16..20] == e
  {}

  /** The number in four bytes, least significant first. */
  ghost function NumberAt(s: seq<Byte>, i: nat): int
    requires i + 4 <= |s|
  {
    var b0, b1, b2, b3: int := s[i], s[i + 1], s[i + 2], s[i + 3];
    b0 + 0x100 * b1 + 0x1_0000 * b2 + 0x100_0000 * b3
  }

  lemma NumberIsWire(s: seq<Byte>, i: nat)
    requires i + 4 <= |s|
    ensures FromWire(s[i..i + 4]) == NumberAt(s, i)
  {}

  /** PIPE and the version. */
  ghost predicate Signed(s: seq<Byte>)
    requires |s| >= 5
  {
    s[0] == 0x50 && s[1] == 0x49 && s[2] == 0x50 && s[3] == 0x45 && s[4] == 2
  }

  /** Where everything lies in an encoded frame. */
  lemma FrameBytes(f: Frame)
    requires Encodable(f)
    ensures var s := Encode(f);
            && |s| == 20 + |f.payload| && s[20..] == f.payload
            && Signed(s) && s[5] == f.flags && s[6] == 0 && s[7] == 0
            && NumberAt(s, 8) == |f.payload|
            && NumberAt(s, 12) == (if f.payload == [] then 0 else Crc(f.payload))
            && NumberAt(s, 16) == f.messageId
  {
    var s, h := Encode(f), Header(f);
    var size, checksum, id := Wire(|f.payload|), Wire(Checksum(f.payload)), Wire(f.messageId);
    var b: seq<Byte> := [PROTOCOL_VERSION, f.flags, 0, 0];
    SliceParts(MAGIC, b, size, checksum, id);
    assert h[..4] == MAGIC && h[4..8] == b;
    assert h[0] == h[..4][0] && h[1] == h[..4][1] && h[2] == h[..4][2] && h[3] == h[..4][3];
    assert h[4] == h[4..8][0] && h[5] == h[4..8][1] && h[6] == h[4..8][2] && h[7] == h[4..8][3];
    assert s[8..12] == h[8..12] == size && s[12..16] == h[12..16] == checksum && s[16..20] == h[16..20] == id;
    NumberIsWire(s, 8);
    NumberIsWire(s, 12);
    NumberIsWire(s, 16);
    WireRoundTrip(|f.payload|);
    WireRoundTrip(Checksum(f.payload));
    WireRoundTrip(f.messageId);
  }

  datatype HeaderDecision = BadHeader | GoodHeader(size: U32, checksum: U32, messageId: U32, flags: Byte)

  /** The two reserved bytes are not looked at. */
  function ReadHeader(raw: seq<Byte>): HeaderDecision
    requires |raw| == HEADER_SIZE
  {
    if raw[..4] != MAGIC || raw[4] != PROTOCOL_VERSION then BadHeader
    else GoodHeader(FromWire(raw[8..12]), FromWire(raw[12..16]), FromWire(raw[16..20]), raw[5])
  }

  datatype PayloadDecision = Short | Corrupt | Payload(bytes: seq<Byte>)

  /** An empty payload is accepted without looking at the checksum. */
  function TakePayload(size: U32, checksum: U32, rest: seq<Byte>): (d: PayloadDecision)
    ensures d.Payload? ==> |d.bytes| == size <= |rest|
  {
    if size == 0 then Payload([])
    else if |rest| < size then Short
    else if Crc(rest[..size]) != checksum then Corrupt
    else Payload(rest[..size])
  }

  datatype Decoded = NeedMore | Reject | Got(frame: Frame, length: nat)

  function DecodeAfter(header: HeaderDecision, rest: seq<Byte>): (d: Decoded)
    ensures d.Got? ==> d.length == HEADER_SIZE + |d.frame.payload| <= HEADER_SIZE + |rest|
    ensures d.Got? ==> Encodable(d.frame)
  {
    match header
    case BadHeader => Reject
    case GoodHeader(size, checksum, id, flags) =>
      match TakePayload(size, checksum, rest)
      case Short => NeedMore
      case Corrupt => Reject
      case Payload(bytes) => Got(Frame(bytes, id, flags), HEADER_SIZE + size)
  }

  /** What the bytes at the head of a stream mean to a receiver. */
  function Decode(s: seq<Byte>): (d: Decoded)
    ensures d.Got? ==> HEADER_SIZE <= d.length <= |s| && d.length == HEADER_SIZE + |d.frame.payload|
    ensures d.Got? ==> Encodable(d.frame)
  {
    if |s| < HEADER_SIZE then NeedMore
    else DecodeAfter(ReadHeader(s[..HEADER_SIZE]), s[HEADER_SIZE..])
  }

  /** A receiver reads back the fields of a laid-out header. */
  lemma ReadLayout(flags: Byte, size: U32, checksum: U32, id: U32)
    ensures ReadHeader(Layout(flags, size, checksum, id)) == GoodHeader(size, checksum, id, flags)
  {
    var b: seq<Byte> := [PROTOCOL_VERSION, flags, 0, 0];
    SliceParts(MAGIC, b, Wire(size), Wire(checksum), Wire(id));
    var s := Layout(flags, size, checksum, id);
    assert s[4] == s[4..8][0] && s[5] == s[4..8][1];
    WireRoundTrip(size);
    WireRoundTrip(checksum);
    WireRoundTrip(id);
  }

  /** The decision about a stream, in terms of its bytes; an empty payload is taken whatever its checksum says. */
  lemma DecodeMeaning(s: seq<Byte>)
    ensures match Decode(s)
            case NeedMore => |s| < 20 || (Signed(s) && |s| < 20 + NumberAt(s, 8))
            case Reject =>
              && |s| >= 20
              && (|| !Signed(s)
                  || (0 < NumberAt(s, 8) <= |s| - 20 && Crc(s[20..20 + NumberAt(s, 8)]) != NumberAt(s, 12)))
            case Got(f, n) =>
              && |s| >= 20 && Signed(s) && n == 20 + NumberAt(s, 8) <= |s|
              && f.payload == s[20..n] && f.messageId == NumberAt(s, 16) && f.flags == s[5]
              && (f.payload != [] ==> Crc(f.payload) == NumberAt(s, 12))
  {
    if |s| >= HEADER_SIZE {
      var raw, rest := s[..HEADER_SIZE], s[HEADER_SIZE..];
      assert raw[..4] == [s[0], s[1], s[2], s[3]];
      assert raw[8..12] == s[8..12] && raw[12..16] == s[12..16] && raw[16..20] == s[16..20];
      NumberIsWire(s, 8);
      NumberIsWire(s, 12);
      NumberIsWire(s, 16);
      var size := NumberAt(s, 8);
      if 0 <= size <= |rest| {
        assert rest[..size] == s[20..20 + size];
      }
    }
  }

  lemma EncodeFields(f: Frame, rest: seq<Byte>)
    requires Encodable(f)
    ensures var s := Encode(f) + rest;
            && s[..HEADER_SIZE] == Header(f) && s[HEADER_SIZE..] == f.payload + rest
            && ReadHeader(Header(f)) == GoodHeader(|f.payload|, Checksum(f.payload), f.messageId, f.flags)
  {
    var checksum := Checksum(f.payload);
    ReadLayout(f.flags, |f.payload|, checksum, f.messageId);
    assert Encode(f) + rest == Header(f) + (f.payload + rest);
  }

  lemma DecodeHeaderAndRest(raw: seq<Byte>, rest: seq<Byte>)
    requires |raw| == HEADER_SIZE
    ensures Decode(raw + rest) == DecodeAfter(ReadHeader(raw), rest)
  {
    assert (raw + rest)[..HEADER_SIZE] == raw && (raw + rest)[HEADER_SIZE..] == rest;
  }

  /** A receiver recovers an encoded frame and nothing of what follows it. */
  lemma DecodeEncode(f: Frame, rest: seq<Byte>)
    requires Encodable(f)
    ensures Decode(Encode(f) + rest) == Got(f, |Encode(f)|)
  {
    EncodeFields(f, rest);
    assert (f.payload + rest)[..|f.payload|] == f.payload;
  }

  /** No receiver decides before the last byte of a frame. */
  lemma DecodePartial(f: Frame, k: nat)
    requires Encodable(f) && k < |Encode(f)|
    ensures Decode(Encode(f)[..k]) == NeedMore
  {
    EncodeFields(f, []);
    assert Encode(f) + [] == Encode(f);
    if k >= HEADER_SIZE {
      assert Encode(f)[..k][..HEADER_SIZE] == Header(f);
      assert |Encode(f)[..k][HEADER_SIZE..]| < |f.payload|;
    }
  }

  /** A good header is the layout of its fields exactly when its reserved bytes are zero. */
  lemma HeaderIsLayout(raw: seq<Byte>)
    requires |raw| == HEADER_SIZE && ReadHeader(raw).GoodHeader?
    ensures var GoodHeader(size, checksum, id, flags) := ReadHeader(raw);
            raw == Layout(flags, size, checksum, id) <==> raw[6..8] == [0, 0]
  {
    WireSurjective(raw[8..12]);
    WireSurjective(raw[12..16]);
    WireSurjective(raw[16..20]);
    var GoodHeader(size, checksum, id, flags) := ReadHeader(raw);
    var b: seq<Byte> := [PROTOCOL_VERSION, flags, 0, 0];
    SliceParts(MAGIC, b, Wire(size), Wire(checksum), Wire(id));
    assert raw == raw[..4] + raw[4..8] + raw[8..12] + raw[12..16] + raw[16..20];
    assert raw[4..8] == [raw[4], raw[5], raw[6], raw[7]];
    if raw == Layout(flags, size, checksum, id) {
      assert raw[4..8] == b;
    }
  }

  /**
    The accepted byte strings are the encodings, up to the two reserved bytes and, for empty
    payloads, the checksum field: neither is ever looked at.
  */
  lemma AcceptedIsEncoding(s: seq<Byte>)
    requires Decode(s).Got?
    ensures var Got(f, n) := Decode(s);
            s[..n] == Encode(f) <==> s[6..8] == [0, 0] && (f.payload == [] ==> FromWire(s[12..16]) == 0)
  {
    var Got(f, n) := Decode(s);
    var raw := s[..HEADER_SIZE];
    var GoodHeader(size, checksum, id, flags) := ReadHeader(raw);
    HeaderIsLayout(raw);
    assert raw[6..8] == s[6..8] && raw[12..16] == s[12..16];
    assert s[HEADER_SIZE..][..size] == s[HEADER_SIZE..n];
    assert s[..n] == raw + f.payload;
    if s[..n] == Encode(f) {
      assert raw == s[..n][..HEADER_SIZE] == Header(f);
      ReadLayout(flags, size, Checksum(f.payload), id);
    }
  }

  lemma CorruptPayload(size: U32, checksum: U32, bytes: seq<Byte>, rest: seq<Byte>)
    requires 0 < size == |bytes| && Crc(bytes) != checksum
    ensures TakePayload(size, checksum, bytes + rest) == Corrupt
  {
    assert (bytes + rest)[..size] == bytes;
  }

  /** A burst of at most four bytes inside the payload of a frame is rejected, whatever its size. */
  lemma PayloadBurstIsRejected(f: Frame, corrupted: seq<Byte>, start: nat, rest: seq<Byte>)
    requires Encodable(f) && |corrupted| == |f.payload| && corrupted != f.payload
    requires forall i :: 0 <= i < |corrupted| && !(start <= i < start + 4) ==> corrupted[i] == f.payload[i]
    ensures Decode(Header(f) + (corrupted + rest)) == Reject
  {
    var checksum := Checksum(f.payload);
    EncodeFields(f, []);
    FourByteBurstChangesCrc(corrupted, f.payload, start);
    CorruptPayload(|corrupted|, checksum, corrupted, rest);
    DecodeHeaderAndRest(Header(f), corrupted + rest);
  }

  // ---------------------------------------------------------------------------------------
  // Streams of frames
  // ---------------------------------------------------------------------------------------

  ghost predicate AllEncodable(frames: seq<Frame>) {
    forall i :: 0 <= i < |frames| ==> Encodable(frames[i])
  }

  function Flatten(parts: seq<seq<Byte>>): seq<Byte> {
    if parts == [] then [] else parts[0] + Flatten(parts[1..])
  }

  function Encodings(frames: seq<Frame>): (parts: seq<seq<Byte>>)
    requires AllEncodable(frames)
    ensures |parts| == |frames| && forall i :: 0 <= i < |parts| ==> parts[i] == Encode(frames[i])
  {
    seq(|frames|, i requires 0 <= i < |frames| => Encode(frames[i]))
  }

  function EncodeAll(frames: seq<Frame>): seq<Byte>
    requires AllEncodable(frames)
  {
    Flatten(Encodings(frames))
  }

  lemma {:induction false} FlattenAppend(parts: seq<seq<Byte>>, part: seq<Byte>)
    ensures Flatten(parts + [part]) == Flatten(parts) + part
    decreases |parts|
  {
    if parts != [] {
      FlattenAppend(parts[1..], part);
      assert (parts + [part])[1..] == parts[1..] + [part];
      assert parts[0] + (Flatten(parts[1..]) + part) == (parts[0] + Flatten(parts[1..])) + part;
    } else {
      assert ([] + [part])[1..] == [];
      assert Flatten([part]) == part + Flatten([part][1..]);
    }
  }

  lemma EncodeAllAppend(frames: seq<Frame>, f: Frame)
    requires AllEncodable(frames) && Encodable(f)
    ensures EncodeAll(frames + [f]) == EncodeAll(frames) + Encode(f)
  {
    FlattenAppend(Encodings(frames), Encode(f));
    assert Encodings(frames + [f]) == Encodings(frames) + [Encode(f)];
  }

  /** The frames a receiver takes off a stream before it must wait or gives up. */
  function ParseAll(s: seq<Byte>): seq<Frame>
    decreases |s|
  {
    match Decode(s)
    case Got(f, n) => [f] + ParseAll(s[n..])
    case NeedMore => []
    case Reject => []
  }

  /** The stream behind its first frame, if it begins with one. */
  function Behind(s: seq<Byte>): (rest: seq<Byte>)
    ensures |rest| <= |s|
  {
    match Decode(s)
    case Got(_, n) => s[n..]
    case _ => s
  }

  /** The stream behind its first n frames. */
  function Rest(s: seq<Byte>, n: nat): (rest: seq<Byte>)
    ensures |rest| <= |s|
    decreases n
  {
    if n == 0 then s else Behind(Rest(s, n - 1))
  }

  lemma ParseBehind(s: seq<Byte>)
    ensures ParseAll(s) == [] <==> !Decode(s).Got?
    ensures Decode(s).Got? ==>
              ParseAll(s) == [Decode(s).frame] + ParseAll(Behind(s)) && Behind(s) == s[Decode(s).length..]
  {}

  lemma {:induction false} RestParses(s: seq<Byte>, n: nat)
    requires n <= |ParseAll(s)|
    ensures ParseAll(Rest(s, n)) == ParseAll(s)[n..]
    decreases n
  {
    if n > 0 {
      RestParses(s, n - 1);
      TailOfSlice(ParseAll(s), n);
      ParseTail(Rest(s, n - 1), ParseAll(s)[n - 1..]);
    }
  }

  lemma TailOfSlice(fs: seq<Frame>, n: nat)
    requires 0 < n <= |fs|
    ensures fs[n - 1..] != [] && fs[n - 1..][1..] == fs[n..]
  {}

  lemma ParseTail(s: seq<Byte>, fs: seq<Frame>)
    requires ParseAll(s) == fs && fs != []
    ensures ParseAll(Behind(s)) == fs[1..]
  {
    ParseBehind(s);
  }

  /** One more frame off a stream of which n have been taken. */
  lemma TakeOneMore(s: seq<Byte>, n: nat)
    requires n <= |ParseAll(s)| && Decode(Rest(s, n)).Got?
    ensures n < |ParseAll(s)| && ParseAll(s)[n] == Decode(Rest(s, n)).frame
    ensures Rest(s, n + 1) == Rest(s, n)[Decode(Rest(s, n)).length..]
    ensures ParseAll(s)[..n + 1] == ParseAll(s)[..n] + [Decode(Rest(s, n)).frame]
  {
    RestParses(s, n);
    ParseBehind(Rest(s, n));
  }

  /** A stream whose rest does not begin with a frame has no more of them. */
  lemma NoMoreFrames(s: seq<Byte>, n: nat)
    requires n <= |ParseAll(s)| && !Decode(Rest(s, n)).Got?
    ensures n == |ParseAll(s)|
  {
    RestParses(s, n);
    ParseBehind(Rest(s, n));
  }

  lemma ParseCons(f: Frame, rest: seq<Byte>)
    requires Encodable(f)
    ensures ParseAll(Encode(f) + rest) == [f] + ParseAll(rest)
  {
    DecodeEncode(f, rest);
    assert (Encode(f) + rest)[|Encode(f)|..] == rest;
  }

  lemma EncodeAllSplit(frames: seq<Frame>, tail: seq<Byte>)
    requires AllEncodable(frames) && frames != []
    ensures EncodeAll(frames) + tail == Encode(frames[0]) + (EncodeAll(frames[1..]) + tail)
  {
    var parts := Encodings(frames);
    assert parts[1..] == Encodings(frames[1..]);
    assert (parts[0] + Flatten(parts[1..])) + tail == parts[0] + (Flatten(parts[1..]) + tail);
  }

  /** Whole frames followed by an undecided rest parse back to exactly those frames. */
  lemma {:induction false} ParseEncodeAll(frames: seq<Frame>, tail: seq<Byte>)
    requires AllEncodable(frames) && !Decode(tail).Got?
    ensures ParseAll(EncodeAll(frames) + tail) == frames
    decreases |frames|
  {
    if frames == [] {
      assert EncodeAll(frames) + tail == tail;
    } else {
      var rest := EncodeAll(frames[1..]) + tail;
      EncodeAllSplit(frames, tail);
      ParseCons(frames[0], rest);
      ParseEncodeAll(frames[1..], tail);
      assert [frames[0]] + frames[1..] == frames;
    }
  }
}
