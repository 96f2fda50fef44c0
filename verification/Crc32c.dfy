/**
  CRC-32C. The reference is the definition of Appendix B of RFC 4960: the remainder of a
  polynomial over GF(2) found by long division. The two implementations in the repository,
  both driven by a table of 256 words, are methods proved to compute it.
*/
module Crc32c {
  import opened Words

  // ---------------------------------------------------------------------------------------
  // The reference: polynomial long division
  // ---------------------------------------------------------------------------------------

  /** x^32 plus the powers accepted here is the Castagnoli generator. */
  predicate IsGeneratorPower(e: int) {
    || 25 <= e <= 28 || 22 <= e <= 23 || 18 <= e <= 20 || 13 <= e <= 14
    || 8 <= e <= 11 || e == 6 || e == 0
  }

  /** Coefficients of x^31 down to x^0 of the generator. */
  function Generator(): (g: seq<bool>)
    ensures |g| == 32 && forall k :: 0 <= k < 32 ==> g[k] == IsGeneratorPower(31 - k)
  {
    seq(32, k => IsGeneratorPower(31 - k))
  }

  /** Long division of a polynomial given by its coefficients, highest power first. */
  function Remainder(p: seq<bool>): (r: seq<bool>)
    requires |p| >= 32
    ensures |r| == 32
    decreases |p|
  {
    if |p| == 32 then p
    else if p[0] then Remainder(XorBits(p[1..33], Generator()) + p[33..])
    else Remainder(p[1..])
  }

  /** Transmission order: bytes in order, each byte least significant bit first. */
  function ByteBits(data: seq<Byte>): (bits: seq<bool>)
    ensures |bits| == 8 * |data|
    decreases |data|
  {
    if data == [] then [] else BitsOf(data[0], 8) + ByteBits(data[1..])
  }

  /** The message times x^32, its 32 highest coefficients combined with `start`. */
  function Dividend(start: seq<bool>, message: seq<bool>): (p: seq<bool>)
    requires |start| == 32
    ensures |p| == |message| + 32
    ensures forall k :: 0 <= k < |p| ==> p[k] == ((k < 32 && start[k]) != (k < |message| && message[k]))
  {
    var s := message + Zeros(32);
    XorBits(start, s[..32]) + s[32..]
  }

  /** The complemented remainder, the coefficient of x^31 in the least significant bit. */
  function StandardCrc(data: seq<Byte>): U32 {
    Pow2_32();
    ValueOf(XorBits(Remainder(Dividend(Ones(32), ByteBits(data))), Ones(32)))
  }

  // ---------------------------------------------------------------------------------------
  // The shift register consumes one bit at a time
  // ---------------------------------------------------------------------------------------

  /** One step on the register: x^31 is bit 0, so multiplying by x shifts towards bit 0. */
  function StepBits(r: seq<bool>): (r': seq<bool>)
    requires |r| == 32
    ensures |r'| == 32
    ensures forall k :: 0 <= k < 32 ==> r'[k] == ((k < 31 && r[k + 1]) != (r[0] && IsGeneratorPower(31 - k)))
  {
    seq(32, k requires 0 <= k < 32 => (k < 31 && r[k + 1]) != (r[0] && IsGeneratorPower(31 - k)))
  }

  function Shift(r: seq<bool>, n: nat): (r': seq<bool>)
    requires |r| == 32
    ensures |r'| == 32
    decreases n, r
  {
    if n == 0 then r else Shift(StepBits(r), n - 1)
  }

  function XorFirst(r: seq<bool>, bit: bool): (r': seq<bool>)
    requires |r| == 32
    ensures |r'| == 32
  {
    r[0 := r[0] != bit]
  }

  function Feed(r: seq<bool>, bits: seq<bool>): (r': seq<bool>)
    requires |r| == 32
    ensures |r'| == 32
    decreases |bits|
  {
    if bits == [] then r else Feed(StepBits(XorFirst(r, bits[0])), bits[1..])
  }

  /** One register step is one step of long division. */
  lemma DivisionStep(r: seq<bool>, message: seq<bool>)
    requires |r| == 32 && |message| > 0
    ensures Remainder(Dividend(r, message)) ==
            Remainder(Dividend(StepBits(XorFirst(r, message[0])), message[1..]))
  {
    var p := Dividend(r, message);
    var first := XorFirst(r, message[0]);
    var q := Dividend(StepBits(first), message[1..]);
    assert p[0] == first[0];
    var reduced := if p[0] then XorBits(p[1..33], Generator()) + p[33..] else p[1..];
    assert |reduced| == |q|;
    forall k | 0 <= k < |q| ensures reduced[k] == q[k] {
      assert q[k] == ((k < 32 && StepBits(first)[k]) != (k + 1 < |message| && message[k + 1]));
      assert p[k + 1] == ((k < 31 && r[k + 1]) != (k + 1 < |message| && message[k + 1]));
    }
    assert reduced == q;
  }

  lemma {:induction false} FeedIsRemainder(r: seq<bool>, message: seq<bool>)
    requires |r| == 32
    ensures Feed(r, message) == Remainder(Dividend(r, message))
    decreases |message|
  {
    if message == [] {
      assert Dividend(r, message) == r;
    } else {
      DivisionStep(r, message);
      FeedIsRemainder(StepBits(XorFirst(r, message[0])), message[1..]);
    }
  }

  lemma {:induction false} FeedAppend(r: seq<bool>, a: seq<bool>, b: seq<bool>)
    requires |r| == 32
    ensures Feed(r, a + b) == Feed(Feed(r, a), b)
    decreases |a|
  {
    if a == [] {
      assert a + b == b;
    } else {
      assert (a + b)[1..] == a[1..] + b;
      FeedAppend(StepBits(XorFirst(r, a[0])), a[1..], b);
    }
  }

  lemma {:induction false} ByteBitsAppend(a: seq<Byte>, b: seq<Byte>)
    ensures ByteBits(a + b) == ByteBits(a) + ByteBits(b)
    decreases |a|
  {
    if a == [] {
      assert a + b == b;
    } else {
      assert (a + b)[1..] == a[1..] + b;
      ByteBitsAppend(a[1..], b);
    }
  }

  // ---------------------------------------------------------------------------------------
  // Eight bits at a time
  // ---------------------------------------------------------------------------------------

  lemma StepLinear(a: seq<bool>, b: seq<bool>)
    requires |a| == |b| == 32
    ensures StepBits(XorBits(a, b)) == XorBits(StepBits(a), StepBits(b))
  {}

  lemma {:induction false} ShiftLinear(a: seq<bool>, b: seq<bool>, n: nat)
    requires |a| == |b| == 32
    ensures Shift(XorBits(a, b), n) == XorBits(Shift(a, n), Shift(b, n))
    decreases n
  {
    if n > 0 {
      StepLinear(a, b);
      ShiftLinear(StepBits(a), StepBits(b), n - 1);
    }
  }

  lemma StepEven(high: seq<bool>)
    requires |high| == 31
    ensures StepBits([false] + high) == high + [false]
  {}

  /** Bits that never reach position 0 move down without touching the generator. */
  lemma {:induction false} ShiftHighBits(high: seq<bool>, n: nat)
    requires n <= 32 && |high| == 32 - n
    ensures Shift(Zeros(n) + high, n) == high + Zeros(n)
    decreases n
  {
    if n > 0 {
      var high' := high + [false];
      assert Zeros(n) + high == [false] + (Zeros(n - 1) + high);
      StepEven(Zeros(n - 1) + high);
      assert (Zeros(n - 1) + high) + [false] == Zeros(n - 1) + high';
      ShiftHighBits(high', n - 1);
      assert high' + Zeros(n - 1) == high + Zeros(n);
    } else {
      assert Zeros(0) + high == high + Zeros(0);
    }
  }

  /** Feeding one bit and XOR-ing in the others later is XOR-ing all of them in first. */
  lemma FeedIsShiftStep(r: seq<bool>, bits: seq<bool>)
    requires |r| == 32 && 0 < |bits| <= 32
    ensures StepBits(XorBits(r, bits + Zeros(32 - |bits|))) ==
            XorBits(StepBits(XorFirst(r, bits[0])), bits[1..] + Zeros(33 - |bits|))
  {
    var w := bits + Zeros(32 - |bits|);
    var first, rest := XorFirst(r, bits[0]), [false] + w[1..];
    assert XorBits(r, w) == XorBits(first, rest);
    StepLinear(first, rest);
    StepEven(w[1..]);
    assert w[1..] + [false] == bits[1..] + Zeros(33 - |bits|);
  }

  /** Feeding up to 32 bits is XOR-ing them in at once and stepping as often. */
  lemma {:induction false} FeedIsShift(r: seq<bool>, bits: seq<bool>)
    requires |r| == 32 && |bits| <= 32
    ensures Feed(r, bits) == Shift(XorBits(r, bits + Zeros(32 - |bits|)), |bits|)
    decreases |bits|
  {
    if bits == [] {
      assert XorBits(r, [] + Zeros(32)) == r;
    } else {
      FeedIsShiftStep(r, bits);
      FeedIsShift(StepBits(XorFirst(r, bits[0])), bits[1..]);
    }
  }

  /** Table lookup on a register: the low byte selects the entry, the rest moves down. */
  lemma FeedByteBits(r: seq<bool>, bits: seq<bool>)
    requires |r| == 32 && |bits| == 8
    ensures var x := XorBits(r, bits + Zeros(24));
            Feed(r, bits) == XorBits(r[8..] + Zeros(8), Shift(x[..8] + Zeros(24), 8))
  {
    var x := XorBits(r, bits + Zeros(24));
    var low, high := x[..8] + Zeros(24), Zeros(8) + x[8..];
    FeedIsShift(r, bits);
    assert x == XorBits(high, low);
    ShiftLinear(high, low, 8);
    ShiftHighBits(x[8..], 8);
    assert x[8..] == r[8..];
  }

  // ---------------------------------------------------------------------------------------
  // The same on words
  // ---------------------------------------------------------------------------------------

  /** 0x1EDC6F41 with its bits reflected. */
  const POLY: U32 := 0x82F6_3B78

  const ALL_ONES: U32 := 0xFFFF_FFFF

  function BitStep(crc: U32): U32 {
    Xor(crc / 2, if crc % 2 == 1 then POLY else 0)
  }

  function Steps(i: U32, n: nat): U32
    decreases n, i
  {
    if n == 0 then i else BitStep(Steps(i, n - 1))
  }

  /** The k last coefficients of the generator as a word, the highest power in the lowest bit. */
  function GeneratorWord(k: nat): nat {
    if k == 0 then 0 else (if IsGeneratorPower(k - 1) then 1 else 0) + 2 * GeneratorWord(k - 1)
  }

  lemma {:induction false} GeneratorWordBit(k: nat, j: nat)
    requires j < k
    ensures Bit(GeneratorWord(k), j) == IsGeneratorPower(k - 1 - j)
    decreases k
  {
    if j > 0 {
      GeneratorWordBit(k - 1, j - 1);
      assert GeneratorWord(k) / 2 == GeneratorWord(k - 1);
    }
  }

  lemma GeneratorWordIsPoly()
    ensures GeneratorWord(32) == POLY
  {
    assert GeneratorWord(8) == 0x82;
    assert GeneratorWord(16) == 0x82F6;
    assert GeneratorWord(24) == 0x82F6_3B;
  }

  /** The reflected constant in the code is the generator of the standard. */
  lemma PolyIsGenerator()
    ensures BitsOf(POLY, 32) == Generator()
  {
    GeneratorWordIsPoly();
    forall k | 0 <= k < 32 ensures Bit(POLY, k) == IsGeneratorPower(31 - k) {
      GeneratorWordBit(32, k);
    }
  }

  lemma BitStepBits(crc: U32)
    ensures BitsOf(BitStep(crc), 32) == StepBits(BitsOf(crc, 32))
  {
    var mask := if crc % 2 == 1 then POLY else 0;
    BitsOfXor(crc / 2, mask);
    PolyIsGenerator();
    BitsOfZero(32);
    Pow2_32();
    BitOfSmall(crc, 32, 32);
    assert forall k :: 0 <= k < 32 ==> Bit(crc / 2, k) == Bit(crc, k + 1);
    assert BitsOf(mask, 32) == if crc % 2 == 1 then Generator() else Zeros(32);
  }

  lemma {:induction false} ShiftLast(r: seq<bool>, n: nat)
    requires |r| == 32 && n > 0
    ensures Shift(r, n) == StepBits(Shift(r, n - 1))
    decreases n
  {
    if n > 1 {
      ShiftLast(StepBits(r), n - 1);
    }
  }

  lemma {:induction false} StepsBits(i: U32, n: nat)
    ensures BitsOf(Steps(i, n), 32) == Shift(BitsOf(i, 32), n)
    decreases n
  {
    if n > 0 {
      StepsBits(i, n - 1);
      BitStepBits(Steps(i, n - 1));
      ShiftLast(BitsOf(i, 32), n);
    }
  }

  /** The register after one more byte. */
  function Update(crc: U32, b: Byte): U32 {
    Steps(Xor(crc, b), 8)
  }

  lemma BitsOfXorByte(crc: U32, b: Byte)
    ensures BitsOf(Xor(crc, b), 32) == XorBits(BitsOf(crc, 32), BitsOf(b, 8) + Zeros(24))
  {
    Pow2_32();
    BitsOfXor(crc, b);
    BitsOfSmall(b, 8, 24);
  }

  lemma UpdateBits(crc: U32, b: Byte)
    ensures BitsOf(Update(crc, b), 32) == Feed(BitsOf(crc, 32), BitsOf(b, 8))
  {
    BitsOfXorByte(crc, b);
    StepsBits(Xor(crc, b), 8);
    FeedIsShift(BitsOf(crc, 32), BitsOf(b, 8));
  }

  lemma BitsOfDropByte(crc: U32)
    ensures BitsOf(crc / 256, 32) == BitsOf(crc, 32)[8..] + Zeros(8)
  {
    Pow2_32();
    forall k | 0 <= k < 32 ensures Bit(crc / 256, k) == (k < 24 && Bit(crc, k + 8)) {
      BitOfDropByte(crc, k);
      if k >= 24 {
        BitOfSmall(crc, 32, k + 8);
      }
    }
  }

  lemma BitsOfIndex(x: U32)
    ensures BitsOf(x % 256, 32) == BitsOf(x, 32)[..8] + Zeros(24)
  {
    Pow2_32();
    BitsOfLowByte(x);
    assert BitsOf(x, 32)[..8] == BitsOf(x, 8);
    BitsOfSmall(x % 256, 8, 24);
  }

  /** What both loops do with one byte: the low byte selects a table entry, the rest moves down. */
  lemma LookupIsUpdate(crc: U32, b: Byte)
    ensures Xor(crc / 256, Steps(Xor(crc, b) % 256, 8)) == Update(crc, b)
  {
    var x := Xor(crc, b);
    var entry := Steps(x % 256, 8);
    BitsOfXorByte(crc, b);
    BitsOfIndex(x);
    StepsBits(x % 256, 8);
    BitsOfDropByte(crc);
    BitsOfXor(crc / 256, entry);
    FeedByteBits(BitsOf(crc, 32), BitsOf(b, 8));
    UpdateBits(crc, b);
    SameBits(Xor(crc / 256, entry), Update(crc, b));
  }

  /** The register after the first n bytes of a payload. */
  function Register(data: seq<Byte>, n: nat): U32
    requires n <= |data|
    decreases n
  {
    if n == 0 then ALL_ONES else Update(Register(data, n - 1), data[n - 1])
  }

  lemma BitsOfAllOnes()
    ensures BitsOf(ALL_ONES, 32) == Ones(32)
  {
    Pow2_32();
    forall k | 0 <= k < 32 ensures Bit(ALL_ONES, k) {
      BitOfOnes(32, k);
    }
  }

  lemma ByteBitsSnoc(init: seq<Byte>, last: Byte)
    ensures ByteBits(init + [last]) == ByteBits(init) + BitsOf(last, 8)
  {
    assert [last][1..] == [];
    assert ByteBits([last]) == BitsOf(last, 8) + [] == BitsOf(last, 8);
    ByteBitsAppend(init, [last]);
  }

  lemma {:induction false} RegisterBits(data: seq<Byte>, n: nat)
    requires n <= |data|
    ensures BitsOf(Register(data, n), 32) == Feed(Ones(32), ByteBits(data[..n]))
    decreases n
  {
    if n == 0 {
      BitsOfAllOnes();
    } else {
      var init, last := data[..n - 1], data[n - 1];
      RegisterBits(data, n - 1);
      UpdateBits(Register(data, n - 1), last);
      assert data[..n] == init + [last];
      ByteBitsSnoc(init, last);
      FeedAppend(Ones(32), ByteBits(init), BitsOf(last, 8));
    }
  }

  lemma CrcFeed(data: seq<Byte>)
    ensures BitsOf(StandardCrc(data), 32) == XorBits(Feed(Ones(32), ByteBits(data)), Ones(32))
  {
    FeedIsRemainder(Ones(32), ByteBits(data));
    BitsOfValueOf(XorBits(Remainder(Dividend(Ones(32), ByteBits(data))), Ones(32)));
  }

  /** The checksum of a payload: the complemented register. */
  function Crc(data: seq<Byte>): U32 {
    Xor(Register(data, |data|), ALL_ONES)
  }

  lemma CrcBits(data: seq<Byte>)
    ensures BitsOf(Crc(data), 32) == XorBits(Feed(Ones(32), ByteBits(data)), Ones(32))
  {
    RegisterBits(data, |data|);
    assert data[..|data|] == data;
    BitsOfAllOnes();
    BitsOfXor(Register(data, |data|), ALL_ONES);
  }

  /** It is the checksum of the standard. */
  lemma CrcIsStandard(data: seq<Byte>)
    ensures Crc(data) == StandardCrc(data)
  {
    CrcBits(data);
    CrcFeed(data);
    SameBits(Crc(data), StandardCrc(data));
  }

  // ---------------------------------------------------------------------------------------
  // The two implementations
  // ---------------------------------------------------------------------------------------

  ghost predicate IsTable(t: array<U32>)
    reads t
  {
    t.Length == 256 && forall k :: 0 <= k < 256 ==> t[k] == Steps(k, 8)
  }

  /** The core library's table, built at compile time. */
  method MakeTable() returns (t: array<U32>)
    ensures fresh(t) && IsTable(t)
  {
    t := new U32[256];
    for i := 0 to 256
      invariant forall k :: 0 <= k < i ==> t[k] == Steps(k, 8)
    {
      var crc: U32 := i;
      for j := 0 to 8
        invariant crc == Steps(i, j)
      {
        crc := Xor(crc / 2, if crc % 2 == 1 then POLY else 0);
      }
      t[i] := crc;
    }
  }

  /** The body of the core library's loop. */
  method ConsumeByte(table: array<U32>, crc: U32, b: Byte) returns (next: U32)
    requires IsTable(table)
    ensures next == Update(crc, b)
  {
    var idx := Xor(crc, b) % 256;
    LookupIsUpdate(crc, b);
    next := Xor(crc / 256, table[idx]);
  }

  /** The core library's loop over the payload. */
  method ComputeCrc32c(data: seq<Byte>) returns (result: U32)
    ensures result == Crc(data)
  {
    var table := MakeTable();
    var crc: U32 := 0xFFFF_FFFF;
    for i := 0 to |data|
      invariant IsTable(table)
      invariant crc == Register(data, i)
    {
      crc := ConsumeByte(table, crc, data[i]);
    }
    result := Xor(crc, 0xFFFF_FFFF);
  }

  /** One entry of the Python extension's own table: the conditional stands outside the XOR. */
  method AsyncTableEntry(i: U32) returns (crc: U32)
    ensures crc == Steps(i, 8)
  {
    crc := i;
    for j := 0 to 8
      invariant crc == Steps(i, j)
    {
      ConditionalStep(crc);
      crc := if crc % 2 == 1 then Xor(crc / 2, 0x82F6_3B78) else crc / 2;
    }
  }

  lemma ConditionalStep(crc: U32)
    ensures BitStep(crc) == if crc % 2 == 1 then Xor(crc / 2, POLY) else crc / 2
  {
    var h := crc / 2;
    BitsOfZero(32);
    BitsOfXor(h, 0);
    assert XorBits(BitsOf(h, 32), Zeros(32)) == BitsOf(h, 32);
    SameBits(Xor(h, 0), h);
  }

  method AsyncMakeTable() returns (t: array<U32>)
    ensures fresh(t) && IsTable(t)
  {
    t := new U32[256];
    for i := 0 to 256
      invariant forall k :: 0 <= k < i ==> t[k] == Steps(k, 8)
    {
      var entry := AsyncTableEntry(i);
      t[i] := entry;
    }
  }

  /** The body of the Python extension's loop: the operands of the last XOR are swapped. */
  method AsyncConsumeByte(table: array<U32>, crc: U32, b: Byte) returns (next: U32)
    requires IsTable(table)
    ensures next == Update(crc, b)
  {
    var idx := Xor(crc, b) % 256;
    LookupIsUpdate(crc, b);
    XorCommutes(table[idx], crc / 256);
    next := Xor(table[idx], crc / 256);
  }

  /** The Python extension's loop. */
  method AsyncCrc32cCompute(data: seq<Byte>) returns (result: U32)
    ensures result == Crc(data)
  {
    var table := AsyncMakeTable();
    var crc: U32 := 0xFFFF_FFFF;
    for i := 0 to |data|
      invariant IsTable(table)
      invariant crc == Register(data, i)
    {
      crc := AsyncConsumeByte(table, crc, data[i]);
    }
    result := Xor(crc, 0xFFFF_FFFF);
  }

  lemma XorCommutes(a: U32, b: U32)
    ensures Xor(a, b) == Xor(b, a)
  {
    BitsOfXor(a, b);
    BitsOfXor(b, a);
    assert XorBits(BitsOf(a, 32), BitsOf(b, 32)) == XorBits(BitsOf(b, 32), BitsOf(a, 32));
    SameBits(Xor(a, b), Xor(b, a));
  }

  // ---------------------------------------------------------------------------------------
  // Burst errors
  // ---------------------------------------------------------------------------------------

  /** The two registers agree from bit k on. */
  ghost predicate AgreeFrom(r: seq<bool>, q: seq<bool>, k: nat)
    requires |r| == |q| == 32
  {
    forall j :: k <= j < 32 ==> r[j] == q[j]
  }

  /** Registers that a step brings together differed only in the bit shifted out or not at all. */
  lemma StepBackwards(r: seq<bool>, q: seq<bool>, k: nat)
    requires |r| == |q| == 32 && k <= 31
    requires AgreeFrom(StepBits(r), StepBits(q), k)
    ensures r[0] == q[0]
    ensures AgreeFrom(r, q, k + 1)
  {
    assert StepBits(r)[31] == r[0] by { assert Generator()[31]; }
    assert StepBits(q)[31] == q[0] by { assert Generator()[31]; }
    forall j | k + 1 <= j < 32 ensures r[j] == q[j] {
      assert StepBits(r)[j - 1] == StepBits(q)[j - 1];
    }
  }

  /** If the same number of bits brings two registers together, they differed only in as many low bits. */
  lemma {:induction false} FeedBackwards(r: seq<bool>, a: seq<bool>, q: seq<bool>, b: seq<bool>)
    requires |r| == |q| == 32 && |a| == |b| <= 32
    requires Feed(r, a) == Feed(q, b)
    ensures AgreeFrom(r, q, |a|)
    decreases |a|
  {
    if a != [] {
      var r', q' := XorFirst(r, a[0]), XorFirst(q, b[0]);
      FeedBackwards(StepBits(r'), a[1..], StepBits(q'), b[1..]);
      StepBackwards(r', q', |a| - 1);
      assert forall j :: 1 <= j < 32 ==> r[j] == r'[j] && q[j] == q'[j];
    }
  }

  /** From one register, different bit strings of one length up to 32 lead to different registers. */
  lemma {:induction false} FeedInjective(r: seq<bool>, a: seq<bool>, b: seq<bool>)
    requires |r| == 32 && |a| == |b| <= 32
    requires Feed(r, a) == Feed(r, b)
    ensures a == b
    decreases |a|
  {
    if a != [] {
      var r', q' := XorFirst(r, a[0]), XorFirst(r, b[0]);
      FeedBackwards(StepBits(r'), a[1..], StepBits(q'), b[1..]);
      StepBackwards(r', q', |a| - 1);
      assert a[0] == b[0];
      FeedInjective(StepBits(r'), a[1..], b[1..]);
      assert a == [a[0]] + a[1..] && b == [b[0]] + b[1..];
    }
  }

  /** A common suffix never makes different registers equal. */
  lemma {:induction false} FeedSuffix(r: seq<bool>, q: seq<bool>, bits: seq<bool>)
    requires |r| == |q| == 32
    requires Feed(r, bits) == Feed(q, bits)
    ensures r == q
    decreases |bits|
  {
    if bits != [] {
      var r', q' := XorFirst(r, bits[0]), XorFirst(q, bits[0]);
      FeedSuffix(StepBits(r'), StepBits(q'), bits[1..]);
      StepBackwards(r', q', 0);
      assert forall j :: 1 <= j < 32 ==> r[j] == r'[j] && q[j] == q'[j];
    }
  }

  lemma {:induction false} ByteBitsInjective(p: seq<Byte>, q: seq<Byte>)
    requires |p| == |q| && ByteBits(p) == ByteBits(q)
    ensures p == q
    decreases |p|
  {
    if p != [] {
      assert BitsOf(p[0], 8) == ByteBits(p)[..8] && BitsOf(q[0], 8) == ByteBits(q)[..8];
      Pow2_32();
      ValueOfBitsOf(p[0], 8);
      ValueOfBitsOf(q[0], 8);
      assert ByteBits(p[1..]) == ByteBits(p)[8..] && ByteBits(q[1..]) == ByteBits(q)[8..];
      ByteBitsInjective(p[1..], q[1..]);
      assert p == [p[0]] + p[1..] && q == [q[0]] + q[1..];
    }
  }

  lemma SameCrcSameFeed(p: seq<Byte>, q: seq<Byte>)
    requires Crc(p) == Crc(q)
    ensures Feed(Ones(32), ByteBits(p)) == Feed(Ones(32), ByteBits(q))
  {
    CrcBits(p);
    CrcBits(q);
    var u, v := Feed(Ones(32), ByteBits(p)), Feed(Ones(32), ByteBits(q));
    assert XorBits(u, Ones(32)) == XorBits(v, Ones(32));
    forall j | 0 <= j < 32 ensures u[j] == v[j] {
      assert XorBits(u, Ones(32))[j] == XorBits(v, Ones(32))[j];
    }
  }

  /** Bit strings that agree outside a window of up to 32 bits and feed alike are equal. */
  lemma BurstFeed(r: seq<bool>, prefix: seq<bool>, a: seq<bool>, b: seq<bool>, suffix: seq<bool>)
    requires |r| == 32 && |a| == |b| <= 32
    requires Feed(r, prefix + (a + suffix)) == Feed(r, prefix + (b + suffix))
    ensures a == b
  {
    FeedAppend(r, prefix, a + suffix);
    FeedAppend(r, prefix, b + suffix);
    var r' := Feed(r, prefix);
    FeedAppend(r', a, suffix);
    FeedAppend(r', b, suffix);
    FeedSuffix(Feed(r', a), Feed(r', b), suffix);
    FeedInjective(r', a, b);
  }

  lemma SpliceWindow(x: seq<bool>, y: seq<bool>, start: nat, end: nat)
    requires |x| == |y| && start <= end <= |x|
    requires forall j :: 0 <= j < |x| && !(start <= j < end) ==> x[j] == y[j]
    ensures x == x[..start] + (x[start..end] + x[end..])
    ensures y == x[..start] + (y[start..end] + x[end..])
  {}

  /**
    Error bursts of up to 32 consecutive transmitted bits always change the checksum, at any
    payload length and any position.
  */
  lemma BurstChangesCrc(p: seq<Byte>, q: seq<Byte>, start: nat, length: nat)
    requires |p| == |q| && p != q
    requires length <= 32 && start + length <= 8 * |p|
    requires forall j :: 0 <= j < 8 * |p| && !(start <= j < start + length) ==> ByteBits(p)[j] == ByteBits(q)[j]
    ensures Crc(p) != Crc(q)
  {
    if Crc(p) == Crc(q) {
      SameCrcSameFeed(p, q);
      var x, y, end := ByteBits(p), ByteBits(q), start + length;
      SpliceWindow(x, y, start, end);
      BurstFeed(Ones(32), x[..start], x[start..end], y[start..end], x[end..]);
      ByteBitsInjective(p, q);
    }
  }

  lemma {:induction false} ByteBitsAt(data: seq<Byte>, j: nat)
    requires j < 8 * |data|
    ensures ByteBits(data)[j] == BitsOf(data[j / 8], 8)[j % 8]
    decreases |data|
  {
    if j >= 8 {
      ByteBitsAt(data[1..], j - 8);
      assert data[1..][(j - 8) / 8] == data[j / 8];
    }
  }

  /** In particular, payloads that differ only inside four consecutive bytes. */
  lemma FourByteBurstChangesCrc(p: seq<Byte>, q: seq<Byte>, start: nat)
    requires |p| == |q| && p != q
    requires forall i :: 0 <= i < |p| && !(start <= i < start + 4) ==> p[i] == q[i]
    ensures Crc(p) != Crc(q)
  {
    var k :| 0 <= k < |p| && p[k] != q[k];
    var length := if start + 4 <= |p| then 32 else 8 * (|p| - start);
    forall j | 0 <= j < 8 * |p| && !(8 * start <= j < 8 * start + length)
      ensures ByteBits(p)[j] == ByteBits(q)[j]
    {
      ByteBitsAt(p, j);
      ByteBitsAt(q, j);
      assert p[j / 8] == q[j / 8];
    }
    BurstChangesCrc(p, q, 8 * start, length);
  }
}
