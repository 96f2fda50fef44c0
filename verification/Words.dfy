/** Fixed-width unsigned words as integers, and their bits, least significant first. */
module Words {
  const TWO_32: int := 0x1_0000_0000
  const TWO_64: int := 0x1_0000_0000_0000_0000

  type Byte = x: int | 0 <= x < 256
  type U32 = x: int | 0 <= x < TWO_32
  type U64 = x: int | 0 <= x < TWO_64

  datatype Option<T> = None | Some(value: T)

  function Min(a: int, b: int): int { if a <= b then a else b }

  function Pow2(n: nat): (p: nat)
    ensures p >= 1
  {
    if n == 0 then 1 else 2 * Pow2(n - 1)
  }

  predicate Bit(v: nat, k: nat)
    decreases k
  {
    if k == 0 then v % 2 == 1 else Bit(v / 2, k - 1)
  }

  function BitsOf(v: nat, n: nat): (bits: seq<bool>)
    ensures |bits| == n && forall k :: 0 <= k < n ==> bits[k] == Bit(v, k)
  {
    seq(n, k requires 0 <= k < n => Bit(v, k))
  }

  lemma BitsOfStep(v: nat, n: nat)
    requires n > 0
    ensures BitsOf(v, n) == [v % 2 == 1] + BitsOf(v / 2, n - 1)
  {}

  function ValueOf(bits: seq<bool>): (v: nat)
    ensures v < Pow2(|bits|)
  {
    if bits == [] then 0 else (if bits[0] then 1 else 0) + 2 * ValueOf(bits[1..])
  }

  function XorBits(a: seq<bool>, b: seq<bool>): (c: seq<bool>)
    requires |a| == |b|
    ensures |c| == |a| && forall k :: 0 <= k < |c| ==> c[k] == (a[k] != b[k])
  {
    seq(|a|, k requires 0 <= k < |a| => a[k] != b[k])
  }

  function Zeros(n: nat): (bits: seq<bool>)
    ensures |bits| == n && forall k :: 0 <= k < n ==> !bits[k]
  {
    seq(n, k => false)
  }

  function Ones(n: nat): (bits: seq<bool>)
    ensures |bits| == n && forall k :: 0 <= k < n ==> bits[k]
  {
    seq(n, k => true)
  }

  lemma Pow2_32()
    ensures Pow2(8) == 256 && Pow2(32) == TWO_32
  {
    assert Pow2(8) == 256;
    assert Pow2(16) == 256 * Pow2(8);
    assert Pow2(24) == 256 * Pow2(16);
    assert Pow2(32) == 256 * Pow2(24);
  }

  /** Bitwise exclusive or of the n low bits. */
  function XorLow(a: nat, b: nat, n: nat): (c: nat)
    decreases n, a, b
  {
    if n == 0 then 0 else (if a % 2 != b % 2 then 1 else 0) + 2 * XorLow(a / 2, b / 2, n - 1)
  }

  lemma {:induction false} XorLowBound(a: nat, b: nat, n: nat)
    ensures XorLow(a, b, n) < Pow2(n)
    decreases n
  {
    if n > 0 {
      XorLowBound(a / 2, b / 2, n - 1);
    }
  }

  function Xor(a: U32, b: U32): (c: U32) {
    Pow2_32();
    XorLowBound(a, b, 32);
    XorLow(a, b, 32)
  }

  lemma {:induction false} BitsOfValueOf(bits: seq<bool>)
    ensures BitsOf(ValueOf(bits), |bits|) == bits
    decreases |bits|
  {
    if bits != [] {
      var v := ValueOf(bits);
      BitsOfStep(v, |bits|);
      assert v / 2 == ValueOf(bits[1..]);
      BitsOfValueOf(bits[1..]);
    }
  }

  lemma {:induction false} ValueOfBitsOf(v: nat, n: nat)
    requires v < Pow2(n)
    ensures ValueOf(BitsOf(v, n)) == v
    decreases n
  {
    if n > 0 {
      BitsOfStep(v, n);
      ValueOfBitsOf(v / 2, n - 1);
      assert BitsOf(v, n)[1..] == BitsOf(v / 2, n - 1);
    }
  }

  lemma {:induction false} BitOfXorLow(a: nat, b: nat, n: nat, k: nat)
    requires k < n
    ensures Bit(XorLow(a, b, n), k) == (Bit(a, k) != Bit(b, k))
    decreases k
  {
    HalfOfXorLow(a, b, n);
    if k > 0 {
      BitOfXorLow(a / 2, b / 2, n - 1, k - 1);
    }
  }

  lemma HalfOfXorLow(a: nat, b: nat, n: nat)
    requires n > 0
    ensures XorLow(a, b, n) / 2 == XorLow(a / 2, b / 2, n - 1)
    ensures XorLow(a, b, n) % 2 == if a % 2 != b % 2 then 1 else 0
  {}

  lemma BitsOfXor(a: U32, b: U32)
    ensures BitsOf(Xor(a, b), 32) == XorBits(BitsOf(a, 32), BitsOf(b, 32))
  {
    forall k | 0 <= k < 32 ensures Bit(Xor(a, b), k) == (Bit(a, k) != Bit(b, k)) {
      BitOfXorLow(a, b, 32, k);
    }
  }

  /** A word is determined by its bits. */
  lemma SameBits(a: U32, b: U32)
    requires BitsOf(a, 32) == BitsOf(b, 32)
    ensures a == b
  {
    Pow2_32();
    ValueOfBitsOf(a, 32);
    ValueOfBitsOf(b, 32);
  }

  lemma {:induction false} BitOfSmall(v: nat, n: nat, k: nat)
    requires v < Pow2(n) && k >= n
    ensures !Bit(v, k)
    decreases k
  {
    if k > 0 {
      BitOfSmall(v / 2, if n == 0 then 0 else n - 1, k - 1);
    }
  }

  lemma BitsOfZero(n: nat)
    ensures BitsOf(0, n) == Zeros(n)
  {
    forall k | 0 <= k < n ensures !Bit(0, k) {
      BitOfSmall(0, 0, k);
    }
  }

  /** Bits of a value below Pow2(n) vanish above n. */
  lemma BitsOfSmall(v: nat, n: nat, m: nat)
    requires v < Pow2(n)
    ensures BitsOf(v, n + m) == BitsOf(v, n) + Zeros(m)
  {
    forall k | n <= k < n + m ensures !Bit(v, k) {
      BitOfSmall(v, n, k);
    }
  }

  /** Dropping a byte drops its bits. */
  lemma BitOfDropByte(v: nat, k: nat)
    ensures Bit(v / 256, k) == Bit(v, k + 8)
  {
    assert Bit(v, k + 8) == Bit(v / 2 / 2, k + 6) == Bit(v / 4, k + 6);
    assert Bit(v / 4, k + 6) == Bit(v / 4 / 2 / 2, k + 4) == Bit(v / 16, k + 4);
    assert Bit(v / 16, k + 4) == Bit(v / 16 / 2 / 2, k + 2) == Bit(v / 64, k + 2);
    assert Bit(v / 64, k + 2) == Bit(v / 64 / 2 / 2, k) == Bit(v / 256, k);
  }

  /** Multiples of Pow2(n) do not show in the low n bits. */
  lemma {:induction false} BitOfAdd(v: nat, j: nat, n: nat, k: nat)
    requires k < n
    ensures Bit(v + Pow2(n) * j, k) == Bit(v, k)
    decreases n
  {
    var w := Pow2(n - 1) * j;
    assert Pow2(n) * j == 2 * w;
    if k > 0 {
      BitOfAdd(v / 2, j, n - 1, k - 1);
      assert (v + 2 * w) / 2 == v / 2 + w;
    }
  }

  lemma BitsOfLowByte(v: nat)
    ensures BitsOf(v % 256, 8) == BitsOf(v, 8)
  {
    Pow2_32();
    forall k | 0 <= k < 8 ensures Bit(v % 256, k) == Bit(v, k) {
      BitOfAdd(v % 256, v / 256, 8, k);
    }
  }

  lemma {:induction false} BitOfOnes(n: nat, k: nat)
    requires k < n
    ensures Bit(Pow2(n) - 1, k)
    decreases k
  {
    if k > 0 {
      assert (Pow2(n) - 1) / 2 == Pow2(n - 1) - 1;
      BitOfOnes(n - 1, k - 1);
    }
  }
}
