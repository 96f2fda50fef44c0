/**
  The ring buffer used from one thread: free-running 64-bit positions, reduced to indices when
  bytes are copied, with a copy split where it passes the end of the storage.
*/
module IoBuffer {
  import opened Words
  import opened Modular

  /** The k-th slot after `start`, for at most one lap. */
  function Slot(start: nat, k: nat, capacity: nat): (i: int)
    requires start < capacity && k <= capacity
    ensures 0 <= i < capacity
  {
    if start + k < capacity then start + k else start + k - capacity
  }

  /** Unsigned 64-bit addition. */
  function Advance(position: U64, n: nat): U64
    requires n < TWO_64
  {
    if position + n < TWO_64 then position + n else position + n - TWO_64
  }

  /** Advancing a position by n does not leave its ring. */
  predicate StaysInStep(position: U64, n: nat, capacity: nat) {
    n == 0 || position + n < TWO_64 || (capacity > 0 && TWO_64 % capacity == 0)
  }

  /** The index of an advanced position is the advanced index exactly in that case. */
  lemma AdvancedIndex(position: U64, n: nat, capacity: nat)
    requires 0 < capacity < TWO_64 && n <= capacity
    ensures Advance(position, n) % capacity == Slot(position % capacity, n, capacity)
            <==> StaysInStep(position, n, capacity)
  {
    ModStep(position, n, capacity);
    var p := Advance(position, n);
    if position + n >= TWO_64 {
      if TWO_64 % capacity == 0 {
        ModOfMultiple(position + n, TWO_64, capacity);
        ModUnique(position + n, TWO_64, 1, p);
      } else if p % capacity == (p + TWO_64) % capacity {
        ModAddSame(p, TWO_64, capacity);
      }
    }
  }

  /** Two advances in a row are one; from different starts the same advance leads to different slots. */
  lemma AdvancedSlot(start: nat, n: nat, m: nat, capacity: nat)
    requires start < capacity && n + m <= capacity
    ensures Slot(Slot(start, n, capacity), m, capacity) == Slot(start, n + m, capacity)
    ensures forall p | 0 <= p < capacity && Slot(p, m, capacity) == Slot(start, n + m, capacity) ::
              p == Slot(start, n, capacity)
  {}

  /** Unsigned 64-bit subtraction: how far the write position is ahead. */
  function Distance(r: U64, w: U64): U64 { if w >= r then w - r else w - r + TWO_64 }

  /** The positions are at most a lap apart and their indices agree with that. */
  ghost predicate Aligned(r: U64, w: U64, capacity: nat) {
    && Distance(r, w) <= capacity < TWO_64
    && (capacity > 0 ==> w % capacity == Slot(r % capacity, Distance(r, w), capacity))
  }

  lemma AlignedAfterWrite(r: U64, w: U64, n: nat, capacity: nat)
    requires Aligned(r, w, capacity) && 0 < n && Distance(r, w) + n <= capacity
    ensures var w' := Advance(w, n);
            && Distance(r, w') == Distance(r, w) + n
            && (Aligned(r, w', capacity) <==> StaysInStep(w, n, capacity))
  {
    AdvancedIndex(w, n, capacity);
    AdvancedSlot(r % capacity, Distance(r, w), n, capacity);
  }

  lemma AlignedAfterRead(r: U64, w: U64, n: nat, capacity: nat)
    requires Aligned(r, w, capacity) && 0 < n <= Distance(r, w)
    ensures var r' := Advance(r, n);
            && Distance(r', w) == Distance(r, w) - n
            && (Aligned(r', w, capacity) <==> StaysInStep(r, n, capacity))
            && (Aligned(r', w, capacity) ==> r' % capacity == Slot(r % capacity, n, capacity))
  {
    var r', rest := Advance(r, n), Distance(r, w) - n;
    AdvancedIndex(r, n, capacity);
    AdvancedSlot(r % capacity, n, rest, capacity);
  }

  /** `count` bytes of the ring from `start` on. */
  function Ring(b: seq<Byte>, start: nat, count: nat): (c: seq<Byte>)
    requires count <= |b| && (start < |b| || start == count == 0)
    ensures |c| == count && forall k :: 0 <= k < count ==> c[k] == b[Slot(start, k, |b|)]
  {
    if start + count <= |b| then b[start..start + count] else b[start..] + b[..start + count - |b|]
  }

  /** The storage after a copy that is split where it passes the end. */
  function Stored(b: seq<Byte>, start: nat, src: seq<Byte>): (b': seq<Byte>)
    requires start < |b| && |src| <= |b|
    ensures |b'| == |b|
  {
    if start + |src| <= |b| then b[..start] + src + b[start + |src|..]
    else src[|b| - start..] + b[start + |src| - |b|..start] + src[..|b| - start]
  }

  lemma StoredAt(b: seq<Byte>, start: nat, src: seq<Byte>, i: nat)
    requires start < |b| && |src| <= |b| && i < |b|
    ensures Stored(b, start, src)[i] ==
            if start <= i < start + |src| then src[i - start]
            else if i + |b| < start + |src| then src[i + |b| - start]
            else b[i]
  {}

  /** Storing behind the unread bytes appends to them. */
  lemma StoredAppends(b: seq<Byte>, start: nat, count: nat, src: seq<Byte>)
    requires start < |b| && count + |src| <= |b|
    ensures Ring(Stored(b, Slot(start, count, |b|), src), start, count + |src|) == Ring(b, start, count) + src
  {
    var at := Slot(start, count, |b|);
    var left := Ring(Stored(b, at, src), start, count + |src|);
    forall k | 0 <= k < count + |src| ensures left[k] == (Ring(b, start, count) + src)[k] {
      StoredAt(b, at, src, Slot(start, k, |b|));
    }
  }

  lemma RingSplit(b: seq<Byte>, start: nat, count: nat, n: nat)
    requires start < |b| && n <= count <= |b|
    ensures Ring(b, start, n) == Ring(b, start, count)[..n]
    ensures Ring(b, Slot(start, n, |b|), count - n) == Ring(b, start, count)[n..]
  {
    var rest := Ring(b, Slot(start, n, |b|), count - n);
    forall k | 0 <= k < count - n ensures rest[k] == Ring(b, start, count)[n + k] {}
  }

  method Memcpy(a: array<Byte>, at: nat, src: seq<Byte>)
    requires at + |src| <= a.Length
    modifies a
    ensures a[..] == old(a[..at]) + src + old(a[at + |src|..])
  {
    forall k | 0 <= k < |src| {
      a[at + k] := src[k];
    }
  }

  class IOBuffer {
    const buf: array<Byte>
    var readPos: U64
    var writePos: U64

    constructor (capacity: nat)
      requires capacity < TWO_64
      ensures Valid() && Contents() == [] && buf.Length == capacity && fresh(buf)
    {
      buf := new Byte[capacity](_ => 0);
      readPos, writePos := 0, 0;
    }

    function ReadableSize(): nat
      reads this
    {
      Distance(readPos, writePos)
    }

    function WritableSize(): int
      reads this
    {
      buf.Length - ReadableSize()
    }

    function ReadIndex(): (i: nat)
      reads this
      ensures buf.Length > 0 ==> i < buf.Length
    {
      if buf.Length == 0 then 0 else readPos % buf.Length
    }

    ghost predicate Valid()
      reads this
    {
      Aligned(readPos, writePos, buf.Length)
    }

    /** The unread bytes, oldest first. */
    ghost function Contents(): (c: seq<Byte>)
      reads this, buf
      requires Valid()
      ensures |c| == ReadableSize()
    {
      Ring(buf[..], ReadIndex(), ReadableSize())
    }

    /**
      Appends as much as fits. The buffer stays usable exactly when the write position does
      not pass 2^64 or the capacity divides 2^64.
    */
    method Write(src: seq<Byte>) returns (n: nat)
      requires Valid()
      modifies this`writePos, buf
      ensures n == Min(|src|, buf.Length - old(ReadableSize()))
      ensures Valid() <==> StaysInStep(old(writePos), n, buf.Length)
      ensures Valid() ==> Contents() == old(Contents()) + src[..n]
    {
      var available: nat := WritableSize();
      n := Min(|src|, available);
      if n == 0 {
        assert Contents() + src[..0] == Contents();
        return;
      }
      ghost var b, start, count := buf[..], ReadIndex(), ReadableSize();
      var index := writePos % buf.Length;
      CopyIn(index, src[..n]);
      StoredAppends(b, start, count, src[..n]);
      AlignedAfterWrite(readPos, writePos, n, buf.Length);
      writePos := Advance(writePos, n);
    }

    /** The one or two copies of a write. */
    method CopyIn(index: nat, src: seq<Byte>)
      requires index < buf.Length && |src| <= buf.Length
      modifies buf
      ensures buf[..] == Stored(old(buf[..]), index, src)
    {
      var first := Min(|src|, buf.Length - index);
      Memcpy(buf, index, src[..first]);
      if first < |src| {
        Memcpy(buf, 0, src[first..]);
      }
    }

    /** Takes as much as there is, oldest first, under the same proviso for the read position. */
    method Read(len: nat) returns (dst: seq<Byte>)
      requires Valid()
      modifies this`readPos
      ensures |dst| == Min(len, old(ReadableSize()))
      ensures dst == old(Contents())[..|dst|]
      ensures Valid() <==> StaysInStep(old(readPos), |dst|, buf.Length)
      ensures Valid() ==> Contents() == old(Contents())[|dst|..]
    {
      var n := Min(len, ReadableSize());
      dst := [];
      if n == 0 {
        return;
      }
      ghost var start, count := ReadIndex(), ReadableSize();
      dst := CopyOut(readPos % buf.Length, n);
      RingSplit(buf[..], start, count, n);
      AlignedAfterRead(readPos, writePos, n, buf.Length);
      readPos := Advance(readPos, n);
    }

    /** The one or two copies of a read. */
    method CopyOut(index: nat, n: nat) returns (dst: seq<Byte>)
      requires index < buf.Length && n <= buf.Length
      ensures dst == Ring(buf[..], index, n)
    {
      var first := Min(n, buf.Length - index);
      dst := buf[index..index + first];
      if first < n {
        dst := dst + buf[..n - first];
      }
    }

    method Clear()
      requires buf.Length < TWO_64
      modifies this`readPos, this`writePos
      ensures Valid() && Contents() == []
    {
      readPos := 0;
      writePos := 0;
    }
  }
}
