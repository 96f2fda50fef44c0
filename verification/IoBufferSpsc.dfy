/**
  The ring buffer between one producer and one consumer thread. Loading the
  positions, every copied byte and every publication is a step of its own; the two threads
  interleave freely. A thread loads both positions in one step, but one of them only it changes.
*/
module IoBufferSpsc {
  import opened Words
  import opened Modular
  import opened IoBuffer

  datatype Producer = Outside | Copying(src: seq<Byte>, copied: nat)

  datatype Consumer = Away | Fetching(n: nat, dst: seq<Byte>)

  datatype State = State(
    storage: seq<Byte>,
    readPos: U64,
    writePos: U64,
    producer: Producer,
    consumer: Consumer,
    written: seq<Byte>,   // every byte ever published by the producer
    got: seq<Byte>)       // every byte ever released by the consumer

  datatype Step =
    | StartWrite(src: seq<Byte>)   // load the positions, decide how much fits
    | CopyByte
    | PublishWrite
    | StartRead(len: nat)
    | FetchByte
    | PublishRead

  function Fitting(s: State, src: seq<Byte>): seq<Byte>
    requires Distance(s.readPos, s.writePos) <= |s.storage|
  {
    src[..Min(|src|, |s.storage| - Distance(s.readPos, s.writePos))]
  }

  /** The index of the k-th byte of a copy that is split where it passes the end. */
  function SplitIndex(index: nat, k: nat, n: nat, capacity: nat): int
    requires index < capacity
  {
    var first := Min(n, capacity - index);
    if k < first then index + k else k - first
  }

  predicate Enabled(s: State, step: Step) {
    match step
    case StartWrite(src) =>
      s.producer.Outside? && Distance(s.readPos, s.writePos) <= |s.storage|
    case CopyByte => s.producer.Copying? && s.producer.copied < |s.producer.src| <= |s.storage|
    case PublishWrite => s.producer.Copying? && s.producer.copied == |s.producer.src| < TWO_64
    case StartRead(_) => s.consumer.Away?
    case FetchByte => s.consumer.Fetching? && |s.consumer.dst| < s.consumer.n <= |s.storage|
    case PublishRead => s.consumer.Fetching? && |s.consumer.dst| == s.consumer.n < TWO_64
  }

  function Apply(s: State, step: Step): State
    requires Enabled(s, step)
  {
    match step
    case StartWrite(src) =>
      var fitting := Fitting(s, src);
      if fitting == [] then s else s.(producer := Copying(fitting, 0))
    case CopyByte =>
      var p := s.producer;
      var i := SplitIndex(s.writePos % |s.storage|, p.copied, |p.src|, |s.storage|);
      s.(storage := s.storage[i := p.src[p.copied]], producer := Copying(p.src, p.copied + 1))
    case PublishWrite =>
      s.(writePos := Advance(s.writePos, |s.producer.src|), producer := Outside,
         written := s.written + s.producer.src)
    case StartRead(len) =>
      var n := Min(len, Distance(s.readPos, s.writePos));
      if n == 0 then s else s.(consumer := Fetching(n, []))
    case FetchByte =>
      var c := s.consumer;
      var i := SplitIndex(s.readPos % |s.storage|, |c.dst|, c.n, |s.storage|);
      s.(consumer := Fetching(c.n, c.dst + [s.storage[i]]))
    case PublishRead =>
      s.(readPos := Advance(s.readPos, s.consumer.n), consumer := Away, got := s.got + s.consumer.dst)
  }

  ghost predicate Reachable(s: State, steps: seq<Step>, s': State)
    decreases |steps|
  {
    if steps == [] then s == s'
    else Enabled(s, steps[0]) && Reachable(Apply(s, steps[0]), steps[1..], s')
  }

  predicate Initial(s: State) {
    && |s.storage| < TWO_64 && s.readPos == s.writePos == 0
    && s.producer.Outside? && s.consumer.Away? && s.written == s.got == []
  }

  /** The capacity divides 2^64, or no more than 2^64 - 1 bytes have been published. */
  predicate WithinWidth(s: State) {
    (|s.storage| > 0 && TWO_64 % |s.storage| == 0) || |s.written| < TWO_64
  }

  // ---------------------------------------------------------------------------------------
  // The invariant, on positions that never wrap
  // ---------------------------------------------------------------------------------------

  /** The 64-bit position after `total` bytes, and its index. */
  predicate Tracks(position: U64, total: nat, capacity: nat) {
    && position == total % TWO_64
    && (capacity > 0 ==> position % capacity == total % capacity)
  }

  ghost predicate UnreadIntact(s: State) {
    |s.storage| > 0 ==>
      forall j :: |s.got| <= j < |s.written| ==> s.storage[j % |s.storage|] == s.written[j]
  }

  ghost predicate ProducerInv(s: State)
    requires |s.got| <= |s.written|
  {
    s.producer.Copying? ==>
      && 0 < |s.producer.src| && s.producer.copied <= |s.producer.src|
      && |s.written| + |s.producer.src| <= |s.got| + |s.storage|
      && forall k :: 0 <= k < s.producer.copied ==>
           s.storage[(|s.written| + k) % |s.storage|] == s.producer.src[k]
  }

  ghost predicate ConsumerInv(s: State) {
    s.consumer.Fetching? ==>
      && 0 < s.consumer.n && |s.consumer.dst| <= s.consumer.n
      && |s.got| + s.consumer.n <= |s.written|
      && s.consumer.dst == s.written[|s.got|..|s.got| + |s.consumer.dst|]
  }

  ghost predicate Inv(s: State) {
    && |s.storage| < TWO_64
    && |s.got| <= |s.written| <= |s.got| + |s.storage|
    && s.got == s.written[..|s.got|]
    && Tracks(s.readPos, |s.got|, |s.storage|)
    && Tracks(s.writePos, |s.written|, |s.storage|)
    && UnreadIntact(s) && ProducerInv(s) && ConsumerInv(s)
  }

  /** The difference of two positions is the difference of the totals, wrapped or not. */
  lemma DistanceIsTotal(r: U64, w: U64, got: nat, written: nat)
    requires got <= written < got + TWO_64
    requires r == got % TWO_64 && w == written % TWO_64
    ensures Distance(r, w) == written - got
  {
    ModStep(got, written - got, TWO_64);
  }

  lemma SplitIndexIsMod(total: nat, k: nat, n: nat, capacity: nat)
    requires capacity > 0 && k < n <= capacity
    ensures 0 <= SplitIndex(total % capacity, k, n, capacity) < capacity
    ensures SplitIndex(total % capacity, k, n, capacity) == (total + k) % capacity
  {
    ModStep(total, k, capacity);
  }

  lemma TracksAdvance(position: U64, total: nat, n: nat, capacity: nat)
    requires Tracks(position, total, capacity) && 0 < n <= capacity < TWO_64
    requires TWO_64 % capacity == 0 || total + n < TWO_64
    ensures Tracks(Advance(position, n), total + n, capacity)
  {
    ModStep(total, n, TWO_64);
    ModStep(total, n, capacity);
    if total + n < TWO_64 {
      SmallMod(total + n);
    } else {
      ModOfMultiple(total + n, TWO_64, capacity);
    }
  }

  lemma SmallMod(x: nat)
    requires x < TWO_64
    ensures x % TWO_64 == x
  {}

  /** The slot the producer fills holds no unread byte and no byte of the same copy. */
  lemma FreshSlot(s: State, j: nat)
    requires Inv(s) && s.producer.Copying? && s.producer.copied < |s.producer.src|
    requires |s.got| <= j < |s.written| + |s.producer.src| && j != |s.written| + s.producer.copied
    ensures j % |s.storage| != (|s.written| + s.producer.copied) % |s.storage|
  {
    var at := |s.written| + s.producer.copied;
    if j < at {
      ModDistinct(j, at, |s.storage|);
    } else {
      ModDistinct(at, j, |s.storage|);
    }
  }

  lemma CopyByteKeepsInv(s: State)
    requires Inv(s) && Enabled(s, CopyByte)
    ensures Inv(Apply(s, CopyByte))
  {
    var p, s' := s.producer, Apply(s, CopyByte);
    var at := |s.written| + p.copied;
    SplitIndexIsMod(|s.written|, p.copied, |p.src|, |s.storage|);
    forall j | |s.got| <= j < |s.written|
      ensures s'.storage[j % |s.storage|] == s.written[j]
    {
      FreshSlot(s, j);
    }
    forall k | 0 <= k < p.copied + 1
      ensures s'.storage[(|s.written| + k) % |s.storage|] == p.src[k]
    {
      if k < p.copied {
        FreshSlot(s, |s.written| + k);
      }
    }
  }

  lemma PublishWriteKeepsInv(s: State)
    requires Inv(s) && Enabled(s, PublishWrite) && WithinWidth(Apply(s, PublishWrite))
    ensures Inv(Apply(s, PublishWrite))
  {
    var p, s' := s.producer, Apply(s, PublishWrite);
    TracksAdvance(s.writePos, |s.written|, |p.src|, |s.storage|);
    assert s'.got == s'.written[..|s.got|];
    forall j | |s.got| <= j < |s'.written|
      ensures s.storage[j % |s.storage|] == s'.written[j]
    {
      if j >= |s.written| {
        assert s.storage[(|s.written| + (j - |s.written|)) % |s.storage|] == p.src[j - |s.written|];
      }
    }
    if s.consumer.Fetching? {
      var d := |s.consumer.dst|;
      assert s'.written[|s.got|..|s.got| + d] == s.written[|s.got|..|s.got| + d];
    }
  }

  lemma FetchByteKeepsInv(s: State)
    requires Inv(s) && Enabled(s, FetchByte)
    ensures Inv(Apply(s, FetchByte))
  {
    var c, s' := s.consumer, Apply(s, FetchByte);
    var j := |s.got| + |c.dst|;
    SplitIndexIsMod(|s.got|, |c.dst|, c.n, |s.storage|);
    assert s.storage[j % |s.storage|] == s.written[j];
    SliceSnoc(s.written, |s.got|, j);
  }

  lemma SliceSnoc(bytes: seq<Byte>, i: nat, j: nat)
    requires i <= j < |bytes|
    ensures bytes[i..j] + [bytes[j]] == bytes[i..j + 1]
  {}

  lemma PublishReadKeepsInv(s: State)
    requires Inv(s) && Enabled(s, PublishRead) && WithinWidth(s)
    ensures Inv(Apply(s, PublishRead))
  {
    TracksAdvance(s.readPos, |s.got|, s.consumer.n, |s.storage|);
    assert s.got + s.consumer.dst == s.written[..|s.got| + s.consumer.n];
  }

  lemma StartKeepsInv(s: State, step: Step)
    requires Inv(s) && Enabled(s, step) && (step.StartWrite? || step.StartRead?)
    ensures Inv(Apply(s, step))
  {
    DistanceIsTotal(s.readPos, s.writePos, |s.got|, |s.written|);
  }

  lemma StepKeepsInv(s: State, step: Step)
    requires Inv(s) && Enabled(s, step) && WithinWidth(Apply(s, step))
    ensures Inv(Apply(s, step))
  {
    match step
    case StartWrite(_) => StartKeepsInv(s, step);
    case CopyByte => CopyByteKeepsInv(s);
    case PublishWrite => PublishWriteKeepsInv(s);
    case StartRead(_) => StartKeepsInv(s, step);
    case FetchByte => FetchByteKeepsInv(s);
    case PublishRead => PublishReadKeepsInv(s);
  }

  /** A run within the width was within it all along. */
  lemma {:induction false} WidthMonotone(s: State, steps: seq<Step>, s': State)
    requires Reachable(s, steps, s') && WithinWidth(s')
    ensures WithinWidth(s) && |s.storage| == |s'.storage|
    decreases |steps|
  {
    if steps != [] {
      WidthMonotone(Apply(s, steps[0]), steps[1..], s');
    }
  }

  lemma {:induction false} RunKeepsInv(s: State, steps: seq<Step>, s': State)
    requires Inv(s) && Reachable(s, steps, s') && WithinWidth(s')
    ensures Inv(s')
    decreases |steps|
  {
    if steps != [] {
      WidthMonotone(Apply(s, steps[0]), steps[1..], s');
      StepKeepsInv(s, steps[0]);
      RunKeepsInv(Apply(s, steps[0]), steps[1..], s');
    }
  }

  // ---------------------------------------------------------------------------------------
  // Results
  // ---------------------------------------------------------------------------------------

  /** In every interleaving the bytes read so far are the first bytes written. */
  lemma ReadsArePrefixOfWrites(s: State, steps: seq<Step>, s': State)
    requires Initial(s) && Reachable(s, steps, s') && WithinWidth(s')
    ensures s'.got <= s'.written && |s'.written| <= |s'.got| + |s'.storage|
    ensures s'.consumer.Fetching? ==> s'.got + s'.consumer.dst <= s'.written
    ensures UnreadIntact(s')
  {
    RunKeepsInv(s, steps, s');
    if s'.consumer.Fetching? {
      var d := |s'.consumer.dst|;
      assert s'.got + s'.consumer.dst == s'.written[..|s'.got| + d];
    }
  }

  /**
    What an owner computes when it starts is exact at that moment: the producer sets out to
    copy as much as is free, the consumer to fetch as much as is unread, and neither does
    anything when that, or what is asked for, is nothing.
  */
  lemma OwnersSeeTheTruth(s: State, steps: seq<Step>, s': State, src: seq<Byte>, len: nat)
    requires Initial(s) && Reachable(s, steps, s') && WithinWidth(s')
    ensures Distance(s'.readPos, s'.writePos) == |s'.written| - |s'.got| <= |s'.storage|
    ensures s'.producer.Outside? ==>
              var n := Min(|src|, |s'.storage| - (|s'.written| - |s'.got|));
              && Enabled(s', StartWrite(src))
              && Apply(s', StartWrite(src)) == if n == 0 then s' else s'.(producer := Copying(src[..n], 0))
    ensures s'.consumer.Away? ==>
              var n := Min(len, |s'.written| - |s'.got|);
              && Enabled(s', StartRead(len))
              && Apply(s', StartRead(len)) == if n == 0 then s' else s'.(consumer := Fetching(n, []))
  {
    RunKeepsInv(s, steps, s');
    DistanceIsTotal(s'.readPos, s'.writePos, |s'.got|, |s'.written|);
  }

  /** Neither side ever waits for the other: whatever the state, each has its next step. */
  lemma NeitherSideBlocks(s: State, steps: seq<Step>, s': State)
    requires Initial(s) && Reachable(s, steps, s') && WithinWidth(s')
    ensures forall src :: s'.producer.Outside? ==> Enabled(s', StartWrite(src))
    ensures s'.producer.Copying? ==> Enabled(s', CopyByte) || Enabled(s', PublishWrite)
    ensures forall len :: s'.consumer.Away? ==> Enabled(s', StartRead(len))
    ensures s'.consumer.Fetching? ==> Enabled(s', FetchByte) || Enabled(s', PublishRead)
  {
    RunKeepsInv(s, steps, s');
    DistanceIsTotal(s'.readPos, s'.writePos, |s'.got|, |s'.written|);
  }

  // ---------------------------------------------------------------------------------------
  // The width matters
  // ---------------------------------------------------------------------------------------

  lemma {:induction false} ReachableSnoc(s: State, steps: seq<Step>, m: State, step: Step)
    requires Reachable(s, steps, m) && Enabled(m, step)
    ensures Reachable(s, steps + [step], Apply(m, step))
    decreases |steps|
  {
    if steps == [] {
      assert [step][1..] == [];
      assert Reachable(Apply(m, step), [], Apply(m, step));
    } else {
      ReachableSnoc(Apply(s, steps[0]), steps[1..], m, step);
      assert (steps + [step])[1..] == steps[1..] + [step];
    }
  }

  ghost predicate AllZero(storage: seq<Byte>) {
    forall i :: 0 <= i < |storage| ==> storage[i] == 0
  }

  /** A buffer that has passed n zero bytes through and is empty. */
  ghost predicate PassedThrough(s: State, n: nat, c: nat) {
    && Inv(s) && |s.storage| == c && AllZero(s.storage) && s.producer.Outside? && s.consumer.Away?
    && |s.written| == n && |s.got| == n
  }

  /** The producer writes one byte while there is room. */
  lemma WriteOne(s0: State, steps: seq<Step>, s: State, b: Byte) returns (steps': seq<Step>, s': State)
    requires Reachable(s0, steps, s)
    requires s.producer.Outside? && Distance(s.readPos, s.writePos) < |s.storage|
    ensures Reachable(s0, steps', s')
    ensures s' == s.(storage := s.storage[s.writePos % |s.storage| := b],
                     writePos := Advance(s.writePos, 1), written := s.written + [b])
  {
    assert [b][..1] == [b];
    ReachableSnoc(s0, steps, s, StartWrite([b]));
    var s1 := s.(producer := Copying([b], 0));
    assert Apply(s, StartWrite([b])) == s1;
    ReachableSnoc(s0, steps + [StartWrite([b])], s1, CopyByte);
    var s2 := Apply(s1, CopyByte);
    ReachableSnoc(s0, steps + [StartWrite([b])] + [CopyByte], s2, PublishWrite);
    steps' := steps + [StartWrite([b])] + [CopyByte] + [PublishWrite];
    s' := Apply(s2, PublishWrite);
  }

  /** The consumer fetches and releases the only byte. */
  lemma ReadOne(s0: State, steps: seq<Step>, s: State) returns (steps': seq<Step>, s': State)
    requires Reachable(s0, steps, s)
    requires |s.storage| > 0 && s.consumer.Away? && Distance(s.readPos, s.writePos) == 1
    ensures Reachable(s0, steps', s')
    ensures s' == s.(readPos := Advance(s.readPos, 1), got := s.got + [s.storage[s.readPos % |s.storage|]])
  {
    ReachableSnoc(s0, steps, s, StartRead(1));
    var s1 := s.(consumer := Fetching(1, []));
    assert Apply(s, StartRead(1)) == s1;
    ReachableSnoc(s0, steps + [StartRead(1)], s1, FetchByte);
    var s2 := Apply(s1, FetchByte);
    assert [] + [s.storage[s.readPos % |s.storage|]] == [s.storage[s.readPos % |s.storage|]];
    ReachableSnoc(s0, steps + [StartRead(1)] + [FetchByte], s2, PublishRead);
    steps' := steps + [StartRead(1)] + [FetchByte] + [PublishRead];
    s' := Apply(s2, PublishRead);
  }

  lemma FetchAt(s: State, r: nat)
    requires Enabled(s, FetchByte) && s.consumer.n == 2 && r + 2 <= |s.storage| && s.readPos % |s.storage| == r
    ensures Apply(s, FetchByte) ==
            s.(consumer := if s.consumer.dst == [] then Fetching(2, [s.storage[r]])
                           else Fetching(2, [s.consumer.dst[0], s.storage[r + 1]]))
  {
    assert s.consumer.dst == [] ==> s.consumer.dst + [s.storage[r]] == [s.storage[r]];
    assert s.consumer.dst != [] ==> s.consumer.dst + [s.storage[r + 1]] == [s.consumer.dst[0], s.storage[r + 1]];
    var k := |s.consumer.dst|;
    assert SplitIndex(s.readPos % |s.storage|, k, 2, |s.storage|) == r + k;
  }

  /** The consumer fetches two bytes that lie next to each other. */
  lemma FetchTwo(s0: State, steps: seq<Step>, s: State, r: nat) returns (steps': seq<Step>, s': State)
    requires Reachable(s0, steps, s)
    requires s.consumer.Away? && Distance(s.readPos, s.writePos) == 2
    requires r + 2 <= |s.storage| && s.readPos % |s.storage| == r
    ensures Reachable(s0, steps', s')
    ensures s' == s.(consumer := Fetching(2, [s.storage[r], s.storage[r + 1]]))
  {
    ReachableSnoc(s0, steps, s, StartRead(2));
    var s1 := s.(consumer := Fetching(2, []));
    assert Apply(s, StartRead(2)) == s1;
    ReachableSnoc(s0, steps + [StartRead(2)], s1, FetchByte);
    FetchAt(s1, r);
    var s2 := s.(consumer := Fetching(2, [s.storage[r]]));
    FetchAt(s2, r);
    ReachableSnoc(s0, steps + [StartRead(2)] + [FetchByte], s2, FetchByte);
    steps' := steps + [StartRead(2)] + [FetchByte] + [FetchByte];
    s' := Apply(s2, FetchByte);
  }

  lemma InvAfterRun(s0: State, steps: seq<Step>, s: State)
    requires Initial(s0) && Reachable(s0, steps, s) && WithinWidth(s)
    ensures Inv(s)
  {
    RunKeepsInv(s0, steps, s);
  }

  lemma {:induction false} PassThrough(n: nat, c: nat) returns (s0: State, steps: seq<Step>, s: State)
    requires n < TWO_64 && 0 < c < TWO_64
    ensures Initial(s0) && |s0.storage| == c && Reachable(s0, steps, s) && PassedThrough(s, n, c)
    decreases n
  {
    if n == 0 {
      s0 := State(seq(c, _ => 0), 0, 0, Outside, Away, [], []);
      steps, s := [], s0;
      InvAfterRun(s0, steps, s);
    } else {
      var m;
      s0, steps, m := PassThrough(n - 1, c);
      steps, s := PassOne(s0, steps, m, n - 1, c);
    }
  }

  lemma PassOne(s0: State, steps: seq<Step>, m: State, n: nat, c: nat) returns (steps': seq<Step>, s: State)
    requires n < TWO_64 - 1 && 0 < c < TWO_64
    requires Initial(s0) && Reachable(s0, steps, m) && PassedThrough(m, n, c)
    ensures Reachable(s0, steps', s) && PassedThrough(s, n + 1, c)
  {
    var t;
    DistanceIsTotal(m.readPos, m.writePos, n, n);
    steps', t := WriteOne(s0, steps, m, 0);
    InvAfterRun(s0, steps', t);
    DistanceIsTotal(t.readPos, t.writePos, n, n + 1);
    steps', s := ReadOne(s0, steps', t);
    InvAfterRun(s0, steps', s);
  }

  /** The last index before the wrap is not the last slot, unless the capacity divides 2^64. */
  lemma WrapIndex(c: nat) returns (r: nat)
    requires c > 0 && TWO_64 % c != 0
    ensures r == (TWO_64 - 1) % c && r + 2 <= c
  {
    r := (TWO_64 - 1) % c;
    ModStep(TWO_64 - 1, 1, c);
  }

  /**
    With any capacity that does not divide 2^64 the position jumps to the slot 0 when it wraps:
    after 2^64 + 1 bytes the consumer gets a byte that was not written there.
  */
  lemma WrapLosesByte(c: nat) returns (s0: State, steps: seq<Step>, s: State)
    requires 0 < c < TWO_64 && TWO_64 % c != 0
    ensures Initial(s0) && |s0.storage| == c && Reachable(s0, steps, s)
    ensures |s.written| == TWO_64 + 1 && !PrefixKept(s)
  {
    var m, t, u;
    var r := WrapIndex(c);
    s0, steps, m := PassThrough(TWO_64 - 1, c);
    SmallMod(TWO_64 - 1);
    assert m.readPos == m.writePos == TWO_64 - 1;
    steps, t := WriteOne(s0, steps, m, 0);
    ModUnique(0, c, 0, 0);
    assert t.writePos == 0 && AllZero(t.storage);
    steps, u := WriteOne(s0, steps, t, 1);
    assert u.storage == t.storage[0 := 1];
    steps, s := FetchTwo(s0, steps, u, r);
    assert (s.got + s.consumer.dst)[TWO_64] == 0 && s.written[TWO_64] == 1;
  }

  /** What was read, and what is being read, are the first bytes written. */
  ghost predicate PrefixKept(s: State) {
    s.got <= s.written && (s.consumer.Fetching? ==> s.got + s.consumer.dst <= s.written)
  }

  ghost predicate AlwaysKeepsPrefix(c: nat) {
    forall s0, steps, s :: Initial(s0) && |s0.storage| == c && Reachable(s0, steps, s) ==> PrefixKept(s)
  }

  lemma {:induction false} CapacityStays(s: State, steps: seq<Step>, s': State)
    requires Reachable(s, steps, s')
    ensures |s'.storage| == |s.storage|
    decreases |steps|
  {
    if steps != [] {
      CapacityStays(Apply(s, steps[0]), steps[1..], s');
    }
  }

  /** A buffer behaves as a queue in all runs, of any length, exactly if its capacity divides 2^64. */
  lemma QueueForeverIffDivides(c: nat)
    requires 0 < c < TWO_64
    ensures AlwaysKeepsPrefix(c) <==> TWO_64 % c == 0
  {
    if TWO_64 % c == 0 {
      forall s0, steps, s | Initial(s0) && |s0.storage| == c && Reachable(s0, steps, s) ensures PrefixKept(s) {
        CapacityStays(s0, steps, s);
        ReadsArePrefixOfWrites(s0, steps, s);
      }
    } else {
      var s0, steps, s := WrapLosesByte(c);
    }
  }
}
