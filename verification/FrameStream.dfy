/**
  Any number of senders share one stream; each holds the I/O mutex for a whole frame while
  the kernel takes its bytes in arbitrary pieces. The steps of the senders interleave freely.
*/
module FrameStream {
  import opened Words
  import opened Frames

  datatype Sender = Idle | WantsLock(frame: Frame) | Writing(frame: Frame, written: nat)

  datatype Owner = Nobody | OwnedBy(sender: nat)

  datatype State = State(
    wire: seq<Byte>,         // everything the kernel has accepted
    senders: seq<Sender>,
    owner: Owner,            // who holds io_mutex_
    complete: seq<Frame>,    // frames written to the end, in lock order
    cut: seq<Byte>,          // what a failed write left of its frame
    overrun: bool)           // bytes were accepted after such a failure

  datatype Step =
    | Ask(sender: nat, frame: Frame)     // enter send_frame
    | Lock(sender: nat)
    | Write(sender: nat, n: nat)         // the kernel accepts n more bytes
    | Unlock(sender: nat)                // send_frame returns
    | Fail(sender: nat)                  // write_all throws; the mutex is released

  predicate Initial(s: State) {
    && s.wire == [] && s.complete == [] && s.cut == [] && !s.overrun && s.owner.Nobody?
    && forall t :: 0 <= t < |s.senders| ==> s.senders[t].Idle?
  }

  predicate Enabled(s: State, step: Step) {
    && step.sender < |s.senders|
    && var me := s.senders[step.sender];
    match step
    case Ask(_, frame) => me.Idle? && Encodable(frame)
    case Lock(_) => me.WantsLock? && s.owner.Nobody?
    case Write(_, n) => me.Writing? && Encodable(me.frame) && 0 < n && me.written + n <= |Encode(me.frame)|
    case Unlock(_) => me.Writing? && Encodable(me.frame) && me.written == |Encode(me.frame)|
    case Fail(_) => me.Writing? && Encodable(me.frame) && me.written < |Encode(me.frame)|
  }

  function Apply(s: State, step: Step): State
    requires Enabled(s, step)
  {
    var t := step.sender;
    var me := s.senders[t];
    match step
    case Ask(_, frame) => s.(senders := s.senders[t := WantsLock(frame)])
    case Lock(_) => s.(senders := s.senders[t := Writing(me.frame, 0)], owner := OwnedBy(t))
    case Write(_, n) =>
      s.(wire := s.wire + Encode(me.frame)[me.written..me.written + n],
         senders := s.senders[t := Writing(me.frame, me.written + n)],
         overrun := s.overrun || s.cut != [])
    case Unlock(_) =>
      s.(senders := s.senders[t := Idle], owner := Nobody, complete := s.complete + [me.frame])
    case Fail(_) =>
      s.(senders := s.senders[t := Idle], owner := Nobody,
         cut := if me.written == 0 then s.cut else Encode(me.frame)[..me.written])
  }

  ghost predicate Reachable(s: State, steps: seq<Step>, s': State)
    decreases |steps|
  {
    if steps == [] then s == s'
    else Enabled(s, steps[0]) && Reachable(Apply(s, steps[0]), steps[1..], s')
  }

  /** The part of a frame after the complete ones. */
  function Tail(s: State): seq<Byte>
    requires s.owner.OwnedBy? ==> s.owner.sender < |s.senders|
  {
    if s.cut != [] then s.cut
    else if s.owner.OwnedBy? then
      var me := s.senders[s.owner.sender];
      if me.Writing? && Encodable(me.frame) && me.written <= |Encode(me.frame)| then Encode(me.frame)[..me.written] else []
    else []
  }

  ghost predicate IsProperPrefix(bytes: seq<Byte>) {
    exists f :: Encodable(f) && IsCutOf(bytes, f)
  }

  ghost predicate IsCutOf(bytes: seq<Byte>, f: Frame)
    requires Encodable(f)
  {
    |bytes| < |Encode(f)| && bytes == Encode(f)[..|bytes|]
  }

  ghost predicate Inv(s: State) {
    && AllEncodable(s.complete)
    && (s.owner.OwnedBy? ==> s.owner.sender < |s.senders|)
    && (forall t :: 0 <= t < |s.senders| ==> (s.senders[t].Writing? <==> s.owner == OwnedBy(t)))
    && (forall t :: 0 <= t < |s.senders| && !s.senders[t].Idle? ==> Encodable(s.senders[t].frame))
    && (forall t :: 0 <= t < |s.senders| && s.senders[t].Writing? ==>
          s.senders[t].written <= |Encode(s.senders[t].frame)|)
    && (s.cut != [] ==> IsProperPrefix(s.cut))
    && (!s.overrun ==> s.wire == EncodeAll(s.complete) + Tail(s))
    && (!s.overrun && s.cut != [] && s.owner.OwnedBy? ==> s.senders[s.owner.sender].written == 0)
  }

  lemma InitialInv(s: State)
    requires Initial(s)
    ensures Inv(s)
  {
    assert EncodeAll([]) == [];
  }

  lemma ExtendPrefix(before: seq<Byte>, e: seq<Byte>, i: nat, j: nat)
    requires i <= j <= |e|
    ensures (before + e[..i]) + e[i..j] == before + e[..j]
  {}

  lemma WriteKeepsInv(s: State, step: Step)
    requires Inv(s) && Enabled(s, step) && step.Write?
    ensures Inv(Apply(s, step))
  {
    var me, s' := s.senders[step.sender], Apply(s, step);
    if !s'.overrun {
      ExtendPrefix(EncodeAll(s.complete), Encode(me.frame), me.written, me.written + step.n);
    }
  }

  lemma UnlockKeepsInv(s: State, step: Step)
    requires Inv(s) && Enabled(s, step) && step.Unlock?
    ensures Inv(Apply(s, step))
  {
    var me, s' := s.senders[step.sender], Apply(s, step);
    if !s'.overrun {
      EncodeAllAppend(s.complete, me.frame);
      assert Encode(me.frame)[..|Encode(me.frame)|] == Encode(me.frame);
    }
  }

  lemma FailKeepsInv(s: State, step: Step)
    requires Inv(s) && Enabled(s, step) && step.Fail?
    ensures Inv(Apply(s, step))
  {
    var me, s' := s.senders[step.sender], Apply(s, step);
    if me.written > 0 {
      assert IsCutOf(s'.cut, me.frame);
      assert IsProperPrefix(s'.cut);
    }
  }

  lemma StepKeepsInv(s: State, step: Step)
    requires Inv(s) && Enabled(s, step)
    ensures Inv(Apply(s, step))
  {
    match step
    case Ask(_, _) =>
    case Lock(_) =>
    case Write(_, _) => WriteKeepsInv(s, step);
    case Unlock(_) => UnlockKeepsInv(s, step);
    case Fail(_) => FailKeepsInv(s, step);
  }

  lemma {:induction false} RunKeepsInv(s: State, steps: seq<Step>, s': State)
    requires Inv(s) && Reachable(s, steps, s')
    ensures Inv(s')
    decreases |steps|
  {
    if steps != [] {
      StepKeepsInv(s, steps[0]);
      RunKeepsInv(Apply(s, steps[0]), steps[1..], s');
    }
  }

  /** A frame whose last byte was just written counts although its sender still holds the mutex. */
  function JustWritten(s: State): seq<Frame> {
    if s.cut == [] && s.owner.OwnedBy? && s.owner.sender < |s.senders| then
      var me := s.senders[s.owner.sender];
      if me.Writing? && Encodable(me.frame) && me.written == |Encode(me.frame)| then [me.frame] else []
    else []
  }

  /** What follows the frames on the wire never decides anything. */
  lemma WireSplit(s: State) returns (rest: seq<Byte>)
    requires Inv(s) && !s.overrun
    ensures AllEncodable(s.complete + JustWritten(s))
    ensures s.wire == EncodeAll(s.complete + JustWritten(s)) + rest && Decode(rest) == NeedMore
  {
    rest := Tail(s);
    if s.cut != [] {
      var f :| Encodable(f) && IsCutOf(s.cut, f);
      DecodePartial(f, |s.cut|);
      assert s.complete + [] == s.complete;
    } else if s.owner.OwnedBy? {
      var me := s.senders[s.owner.sender];
      if me.written < |Encode(me.frame)| {
        DecodePartial(me.frame, me.written);
        assert s.complete + [] == s.complete;
      } else {
        EncodeAllAppend(s.complete, me.frame);
        assert Encode(me.frame)[..me.written] == Encode(me.frame);
        rest := [];
        assert s.wire == EncodeAll(s.complete + [me.frame]) + [];
      }
    } else {
      assert s.complete + [] == s.complete;
    }
  }

  /**
    Stream integrity: in every interleaving in which no bytes follow a frame that was cut
    short, a receiver parses exactly the frames written so far, in lock order.
  */
  lemma StreamIntegrity(s: State, steps: seq<Step>, s': State)
    requires Initial(s) && Reachable(s, steps, s') && !s'.overrun
    ensures ParseAll(s'.wire) == s'.complete + JustWritten(s')
  {
    InitialInv(s);
    RunKeepsInv(s, steps, s');
    var rest := WireSplit(s');
    ParseEncodeAll(s'.complete + JustWritten(s'), rest);
  }

  lemma {:induction false} ReachableAppend(s: State, a: seq<Step>, m: State, b: seq<Step>, t: State)
    requires Reachable(s, a, m) && Reachable(m, b, t)
    ensures Reachable(s, a + b, t)
    decreases |a|
  {
    if a == [] {
      assert a + b == b;
    } else {
      ReachableAppend(Apply(s, a[0]), a[1..], m, b, t);
      assert (a + b)[1..] == a[1..] + b;
    }
  }

  lemma FourSteps(s: State, a: Step, b: Step, c: Step, d: Step, s1: State, s2: State, s3: State, s4: State)
    requires Enabled(s, a) && Apply(s, a) == s1
    requires Enabled(s1, b) && Apply(s1, b) == s2
    requires Enabled(s2, c) && Apply(s2, c) == s3
    requires Enabled(s3, d) && Apply(s3, d) == s4
    ensures Reachable(s, [a, b, c, d], s4)
  {
    assert [a, b, c, d][1..] == [b, c, d] && [b, c, d][1..] == [c, d] && [c, d][1..] == [d] && [d][1..] == [];
    assert Reachable(s4, [], s4);
    assert Reachable(s3, [d], s4);
    assert Reachable(s2, [c, d], s4);
    assert Reachable(s1, [b, c, d], s4);
  }

  lemma EncodeStart(f: Frame)
    requires Encodable(f)
    ensures Encode(f)[..1] == [0x50] && Encode(f)[..4] == MAGIC
  {
    assert Encode(f)[..4] == MAGIC;
    assert Encode(f)[..1] == Encode(f)[..4][..1];
  }

  lemma StrayByteIsRejected(g: Frame)
    requires Encodable(g)
    ensures ParseAll([0x50] + Encode(g)) == []
  {
    EncodeStart(g);
    var s := [0x50] + Encode(g);
    assert s[..HEADER_SIZE][..4] == [0x50] + Encode(g)[..4][..3];
    assert s[..HEADER_SIZE][1] == 0x50;
  }

  /**
    The proviso is needed: the code does not stop sending after a frame was cut. One stray
    byte of a first frame makes the receiver reject whatever follows.
  */
  lemma CutFrameLosesTheRest(f: Frame, g: Frame) returns (s: State, steps: seq<Step>, s': State)
    requires Encodable(f) && Encodable(g)
    ensures Initial(s) && Reachable(s, steps, s')
    ensures s'.overrun && s'.complete == [g] && ParseAll(s'.wire) == []
  {
    var n := |Encode(g)|;
    s := State([], [Idle, Idle], Nobody, [], [], false);
    EncodeStart(f);
    var cut := State([0x50], [Idle, Idle], Nobody, [], [0x50], false);
    FourSteps(s, Ask(0, f), Lock(0), Write(0, 1), Fail(0),
              s.(senders := [WantsLock(f), Idle]),
              s.(senders := [Writing(f, 0), Idle], owner := OwnedBy(0)),
              s.(senders := [Writing(f, 1), Idle], owner := OwnedBy(0), wire := [0x50]),
              cut);
    assert Encode(g)[0..n] == Encode(g);
    s' := State([0x50] + Encode(g), [Idle, Idle], Nobody, [g], [0x50], true);
    FourSteps(cut, Ask(1, g), Lock(1), Write(1, n), Unlock(1),
              cut.(senders := [Idle, WantsLock(g)]),
              cut.(senders := [Idle, Writing(g, 0)], owner := OwnedBy(1)),
              cut.(senders := [Idle, Writing(g, n)], owner := OwnedBy(1), wire := [0x50] + Encode(g), overrun := true),
              s');
    steps := [Ask(0, f), Lock(0), Write(0, 1), Fail(0)] + [Ask(1, g), Lock(1), Write(1, n), Unlock(1)];
    ReachableAppend(s, [Ask(0, f), Lock(0), Write(0, 1), Fail(0)], cut, [Ask(1, g), Lock(1), Write(1, n), Unlock(1)], s');
    StrayByteIsRejected(g);
  }
}
