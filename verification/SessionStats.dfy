/** The counters of one session, and the connection that writes to them next to its own. */
module SessionStats {
  import opened Words
  import opened Frames
  import opened FrameIo
  import opened PipeStats
  import opened Sums
  import P = PosixPipe

  class SessionStats {
    var messagesSent: U64
    var messagesRecv: U64
    var bytesSent: U64
    var bytesRecv: U64
    var errors: U64

    constructor ()
      ensures Value() == ZERO
    {
      messagesSent, messagesRecv, bytesSent, bytesRecv, errors := 0, 0, 0, 0, 0;
    }

    function Value(): Counters
      reads this
    {
      Counters(messagesSent, messagesRecv, bytesSent, bytesRecv, errors, 0, 0, 0)
    }

    method Snapshot() returns (s: Counters)
      ensures s == Value()
    {
      s := ZERO;
      s := s.(messagesSent := messagesSent);
      s := s.(messagesReceived := messagesRecv);
      s := s.(bytesSent := bytesSent);
      s := s.(bytesReceived := bytesRecv);
      s := s.(errors := errors);
    }

    method Reset()
      modifies this
      ensures Value() == ZERO
    {
      messagesSent := 0;
      messagesRecv := 0;
      bytesSent := 0;
      bytesRecv := 0;
      errors := 0;
    }

    method AddSend(size: nat)
      modifies this
      ensures Value() == CountSend(old(Value()), size)
    {
      messagesSent := WrapAdd(messagesSent, 1);
      bytesSent := WrapAdd(bytesSent, size);
    }

    method AddReceive(size: nat)
      modifies this
      ensures Value() == CountReceive(old(Value()), size)
    {
      messagesRecv := WrapAdd(messagesRecv, 1);
      bytesRecv := WrapAdd(bytesRecv, size);
    }

    method AddError()
      modifies this
      ensures Value() == CountError(old(Value()))
    {
      errors := WrapAdd(errors, 1);
    }
  }

  /** A send of that many bytes or a receive, and what came of it. */
  datatype Event = SendEnded(size: nat, io: P.IoResult) | ReceiveEnded(result: RecvResult)

  /** What an event adds to a counter. */
  function Amount(e: Event, f: Field): (n: int)
    ensures n >= 0
  {
    match f
    case MessagesSent => if e.SendEnded? && e.io.Done? then 1 else 0
    case BytesSent => if e.SendEnded? && e.io.Done? then e.size else 0
    case MessagesReceived => if e.ReceiveEnded? && e.result.Received? then 1 else 0
    case BytesReceived => if e.ReceiveEnded? && e.result.Received? then |e.result.frame.payload| else 0
    case Errors => if (e.SendEnded? && e.io.Failed?) || (e.ReceiveEnded? && e.result.RecvFailed?) then 1 else 0
    case RpcCalls => 0
    case RttTotalNs => 0
  }

  /** The counters take the event, each modulo 2^64, and nothing else moves. */
  ghost predicate Counts(c: Counters, c': Counters, e: Event) {
    && (forall f :: Get(c', f) == (Get(c, f) + Amount(e, f)) % TWO_64)
    && c'.rttLastNs == c.rttLastNs
  }

  lemma SendCounts(c: Counters, size: nat)
    ensures Counts(c, CountSend(c, size), SendEnded(size, P.Done))
  {}

  lemma ReceiveCounts(c: Counters, f: Frame)
    ensures Counts(c, CountReceive(c, |f.payload|), ReceiveEnded(Received(f)))
  {}

  lemma ErrorCounts(c: Counters, e: Event)
    requires if e.SendEnded? then e.io.Failed? else e.result.RecvFailed?
    ensures Counts(c, CountError(c), e)
  {
    forall f ensures Get(CountError(c), f) == (Get(c, f) + Amount(e, f)) % TWO_64 {
      ErrorAmount(e, f);
      if !f.Errors? {
        assert Get(CountError(c), f) == Get(c, f);
        NothingAdded(Get(c, f));
      }
    }
  }

  lemma ErrorAmount(e: Event, f: Field)
    requires if e.SendEnded? then e.io.Failed? else e.result.RecvFailed?
    ensures Amount(e, f) == if f.Errors? then 1 else 0
  {}

  lemma NothingAdded(x: U64)
    ensures (x + 0) % TWO_64 == x
  {}

  lemma NothingCounts(c: Counters, e: Event)
    requires if e.SendEnded? then e.io.Blocked? else e.result.RecvBlocked?
    ensures Counts(c, c, e)
  {
    forall f ensures Get(c, f) == (Get(c, f) + Amount(e, f)) % TWO_64 {
    }
  }

  /** The counters after an event. */
  function After(c: Counters, e: Event): (c': Counters)
    ensures Counts(c, c', e)
  {
    match e
    case SendEnded(size, Done) => SendCounts(c, size); CountSend(c, size)
    case ReceiveEnded(Received(f)) => ReceiveCounts(c, f); CountReceive(c, |f.payload|)
    case SendEnded(_, Failed(_)) => ErrorCounts(c, e); CountError(c)
    case ReceiveEnded(RecvFailed(_)) => ErrorCounts(c, e); CountError(c)
    case _ => NothingCounts(c, e); c
  }

  function Amounts(es: seq<Event>, f: Field): (w: seq<int>)
    ensures |w| == |es| && forall i :: 0 <= i < |es| ==> w[i] == Amount(es[i], f)
  {
    seq(|es|, i requires 0 <= i < |es| => Amount(es[i], f))
  }

  function AfterAll(c: Counters, es: seq<Event>): Counters {
    if es == [] then c else After(AfterAll(c, es[..|es| - 1]), es[|es| - 1])
  }

  /** Over any sequence of events each counter, own or of the session, is the total of them. */
  lemma {:induction false} EventsAddUp(c: Counters, es: seq<Event>, f: Field)
    ensures Get(AfterAll(c, es), f) == (Get(c, f) + Sum(Amounts(es, f))) % TWO_64
    ensures AfterAll(c, es).rttLastNs == c.rttLastNs
    decreases |es|
  {
    if es == [] {
      SumOfZeros(Amounts(es, f));
    } else {
      var n := |es| - 1;
      EventsAddUp(c, es[..n], f);
      SumAppend(Amounts(es[..n], f), Amount(es[n], f));
      assert Amounts(es, f) == Amounts(es[..n], f) + [Amount(es[n], f)];
      WrapAddMod(Get(c, f) + Sum(Amounts(es[..n], f)), Amount(es[n], f));
    }
  }

  class PipeServer {
    const session: SessionStats?   // only for connections of a multi-connection server
    var own: Counters

    constructor (session: SessionStats?)
      ensures this.session == session && own == ZERO
    {
      this.session := session;
      own := ZERO;
    }

    /** Own and session counters see the same events. */
    method Send(host: Host, pipe: P.PosixPipe, payload: seq<Byte>) returns (r: P.IoResult)
      modifies this, pipe`connected, pipe`outgoing, pipe`sends, if session != null then {session} else {}
      ensures own == After(old(own), SendEnded(|payload|, r))
      ensures session != null ==> session.Value() == After(old(session.Value()), SendEnded(|payload|, r))
      ensures |payload| < TWO_32 ==>
                Wrote(old(pipe.outgoing), pipe.outgoing, Encode(Frame(payload, NO_MESSAGE_ID, 0)), r.Done?)
    {
      r := SendFrame(host, pipe, payload, NO_MESSAGE_ID, 0);
      match r
      case Done =>
        own := CountSend(own, |payload|);
        if session != null {
          session.AddSend(|payload|);
        }
      case Failed(_) =>
        own := CountError(own);
        if session != null {
          session.AddError();
        }
      case Blocked =>
    }

    method Receive(host: Host, pipe: P.PosixPipe, timeoutMs: int) returns (r: RecvResult)
      modifies this, pipe`connected, pipe`incoming, pipe`polls, pipe`now, pipe`pollTime
      modifies if session != null then {session} else {}
      ensures own == After(old(own), ReceiveEnded(r))
      ensures session != null ==> session.Value() == After(old(session.Value()), ReceiveEnded(r))
      ensures Agrees(Decode(old(pipe.incoming)), r, old(pipe.incoming), pipe.incoming)
    {
      r := RecvFrame(host, pipe, timeoutMs);
      match r
      case Received(f) =>
        own := CountReceive(own, |f.payload|);
        if session != null {
          session.AddReceive(|f.payload|);
        }
      case RecvFailed(_) =>
        own := CountError(own);
        if session != null {
          session.AddError();
        }
      case RecvBlocked =>
    }
  }
}
