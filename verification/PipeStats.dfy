/** The statistics record and its addition; every counter is an unsigned 64-bit word. */
module PipeStats {
  import opened Words

  datatype Counters = Counters(
    messagesSent: U64, messagesReceived: U64, bytesSent: U64, bytesReceived: U64,
    errors: U64, rpcCalls: U64, rttTotalNs: U64, rttLastNs: U64)

  const ZERO: Counters := Counters(0, 0, 0, 0, 0, 0, 0, 0)

  /** fetch_add and += on such a word. */
  function WrapAdd(a: U64, n: nat): (r: U64) {
    (a + n) % TWO_64
  }

  lemma WrapAddMod(x: int, n: nat)
    ensures WrapAdd(x % TWO_64, n) == (x + n) % TWO_64
  {}

  lemma WrapAddMods(x: int, y: int)
    ensures WrapAdd(x % TWO_64, y % TWO_64) == (x + y) % TWO_64
  {}

  /** Adding to a counter, and then more. */
  lemma WrapAddFurther(x: int, n: nat, more: int)
    ensures (WrapAdd(x % TWO_64, n) + more) % TWO_64 == (x + (n + more)) % TWO_64
  {}

  function CountError(s: Counters): Counters {
    s.(errors := WrapAdd(s.errors, 1))
  }

  function CountSend(s: Counters, size: nat): Counters {
    s.(messagesSent := WrapAdd(s.messagesSent, 1), bytesSent := WrapAdd(s.bytesSent, size))
  }

  function CountReceive(s: Counters, size: nat): Counters {
    s.(messagesReceived := WrapAdd(s.messagesReceived, 1), bytesReceived := WrapAdd(s.bytesReceived, size))
  }

  /** The counters that are totals; the last round-trip time is not one of them. */
  datatype Field =
    | MessagesSent | MessagesReceived | BytesSent | BytesReceived
    | Errors | RpcCalls | RttTotalNs

  function Get(c: Counters, f: Field): U64 {
    match f
    case MessagesSent => c.messagesSent
    case MessagesReceived => c.messagesReceived
    case BytesSent => c.bytesSent
    case BytesReceived => c.bytesReceived
    case Errors => c.errors
    case RpcCalls => c.rpcCalls
    case RttTotalNs => c.rttTotalNs
  }

  /** r is the total of a and b; the last round-trip time stays that of a. */
  ghost predicate IsSum(r: Counters, a: Counters, b: Counters) {
    && (forall f :: Get(r, f) == (Get(a, f) + Get(b, f)) % TWO_64)
    && r.rttLastNs == a.rttLastNs
  }

  class PipeStats {
    var counters: Counters

    constructor (counters: Counters)
      ensures this.counters == counters
    {
      this.counters := counters;
    }

    /** operator+= */
    method AddAssign(rhs: PipeStats)
      modifies this
      ensures IsSum(counters, old(counters), old(rhs.counters))
    {
      ghost var a, b := counters, rhs.counters;
      counters := counters.(messagesSent := WrapAdd(counters.messagesSent, rhs.counters.messagesSent));
      counters := counters.(messagesReceived := WrapAdd(counters.messagesReceived, rhs.counters.messagesReceived));
      counters := counters.(bytesSent := WrapAdd(counters.bytesSent, rhs.counters.bytesSent));
      counters := counters.(bytesReceived := WrapAdd(counters.bytesReceived, rhs.counters.bytesReceived));
      counters := counters.(errors := WrapAdd(counters.errors, rhs.counters.errors));
      counters := counters.(rpcCalls := WrapAdd(counters.rpcCalls, rhs.counters.rpcCalls));
      counters := counters.(rttTotalNs := WrapAdd(counters.rttTotalNs, rhs.counters.rttTotalNs));
      forall f ensures Get(counters, f) == WrapAdd(Get(a, f), Get(b, f)) {
      }
    }

    /** operator+ works on a copy of its left operand. */
    static method Plus(lhs: PipeStats, rhs: PipeStats) returns (r: PipeStats)
      ensures fresh(r) && IsSum(r.counters, lhs.counters, rhs.counters)
      ensures unchanged(lhs) && unchanged(rhs)
    {
      r := new PipeStats(lhs.counters);
      r.AddAssign(rhs);
    }
  }
}
