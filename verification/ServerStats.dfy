/** The statistics of the multi-connection server, without interference. */
module ServerStats {
  import opened Words
  import opened Sums
  import opened PipeStats
  import opened SessionStats

  function Column(values: seq<Counters>, f: Field): (w: seq<int>)
    ensures |w| == |values| && forall i :: 0 <= i < |values| ==> w[i] == Get(values[i], f)
  {
    seq(|values|, i requires 0 <= i < |values| => Get(values[i], f))
  }

  /** Accumulated and active sessions together. */
  function Total(accumulated: Counters, values: seq<Counters>, f: Field): int {
    (Get(accumulated, f) + Sum(Column(values, f))) % TWO_64
  }

  lemma WrapSum(x: int, y: int, n: nat)
    requires 0 <= x < TWO_64 && x == y % TWO_64
    ensures WrapAdd(x, n) == (y + n) % TWO_64
  {}

  /** Adding one more snapshot to a partial total. */
  lemma TotalSnoc(accumulated: Counters, values: seq<Counters>, v: Counters, sum: Counters, sum': Counters, f: Field)
    requires Get(sum, f) == Total(accumulated, values, f) && IsSum(sum', sum, v)
    ensures Get(sum', f) == Total(accumulated, values + [v], f)
  {
    SumAppend(Column(values, f), Get(v, f));
    assert Column(values + [v], f) == Column(values, f) + [Get(v, f)];
    WrapSum(Get(sum, f), Get(accumulated, f) + Sum(Column(values, f)), Get(v, f));
  }

  lemma {:induction false} SumSplit(a: seq<int>, p: nat)
    requires p < |a|
    ensures Sum(a) == Sum(a[..p] + a[p + 1..]) + a[p]
    decreases |a|
  {
    if p == 0 {
      assert a[..0] + a[1..] == a[1..];
    } else {
      SumSplit(a[1..], p - 1);
      assert (a[..p] + a[p + 1..])[1..] == a[1..][..p - 1] + a[1..][p..];
    }
  }

  /** Moving one session's counters into the accumulated ones leaves every total as it was. */
  lemma FoldKeepsTotal(accumulated: Counters, accumulated': Counters, values: seq<Counters>, p: nat, f: Field)
    requires p < |values| && IsSum(accumulated', accumulated, values[p])
    ensures Total(accumulated', values[..p] + values[p + 1..], f) == Total(accumulated, values, f)
  {
    SumSplit(Column(values, f), p);
    assert Column(values[..p] + values[p + 1..], f) == Column(values, f)[..p] + Column(values, f)[p + 1..];
    var rest := Sum(Column(values[..p] + values[p + 1..], f));
    FoldedMod(Get(accumulated, f), Get(values[p], f), rest);
  }

  lemma FoldedMod(a: int, v: int, rest: int)
    ensures ((a + v) % TWO_64 + rest) % TWO_64 == (a + (rest + v)) % TWO_64
  {}

  ghost predicate Distinct(ss: seq<SessionStats>) {
    forall i, j :: 0 <= i < j < |ss| ==> ss[i] != ss[j]
  }

  /** Position of a session, which may be missing. */
  function Position(ss: seq<SessionStats>, s: SessionStats): (p: nat)
    ensures p <= |ss| && (p < |ss| ==> ss[p] == s) && (p == |ss| ==> s !in ss)
  {
    if ss == [] || ss[0] == s then 0 else 1 + Position(ss[1..], s)
  }

  class MultiPipeServer {
    var accumulated: Counters
    var activeStats: seq<SessionStats>

    constructor ()
      ensures accumulated == ZERO && activeStats == []
    {
      accumulated, activeStats := ZERO, [];
    }

    function Values(): (w: seq<Counters>)
      reads this, activeStats
      ensures |w| == |activeStats| && forall i :: 0 <= i < |w| ==> w[i] == activeStats[i].Value()
    {
      seq(|activeStats|, i requires 0 <= i < |activeStats| reads this, activeStats => activeStats[i].Value())
    }

    /** stats_all */
    method StatsAll() returns (total: Counters)
      ensures forall f :: Get(total, f) == Total(accumulated, Values(), f)
      ensures total.rttLastNs == accumulated.rttLastNs
    {
      var sum := new PipeStats(accumulated);
      var i := 0;
      while i < |activeStats|
        invariant i <= |activeStats| && fresh(sum)
        invariant forall f :: Get(sum.counters, f) == Total(accumulated, Values()[..i], f)
        invariant sum.counters.rttLastNs == accumulated.rttLastNs
      {
        ghost var before := sum.counters;
        var snapshot := activeStats[i].Snapshot();
        var rhs := new PipeStats(snapshot);
        sum.AddAssign(rhs);
        forall f ensures Get(sum.counters, f) == Total(accumulated, Values()[..i + 1], f) {
          TotalSnoc(accumulated, Values()[..i], snapshot, before, sum.counters, f);
          assert Values()[..i + 1] == Values()[..i] + [snapshot];
        }
        i := i + 1;
      }
      assert Values()[..i] == Values();
      total := sum.counters;
    }

    /** reset_stats_all */
    method ResetStatsAll()
      modifies this`accumulated, activeStats
      ensures accumulated == ZERO && forall i :: 0 <= i < |activeStats| ==> activeStats[i].Value() == ZERO
    {
      accumulated := ZERO;
      var i := 0;
      while i < |activeStats|
        invariant i <= |activeStats| && accumulated == ZERO
        invariant forall j :: 0 <= j < i ==> activeStats[j].Value() == ZERO
        modifies activeStats
      {
        activeStats[i].Reset();
        i := i + 1;
      }
    }

    /** Drop the session from the list. */
    method Unlist(session: SessionStats)
      requires Distinct(activeStats) && session in activeStats
      modifies this`activeStats
      ensures session !in activeStats && Distinct(activeStats)
      ensures forall s :: s in activeStats <==> s in old(activeStats) && s != session
      ensures var p := Position(old(activeStats), session); Values() == old(Values())[..p] + old(Values())[p + 1..]
    {
      ghost var p := Position(activeStats, session);
      ghost var sessions, values := activeStats, Values();
      activeStats := Without(activeStats, session);
      assert forall i :: 0 <= i < |activeStats| ==> activeStats[i] == sessions[if i < p then i else i + 1];
      assert Values() == values[..p] + values[p + 1..];
    }

    /** The guard's critical section: drop the session from the list and accumulate its counters. */
    method FoldSession(session: SessionStats)
      requires Distinct(activeStats) && session in activeStats
      modifies this
      ensures session !in activeStats && Distinct(activeStats)
      ensures forall s :: s in activeStats <==> s in old(activeStats) && s != session
      ensures forall f :: Total(accumulated, Values(), f) == Total(old(accumulated), old(Values()), f)
    {
      ghost var p := Position(activeStats, session);
      ghost var values, acc := Values(), accumulated;
      Unlist(session);
      ghost var left := Values();
      var snapshot := session.Snapshot();
      var sum := new PipeStats(accumulated);
      var rhs := new PipeStats(snapshot);
      sum.AddAssign(rhs);
      accumulated := sum.counters;
      assert Values() == left;
      forall f ensures Total(accumulated, Values(), f) == Total(acc, values, f) {
        FoldKeepsTotal(acc, accumulated, values, p, f);
      }
    }
  }

  /** erase(remove(...)): all elements but the session, in order. */
  method Without(ss: seq<SessionStats>, session: SessionStats) returns (kept: seq<SessionStats>)
    requires Distinct(ss) && session in ss
    ensures var p := Position(ss, session); kept == ss[..p] + ss[p + 1..]
    ensures session !in kept && Distinct(kept)
    ensures forall s :: s in kept <==> s in ss && s != session
  {
    ghost var p := Position(ss, session);
    kept := [];
    var i := 0;
    while i < |ss|
      invariant i <= |ss|
      invariant kept == if i <= p then ss[..i] else ss[..p] + ss[p + 1..i]
    {
      if ss[i] != session {
        kept := kept + [ss[i]];
      }
      i := i + 1;
    }
  }
}
