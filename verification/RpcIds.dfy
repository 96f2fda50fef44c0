/**
  Message ids: draws from a wrapping 32-bit counter, of which two values are meant to be
  skipped. The redraw is a single `if`, so drawing 0xFFFFFFFF yields 0.
*/
module RpcIds {
  import opened Words
  import opened Frames
  import opened Modular

  function Bump(n: U32): U32 {
    if n == TWO_32 - 1 then 0 else n + 1
  }

  predicate Reserved(id: U32) { id == NO_MESSAGE_ID || id == RESERVED_ID_MAX }

  /** What one round of drawing yields when the counter is n and nobody else draws. */
  function Candidate(n: U32): U32 {
    if Reserved(n) then Bump(n) else n
  }

  /** The k-th candidate of an undisturbed search. */
  function CandidateAt(n: U32, k: nat): (id: U32)
    decreases k, n
  {
    if k == 0 then Candidate(n) else CandidateAt(Bump(Candidate(n)), k - 1)
  }

  lemma {:induction false} CandidateSucc(n: U32, k: nat)
    ensures CandidateAt(n, k + 1) == Candidate(Bump(CandidateAt(n, k)))
    decreases k
  {
    if k > 0 {
      CandidateSucc(Bump(Candidate(n)), k - 1);
    }
  }

  /** Candidates run through all values but the last one, in a circle. */
  lemma {:induction false} CandidatesCount(n: U32, k: nat)
    ensures CandidateAt(n, k) == (Candidate(n) + k) % (TWO_32 - 1)
    decreases k
  {
    var m: nat := TWO_32 - 1;
    if k == 0 {
      ModUnique(Candidate(n), m, 0, Candidate(n));
    } else {
      CandidatesCount(n, k - 1);
      CandidateSucc(n, k - 1);
      var x: nat := Candidate(n) + (k - 1);
      ModStep(x, 1, m);
    }
  }

  /** No candidate repeats within one turn of that circle. */
  lemma CandidatesDistinct(n: U32, i: nat, j: nat)
    requires i < j < i + TWO_32 - 1
    ensures CandidateAt(n, i) != CandidateAt(n, j)
  {
    CandidatesCount(n, i);
    CandidatesCount(n, j);
    ModDistinct(Candidate(n) + i, Candidate(n) + j, TWO_32 - 1);
  }

  /** A candidate is never the upper reserved id, and is 0 exactly when the upper one was drawn for it. */
  lemma CandidateRange(n: U32, k: nat)
    ensures CandidateAt(n, k) != RESERVED_ID_MAX
    ensures CandidateAt(n, k) == NO_MESSAGE_ID <==>
              (if k == 0 then n else Bump(CandidateAt(n, k - 1))) == RESERVED_ID_MAX
  {
    if k > 0 {
      CandidateSucc(n, k - 1);
    }
  }

  /** From a fresh counter the first 2^32 - 2 candidates are the non-reserved ids, in order. */
  lemma FirstTurnIsFresh(k: nat)
    requires k < TWO_32 - 2
    ensures CandidateAt(1, k) == k + 1 && !Reserved(CandidateAt(1, k))
  {
    CandidatesCount(1, k);
    ModUnique(k + 1, TWO_32 - 1, 0, k + 1);
  }

  /** The candidate after them is the reserved id 0. */
  lemma FirstTurnEndsAtZero()
    ensures CandidateAt(1, TWO_32 - 2) == NO_MESSAGE_ID
  {
    CandidatesCount(1, TWO_32 - 2);
    ModUnique(TWO_32 - 1, TWO_32 - 1, 1, 0);
  }

  // ---------------------------------------------------------------------------------------
  // Single draws, numbered over all threads
  // ---------------------------------------------------------------------------------------

  /** The value of the d-th draw from a counter that started at 1. */
  function DrawnAt(d: nat): (id: U32) {
    (1 + d) % TWO_32
  }

  lemma DrawnAtSucc(d: nat)
    ensures DrawnAt(d + 1) == Bump(DrawnAt(d))
  {
    ModStep(1 + d, 1, TWO_32);
  }

  lemma DrawnAtStart()
    ensures DrawnAt(0) == 1
  {
    ModUnique(1, TWO_32, 0, 1);
  }

  /** Equal ids come from the same draw or from draws at least a whole turn apart. */
  lemma SameIdApart(d: nat, e: nat)
    requires DrawnAt(d) == DrawnAt(e) && d < e
    ensures d + TWO_32 <= e
  {
    if e < d + TWO_32 {
      ModDistinct(1 + d, 1 + e, TWO_32);
    }
  }

  // ---------------------------------------------------------------------------------------
  // How long a search can last
  // ---------------------------------------------------------------------------------------

  function CandidatesUpTo(n: U32, k: nat): (ids: set<U32>) {
    set j | 0 <= j < k :: CandidateAt(n, j)
  }

  lemma {:induction false} CandidatesUpToSize(n: U32, k: nat)
    requires k <= TWO_32 - 1
    ensures |CandidatesUpTo(n, k)| == k
    decreases k
  {
    if k > 0 {
      CandidatesUpToSize(n, k - 1);
      forall j | 0 <= j < k - 1 ensures CandidateAt(n, j) != CandidateAt(n, k - 1) {
        CandidatesDistinct(n, j, k - 1);
      }
      assert CandidatesUpTo(n, k) == CandidatesUpTo(n, k - 1) + {CandidateAt(n, k - 1)};
    }
  }

  lemma SubsetSize<T>(a: set<T>, b: set<T>)
    requires a <= b
    ensures |a| <= |b|
  {
    assert b == a + (b - a);
  }

  /** A search that keeps hitting live ids has seen as many of them as it has made tries. */
  lemma TriesBounded(n: U32, k: nat, used: set<U32>)
    requires |used| < TWO_32 - 1
    requires forall j :: 0 <= j < k ==> CandidateAt(n, j) in used
    ensures k <= |used|
  {
    if k > |used| {
      var m := |used| + 1;
      CandidatesUpToSize(n, m);
      assert CandidatesUpTo(n, m) <= used;
      SubsetSize(CandidatesUpTo(n, m), used);
    }
  }
}
