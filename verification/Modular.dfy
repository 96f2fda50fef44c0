/** Remainders: the few facts about positions in a ring that the proofs use. */
module Modular {
  lemma MulAtLeast(m: int, d: int)
    requires m > 0 && d >= 1
    ensures m * d >= m
  {}

  lemma ModUnique(x: int, m: int, q: int, r: int)
    requires m > 0 && x == m * q + r && 0 <= r < m
    ensures x % m == r
  {
    var q', r' := x / m, x % m;
    assert x == m * q' + r';
    assert m * (q - q') == r' - r by {
      assert m * (q - q') == m * q - m * q';
    }
    if q - q' >= 1 {
      MulAtLeast(m, q - q');
    } else if q' - q >= 1 {
      MulAtLeast(m, q' - q);
    }
  }

  /** Moving on by n at most a lap. */
  lemma ModStep(x: nat, n: nat, m: nat)
    requires m > 0 && n <= m
    ensures (x + n) % m == if x % m + n < m then x % m + n else x % m + n - m
  {
    var q, r := x / m, x % m;
    assert x == m * q + r;
    if r + n < m {
      ModUnique(x + n, m, q, r + n);
    } else {
      assert m * (q + 1) == m * q + m;
      ModUnique(x + n, m, q + 1, r + n - m);
    }
  }

  /** Two positions less than a lap apart never share a slot. */
  lemma ModDistinct(i: nat, j: nat, m: nat)
    requires m > 0 && i < j < i + m
    ensures i % m != j % m
  {
    ModStep(i, j - i, m);
  }

  /** Reducing by a multiple of m first does not change the remainder. */
  lemma ModOfMultiple(x: nat, n: nat, m: nat)
    requires m > 0 && n > 0 && n % m == 0
    ensures (x % n) % m == x % m
  {
    var k := n / m;
    assert n == m * k;
    var q, r := x / n, x % n;
    var q2, r2 := r / m, r % m;
    assert x == n * q + r && r == m * q2 + r2;
    assert n * q == m * (k * q) by {
      assert (m * k) * q == m * (k * q);
    }
    assert m * (k * q) + m * q2 == m * (k * q + q2);
    ModUnique(x, m, k * q + q2, r2);
  }

  /** Only multiples of m can be added without changing the remainder. */
  lemma ModAddSame(x: nat, y: nat, m: nat)
    requires m > 0 && (x + y) % m == x % m
    ensures y % m == 0
  {
    var q, q' := x / m, (x + y) / m;
    var r := x % m;
    assert x == m * q + r && x + y == m * q' + r;
    assert y == m * (q' - q) + 0 by {
      assert m * (q' - q) == m * q' - m * q;
    }
    ModUnique(y, m, q' - q, 0);
  }
}
