/**
 * Facts about Euclidean division on naturals that the timing code needs.
 */
module Arith {
  /** A positive multiple of `d` is at least `d`. */
  lemma MulAtLeast(k: int, d: nat)
    requires k >= 1
    ensures k * d >= d
  {
    assert k * d == (k - 1) * d + d;
  }

  /** Quotient and remainder are the unique pair with `m == q * d + r` and
      `0 <= r < d`. */
  lemma DivUnique(m: nat, d: nat, q: nat, r: nat)
    requires 0 <= r < d && m == q * d + r
    ensures m / d == q && m % d == r
  {
    var q', r' := m / d, m % d;
    assert m == q' * d + r';
    if q' < q {
      assert (q - q') * d == r' - r;
      MulAtLeast(q - q', d);
    } else if q' > q {
      assert (q' - q) * d == r - r';
      MulAtLeast(q' - q, d);
    }
  }

  /** Adding the divisor does not change the remainder. */
  lemma ModAddDivisor(n: nat, d: nat)
    requires d > 0
    ensures (n + d) % d == n % d
  {
    var q, r := n / d, n % d;
    assert n + d == (q + 1) * d + r;
    DivUnique(n + d, d, q + 1, r);
  }
}
