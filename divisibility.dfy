/**
 * Facts about multiplication and remainders that the prime proofs rely on,
 * each stated over as few terms as possible.
 */
module Divisibility {

  /** A multiple of k leaves no remainder on division by k. */
  lemma MultipleMod(k: int, m: int)
    requires k > 0
    ensures (k * m) % k == 0
  {
    var t := m - (k * m) / k;
    assert k * t == (k * m) % k;
  }

  /** A remainder of zero means the quotient times the divisor gives back the number. */
  lemma QuotientExact(n: int, k: int)
    requires k > 0 && n % k == 0
    ensures n == k * (n / k)
  {
  }

  /** Multiplication by a non-negative number preserves order. */
  lemma MulMonotone(a: int, b: int, c: int)
    requires a <= b && c >= 0
    ensures a * c <= b * c
  {
  }

  /** If m divides d and d divides n, then m divides n. */
  lemma DividesTransitive(m: int, d: int, n: int)
    requires m > 0 && d > 0
    requires d % m == 0 && n % d == 0
    ensures n % m == 0
  {
    var a := n / d;
    var b := d / m;
    QuotientExact(n, d);
    QuotientExact(d, m);
    calc {
      n;
      d * a;
      (m * b) * a;
      m * (b * a);
    }
    MultipleMod(m, b * a);
  }

  /** If d divides n, so does n / d: the cofactor of a divisor is a divisor. */
  lemma CofactorDivides(n: int, d: int)
    requires n > 0 && d > 0 && n % d == 0
    ensures n / d > 0 && n % (n / d) == 0
  {
    var c := n / d;
    QuotientExact(n, d);
    assert n == c * d;
    if c <= 0 {
      MulMonotone(c, 0, d);
    }
    MultipleMod(c, d);
  }
}
