/** Facts about products and floor quotients of naturals that the solver does not find alone. */
module Arith {

  lemma MulMonotone(a: nat, b: nat, c: nat)
    requires a <= b
    ensures a * c <= b * c
  {
  }

  /** A quotient is at most any bound whose product with the divisor covers the dividend. */
  lemma DivBound(n: nat, d: nat, q: nat)
    requires d > 0 && n <= d * q
    ensures n / d <= q
  {
  }

  /** A quotient is at least any natural whose product with the divisor fits in the dividend. */
  lemma DivLowerBound(n: nat, d: nat, q: nat)
    requires d > 0 && q * d <= n
    ensures q <= n / d
  {
    var k := n / d;
    assert n == k * d + n % d;
    if k < q {
      assert (k + 1) * d == k * d + d;
      MulMonotone(k + 1, q, d);
    }
  }

  /** A product of naturals is zero exactly when a factor is. */
  lemma ProductZero(a: nat, b: nat)
    ensures a * b == 0 <==> a == 0 || b == 0
  {
    if a > 0 && b > 0 {
      MulMonotone(1, a, b);
    }
  }

  /** Dividing a multiple of `d` by `d` recovers the factor. */
  lemma WholeSupply(amount: nat, d: nat)
    requires d > 0
    ensures d * amount / d == amount
  {
    DivBound(d * amount, d, amount);
    DivLowerBound(d * amount, d, amount);
  }

  /** The floor quotient times the divisor does not exceed the dividend. */
  lemma FloorTimesDivisor(n: nat, d: nat)
    requires d > 0
    ensures (n / d) * d <= n
  {
  }

  /** Flooring each part loses at least as much as flooring the sum. */
  lemma FloorDivSuperadditive(a: nat, b: nat, d: nat)
    requires d > 0
    ensures a / d + b / d <= (a + b) / d
  {
    var qa, qb := a / d, b / d;
    assert qa * d <= a;
    assert qb * d <= b;
    assert (qa + qb) * d == qa * d + qb * d;
    DivLowerBound(a + b, d, qa + qb);
  }
}
