/** Facts about products and quotients that the solver does not find by itself. */
module Arithmetic {

  lemma IntScaled(x: int, y: int, b: int)
    requires b > 0
    ensures x < y ==> (x + 1) * b <= y * b
  {
    if x < y {
      assert (y - x - 1) * b >= 0;
    }
  }

  /** The quotient is determined by the interval the dividend lies in. */
  lemma IntQuotient(a: int, b: int, q: int)
    requires b > 0 && q * b <= a < (q + 1) * b
    ensures a / b == q
  {
    var d, r := a / b, a % b;
    assert a == d * b + r && 0 <= r < b;
    IntScaled(d, q, b);
    IntScaled(q, d, b);
    assert (d + 1) * b == d * b + b;
  }

  lemma RealScaled(x: real, y: real, n: real)
    requires n > 0.0
    ensures x <= y ==> x * n <= y * n
    ensures x < y ==> x * n < y * n
  {
    if x < y {
      assert (y - x) * n > 0.0;
    }
  }

  lemma RealQuotient(a: real, b: real, n: real)
    requires b > 0.0
    ensures n * b <= a <==> n <= a / b
    ensures a <= n * b <==> a / b <= n
  {
    assert (a / b) * b == a;
    RealScaled(n, a / b, b);
    RealScaled(a / b, n, b);
  }
}
