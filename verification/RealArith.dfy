/** Elementary facts of real arithmetic that the solver wants spelled out. */
module RealArith {

  function Prod(a: real, b: real): real { a * b }

  function Quot(a: real, b: real): real
    requires b != 0.0
  {
    a / b
  }

  function Sq(e: real): real { Prod(e, e) }

  lemma ProductSign(a: real, b: real)
    ensures a > 0.0 && b > 0.0 ==> Prod(a, b) > 0.0
    ensures a < 0.0 && b < 0.0 ==> Prod(a, b) > 0.0
    ensures a >= 0.0 && b >= 0.0 ==> Prod(a, b) >= 0.0
    ensures a <= 0.0 && b >= 0.0 ==> Prod(a, b) <= 0.0
    ensures a < 0.0 && b > 0.0 ==> Prod(a, b) < 0.0
  {}

  lemma SquareSign(e: real)
    ensures Sq(e) >= 0.0
    ensures e != 0.0 ==> Sq(e) > 0.0
  {
    ProductSign(e, e);
  }

  lemma ScaledSquare(e: real, c: real)
    requires c >= 0.0
    ensures Sq(e) * c >= 0.0
    ensures e != 0.0 && c > 0.0 ==> Sq(e) * c > 0.0
  {
    SquareSign(e);
    ProductSign(Sq(e), c);
  }

  /** Multiplying an inequality by a nonnegative factor. */
  lemma MulMono(a: real, b: real, k: real)
    requires a <= b && k >= 0.0
    ensures Prod(a, k) <= Prod(b, k)
  {
    ProductSign(b - a, k);
    assert (b - a) * k == b * k - a * k;
  }

  lemma MulMonoStrict(a: real, b: real, k: real)
    requires a < b && k > 0.0
    ensures Prod(a, k) < Prod(b, k)
  {
    ProductSign(b - a, k);
    assert (b - a) * k == b * k - a * k;
  }

  lemma CancelFactor(a: real, b: real, n: real)
    requires n != 0.0 && Prod(a, n) == Prod(b, n)
    ensures a == b
  {
    assert (a - b) * n == 0.0;
  }

  lemma DivMul(a: real, b: real)
    requires b != 0.0
    ensures Prod(Quot(a, b), b) == a
  {}

  lemma UnitRatio(a: real, b: real)
    requires 0.0 <= a <= b && b > 0.0
    ensures 0.0 <= Quot(a, b) <= 1.0
  {
    QuotientBounds(a, b, 0.0);
    QuotientBounds(a, b, 1.0);
  }

  /** A quotient is at least / at most a bound exactly when the cross products are. */
  lemma QuotientBounds(a: real, b: real, k: real)
    requires b > 0.0
    ensures Quot(a, b) >= k <==> a >= Prod(k, b)
    ensures Quot(a, b) <= k <==> a <= Prod(k, b)
  {
    DivMul(a, b);
    ProductBounds(Quot(a, b), a, b, k);
  }

  lemma ProductBounds(q: real, a: real, b: real, k: real)
    requires b > 0.0 && Prod(q, b) == a
    ensures q >= k <==> a >= Prod(k, b)
    ensures q <= k <==> a <= Prod(k, b)
  {
    if q > k {
      MulMonoStrict(k, q, b);
    } else if q < k {
      MulMonoStrict(q, k, b);
    }
  }
}
