/** Small shared vocabulary: optional values, fallible results, rounding division. */
module Prelude {

  datatype Option<+T> = None | Some(value: T)

  datatype Result<+T, +E> = Ok(value: T) | Err(error: E)

  function Max(a: int, b: int): (m: int)
    ensures m >= a && m >= b && (m == a || m == b)
  {
    if a >= b then a else b
  }

  function Min(a: int, b: int): (m: int)
    ensures m <= a && m <= b && (m == a || m == b)
  {
    if a <= b then a else b
  }

  /** `math.ceil(a / b)` for a positive divisor. */
  function CeilDiv(a: int, b: int): (c: int)
    requires b > 0
    ensures a <= c * b < a + b
  {
    var q := (a + b - 1) / b;
    assert q * b <= a + b - 1 < q * b + b;
    q
  }

  lemma MulMonotone(a: int, b: int, k: int)
    requires a <= b && k >= 0
    ensures a * k <= b * k
  {
    assert (b - a) * k >= 0;
  }

  /** Quotients are ordered when their products are ordered to within one divisor. */
  lemma QuotientOrder(c: int, d: int, b: int)
    requires b > 0 && c * b < d * b + b
    ensures c <= d
  {
    assert (d + 1) * b == d * b + b;
    if c > d {
      MulMonotone(d + 1, c, b);
    }
  }

  /** The value that `CeilDiv` must have, from its defining inequalities. */
  lemma CeilDivUnique(a: int, b: int, c: int)
    requires b > 0 && a <= c * b < a + b
    ensures c == CeilDiv(a, b)
  {
    QuotientOrder(c, CeilDiv(a, b), b);
    QuotientOrder(CeilDiv(a, b), c, b);
  }

  lemma CeilDivMonotone(a: int, a': int, b: int)
    requires b > 0 && a <= a'
    ensures CeilDiv(a, b) <= CeilDiv(a', b)
  {
    QuotientOrder(CeilDiv(a, b), CeilDiv(a', b), b);
  }

  /** Python's `a // b` for `b != 0`: rounds toward minus infinity. */
  function FloorDiv(a: int, b: int): (q: int)
    requires b != 0
    ensures b > 0 ==> q * b <= a < q * b + b
    ensures b < 0 ==> q * b >= a > q * b + b
  {
    if b > 0 then a / b
    else
      var q := (-a) / (-b);
      assert q * (-b) <= -a < q * (-b) + (-b);
      q
  }
}
