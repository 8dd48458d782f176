/**
 The regression over a product grid of block-rounded cells: what rounding up to
 whole blocks does to the least-squares slope.
 */
module GridFit {
  import opened RealArith
  import opened LeastSquares

  // ---------- linear algebra of the centred sums ----------

  /** The last element of a concatenation, and what comes before it. */
  lemma AppendFront(a: seq<real>, b: seq<real>)
    requires b != []
    ensures (a + b)[..|a + b| - 1] == a + b[..|b| - 1] && (a + b)[|a + b| - 1] == b[|b| - 1]
  {}

  lemma CrossLast(xs: seq<real>, ys: seq<real>, p: real, q: real)
    requires |xs| == |ys| > 0
    ensures var k := |xs| - 1;
            Cross(xs, ys, p, q) == Cross(xs[..k], ys[..k], p, q) + Prod(xs[k] - p, ys[k] - q)
  {
    hide Prod;
  }

  lemma CrossNothing(p: real, q: real)
    ensures Cross([], [], p, q) == 0.0
  {}

  lemma {:induction false} SumAppend(a: seq<real>, b: seq<real>)
    ensures Sum(a + b) == Sum(a) + Sum(b)
  {
    if b == [] {
      assert a + b == a;
    } else {
      SumAppend(a, b[..|b| - 1]);
      assert (a + b)[..|a + b| - 1] == a + b[..|b| - 1];
    }
  }

  lemma {:induction false} CrossAppend(a: seq<real>, a': seq<real>, b: seq<real>, b': seq<real>, p: real, q: real)
    requires |a| == |a'| && |b| == |b'|
    ensures Cross(a + b, a' + b', p, q) == Cross(a, a', p, q) + Cross(b, b', p, q)
  {
    hide Cross, Prod;
    if b == [] {
      CrossNothing(p, q);
      assert a + b == a && a' + b' == a';
    } else {
      var k := |b| - 1;
      CrossAppend(a, a', b[..k], b'[..k], p, q);
      AppendFront(a, b);
      AppendFront(a', b');
      CrossLast(a + b, a' + b', p, q);
      CrossLast(b, b', p, q);
    }
  }

  function Scale(t: real, xs: seq<real>): (r: seq<real>)
    ensures |r| == |xs|
  {
    if xs == [] then [] else Scale(t, xs[..|xs| - 1]) + [Prod(t, xs[|xs| - 1])]
  }

  function Plus(xs: seq<real>, ys: seq<real>): (r: seq<real>)
    requires |xs| == |ys|
    ensures |r| == |xs|
  {
    if xs == [] then [] else Plus(xs[..|xs| - 1], ys[..|ys| - 1]) + [xs[|xs| - 1] + ys[|ys| - 1]]
  }

  lemma {:induction false} SumScale(t: real, xs: seq<real>)
    ensures Sum(Scale(t, xs)) == Prod(t, Sum(xs))
  {
    if xs != [] {
      var k := |xs| - 1;
      SumScale(t, xs[..k]);
      assert Scale(t, xs)[..k] == Scale(t, xs[..k]);
      Distributes(t, Sum(xs[..k]), xs[k]);
    }
  }

  lemma Distributes(t: real, a: real, b: real)
    ensures Prod(t, a + b) == Prod(t, a) + Prod(t, b)
    ensures Prod(a + b, t) == Prod(a, t) + Prod(b, t)
  {}

  lemma {:induction false} SumPlus(xs: seq<real>, ys: seq<real>)
    requires |xs| == |ys|
    ensures Sum(Plus(xs, ys)) == Sum(xs) + Sum(ys)
  {
    if xs != [] {
      var k := |xs| - 1;
      SumPlus(xs[..k], ys[..k]);
      assert Plus(xs, ys)[..k] == Plus(xs[..k], ys[..k]);
    }
  }

  lemma ScaleLast(t: real, ys: seq<real>)
    requires ys != []
    ensures var k := |ys| - 1; Scale(t, ys)[..k] == Scale(t, ys[..k]) && Scale(t, ys)[k] == Prod(t, ys[k])
  {
    hide Prod;
  }

  lemma PlusLast(ys: seq<real>, zs: seq<real>)
    requires |ys| == |zs| > 0
    ensures var k := |ys| - 1; Plus(ys, zs)[..k] == Plus(ys[..k], zs[..k]) && Plus(ys, zs)[k] == ys[k] + zs[k]
  {}

  lemma {:induction false} CrossScale(xs: seq<real>, ys: seq<real>, t: real, p: real, q: real)
    requires |xs| == |ys|
    ensures Cross(xs, Scale(t, ys), p, Prod(t, q)) == Prod(t, Cross(xs, ys, p, q))
  {
    hide Cross, Scale, Prod;
    if xs == [] {
      CrossNothing(p, q);
      CrossNothing(p, Prod(t, q));
      Distributes(t, 0.0, 0.0);
    } else {
      var k := |xs| - 1;
      CrossScale(xs[..k], ys[..k], t, p, q);
      ScaleLast(t, ys);
      CrossLast(xs, Scale(t, ys), p, Prod(t, q));
      CrossLast(xs, ys, p, q);
      ScaleTerm(xs[k] - p, ys[k], q, t);
      Distributes(t, Cross(xs[..k], ys[..k], p, q), Prod(xs[k] - p, ys[k] - q));
    }
  }

  lemma ScaleTerm(u: real, y: real, q: real, t: real)
    ensures Prod(u, Prod(t, y) - Prod(t, q)) == Prod(t, Prod(u, y - q))
  {
    assert t * y - t * q == t * (y - q);
    assert u * (t * (y - q)) == t * (u * (y - q));
  }

  lemma {:induction false} CrossPlus(xs: seq<real>, ys: seq<real>, zs: seq<real>, p: real, q: real, r: real)
    requires |xs| == |ys| == |zs|
    ensures Cross(xs, Plus(ys, zs), p, q + r) == Cross(xs, ys, p, q) + Cross(xs, zs, p, r)
  {
    hide Cross, Plus, Prod;
    if xs == [] {
      CrossNothing(p, q);
      CrossNothing(p, r);
      CrossNothing(p, q + r);
    } else {
      var k := |xs| - 1;
      CrossPlus(xs[..k], ys[..k], zs[..k], p, q, r);
      PlusLast(ys, zs);
      CrossLast(xs, Plus(ys, zs), p, q + r);
      CrossLast(xs, ys, p, q);
      CrossLast(xs, zs, p, r);
      Distributes(xs[k] - p, ys[k] - q, zs[k] - r);
    }
  }

  lemma MeanUnique(xs: seq<real>, m: real)
    requires xs != [] && IsMean(xs, m)
    ensures m == Mean(xs)
  {
    MeanIsMean(xs);
    CancelFactor(m, Mean(xs), |xs| as real);
  }

  lemma MeanScale(t: real, xs: seq<real>)
    requires xs != []
    ensures Mean(Scale(t, xs)) == Prod(t, Mean(xs))
  {
    SumScale(t, xs);
    MeanIsMean(xs);
    var n := |xs| as real;
    assert Prod(Prod(t, Mean(xs)), n) == Prod(t, Prod(Mean(xs), n)) by {
      Assoc(t, Mean(xs), n);
    }
    MeanUnique(Scale(t, xs), Prod(t, Mean(xs)));
  }

  lemma Assoc(a: real, b: real, c: real)
    ensures Prod(Prod(a, b), c) == Prod(a, Prod(b, c))
  {}

  lemma MeanPlus(xs: seq<real>, ys: seq<real>)
    requires |xs| == |ys| > 0
    ensures Mean(Plus(xs, ys)) == Mean(xs) + Mean(ys)
  {
    SumPlus(xs, ys);
    MeanIsMean(xs);
    MeanIsMean(ys);
    Distributes(|xs| as real, Mean(xs), Mean(ys));
    MeanUnique(Plus(xs, ys), Mean(xs) + Mean(ys));
  }

  /** Variance and covariance at the means. */
  function Cov(xs: seq<real>, ys: seq<real>): real
    requires |xs| == |ys| > 0
  {
    Cross(xs, ys, Mean(xs), Mean(ys))
  }

  /**
   Bytes are `theory * (tokens + padding)`; the fitted slope is off by exactly the
   covariance of the padding with the tokens.
   */
  lemma PaddedSlope(xs: seq<real>, pads: seq<real>, theory: real)
    requires |xs| == |pads| >= 2 && Cov(xs, xs) > 0.0
    ensures var ys := Scale(theory, Plus(xs, pads));
            && Fittable(xs, ys)
            && Cov(xs, ys) == Prod(theory, Cov(xs, xs) + Cov(xs, pads))
            && Prod(Slope(xs, ys), Cov(xs, xs)) == Prod(theory, Cov(xs, xs) + Cov(xs, pads))
  {
    var zs := Plus(xs, pads);
    MeanPlus(xs, pads);
    MeanScale(theory, zs);
    CrossPlus(xs, xs, pads, Mean(xs), Mean(xs), Mean(pads));
    CrossScale(xs, zs, theory, Mean(xs), Mean(zs));
    SlopeTimesVariance(xs, Scale(theory, zs));
  }

  /**
   When the recovered slope is at least the injected one, for every set of cells:
   exactly when the padding does not fall as the token counts rise.
   */
  lemma SlopeAtLeastTheoryIff(xs: seq<real>, pads: seq<real>, theory: real)
    requires |xs| == |pads| >= 2 && Cov(xs, xs) > 0.0 && theory > 0.0
    ensures Fittable(xs, Scale(theory, Plus(xs, pads)))
    ensures Slope(xs, Scale(theory, Plus(xs, pads))) >= theory <==> Cov(xs, pads) >= 0.0
  {
    hide Cov, Slope, Scale, Plus;
    PaddedSlope(xs, pads, theory);
    var m, v, w := Slope(xs, Scale(theory, Plus(xs, pads))), Cov(xs, xs), Cov(xs, pads);
    SignOfExcess(m, theory, v, w);
  }

  lemma SignOfExcess(m: real, t: real, v: real, w: real)
    requires v > 0.0 && t > 0.0 && Prod(m, v) == Prod(t, v + w)
    ensures m >= t <==> w >= 0.0
  {
    Distributes(t, v, w);
    ProductSign(t, w);
    ProductSign(t, -w);
    assert Prod(t, -w) == -Prod(t, w);
    ProductBounds(m, Prod(m, v), v, t);
  }

  // ---------- product grids ----------

  function Ones(n: nat): (r: seq<real>)
    ensures |r| == n && forall i :: 0 <= i < n ==> r[i] == 1.0
  {
    seq(n, _ => 1.0)
  }

  /** `l * b` for every length, for every batch size, in nested-loop order. */
  function GridProduct(ls: seq<real>, bs: seq<real>): seq<real> {
    if ls == [] then [] else GridProduct(ls[..|ls| - 1], bs) + Scale(ls[|ls| - 1], bs)
  }

  /** Sum of products about zero. */
  function Dot(xs: seq<real>, ys: seq<real>): real
    requires |xs| == |ys|
  {
    Cross(xs, ys, 0.0, 0.0)
  }

  lemma {:induction false} GridLength(ls: seq<real>, bs: seq<real>)
    ensures |GridProduct(ls, bs)| == |ls| * |bs|
  {
    if ls != [] {
      GridLength(ls[..|ls| - 1], bs);
      assert |ls| * |bs| == (|ls| - 1) * |bs| + |bs|;
    }
  }

  lemma {:induction false} GridSum(ls: seq<real>, bs: seq<real>)
    ensures Sum(GridProduct(ls, bs)) == Prod(Sum(ls), Sum(bs))
  {
    if ls != [] {
      var k := |ls| - 1;
      GridSum(ls[..k], bs);
      SumAppend(GridProduct(ls[..k], bs), Scale(ls[k], bs));
      SumScale(ls[k], bs);
      Distributes(Sum(bs), Sum(ls[..k]), ls[k]);
    }
  }

  lemma {:induction false} DotScale(s: real, t: real, bs: seq<real>)
    ensures Dot(Scale(s, bs), Scale(t, bs)) == Prod(Prod(s, t), Dot(bs, bs))
  {
    if bs != [] {
      var k := |bs| - 1;
      DotScale(s, t, bs[..k]);
      assert Scale(s, bs)[..k] == Scale(s, bs[..k]) && Scale(t, bs)[..k] == Scale(t, bs[..k]);
      FourFactors(s, t, bs[k], bs[k]);
      Distributes(Prod(s, t), Dot(bs[..k], bs[..k]), Prod(bs[k] - 0.0, bs[k] - 0.0));
    }
  }

  lemma FourFactors(s: real, t: real, a: real, b: real)
    ensures Prod(Prod(s, a) - 0.0, Prod(t, b) - 0.0) == Prod(Prod(s, t), Prod(a - 0.0, b - 0.0))
  {
    assert (s * a) * (t * b) == (s * t) * (a * b);
  }

  lemma GridProductLast(ls: seq<real>, bs: seq<real>)
    requires ls != []
    ensures var k := |ls| - 1; GridProduct(ls, bs) == GridProduct(ls[..k], bs) + Scale(ls[k], bs)
  {
    hide Scale;
  }

  lemma NothingCrossed()
    ensures Dot([], []) == 0.0
  {}

  lemma ZeroTimes(x: real)
    ensures Prod(0.0, x) == 0.0
  {}

  lemma {:induction false} GridDot(ls: seq<real>, ks: seq<real>, bs: seq<real>)
    requires |ls| == |ks|
    ensures |GridProduct(ls, bs)| == |GridProduct(ks, bs)|
    ensures Dot(GridProduct(ls, bs), GridProduct(ks, bs)) == Prod(Dot(ls, ks), Dot(bs, bs))
  {
    hide Prod, Scale, Cross, GridProduct;
    GridLength(ls, bs);
    GridLength(ks, bs);
    if ls == [] {
      NothingCrossed();
      ZeroTimes(Dot(bs, bs));
    } else {
      var k := |ls| - 1;
      GridDot(ls[..k], ks[..k], bs);
      GridProductLast(ls, bs);
      GridProductLast(ks, bs);
      CrossLast(ls, ks, 0.0, 0.0);
      CrossAppend(GridProduct(ls[..k], bs), GridProduct(ks[..k], bs), Scale(ls[k], bs), Scale(ks[k], bs), 0.0, 0.0);
      DotScale(ls[k], ks[k], bs);
      Distributes(Dot(bs, bs), Dot(ls[..k], ks[..k]), Prod(ls[k] - 0.0, ks[k] - 0.0));
    }
  }

  lemma {:induction false} DotOnes(ls: seq<real>)
    ensures Dot(ls, Ones(|ls|)) == Sum(ls) && Sum(Ones(|ls|)) == |ls| as real
    ensures Dot(Ones(|ls|), Ones(|ls|)) == |ls| as real
  {
    if ls != [] {
      var k := |ls| - 1;
      DotOnes(ls[..k]);
      assert Ones(|ls|)[..k] == Ones(k);
    }
  }

  lemma {:induction false} CrossMoment(xs: seq<real>, ys: seq<real>, p: real, q: real)
    requires |xs| == |ys|
    ensures Cross(xs, ys, p, q) == Dot(xs, ys) - Prod(p, Sum(ys)) - Prod(q, Moment(xs, p))
  {
    if xs != [] {
      var k := |xs| - 1;
      CrossMoment(xs[..k], ys[..k], p, q);
      Distributes(p, Sum(ys[..k]), ys[k]);
      Distributes(q, Moment(xs[..k], p), xs[k] - p);
      CentreTerm(xs[k], ys[k], p, q);
    }
  }

  lemma CentreTerm(x: real, y: real, p: real, q: real)
    ensures Prod(x - p, y - q) == Prod(x - 0.0, y - 0.0) - Prod(p, y) - Prod(q, x - p)
  {}

  /** The covariance in raw sums. */
  lemma CovRaw(xs: seq<real>, ys: seq<real>)
    requires |xs| == |ys| > 0
    ensures var n := |xs| as real;
            Prod(Cov(xs, ys), n) == Prod(Dot(xs, ys), n) - Prod(Sum(xs), Sum(ys))
  {
    var n, m := |xs| as real, Mean(xs);
    CrossMoment(xs, ys, m, Mean(ys));
    MeanIsMean(xs);
    MomentSum(xs, m);
    RawAlgebra(Cov(xs, ys), Dot(xs, ys), m, Sum(xs), Sum(ys), n, Mean(ys));
  }

  lemma RawAlgebra(c: real, d: real, m: real, sx: real, sy: real, n: real, q: real)
    requires c == d - Prod(m, sy) - Prod(q, 0.0) && Prod(m, n) == sx
    ensures Prod(c, n) == Prod(d, n) - Prod(sx, sy)
  {
    assert c == d - m * sy;
    assert (m * sy) * n == (m * n) * sy;
  }

  /** Cauchy's inequality: `n * sum(x^2) - sum(x)^2 >= 0`. */
  lemma SpreadNonneg(xs: seq<real>)
    requires xs != []
    ensures Prod(Dot(xs, xs), |xs| as real) - Sq(Sum(xs)) >= 0.0
  {
    CovRaw(xs, xs);
    CrossSquareNonneg(xs, Mean(xs));
    ProductSign(Cov(xs, xs), |xs| as real);
  }

  lemma {:induction false} SumAtLeast(ls: seq<real>, low: real)
    requires forall i :: 0 <= i < |ls| ==> ls[i] >= low
    ensures Sum(ls) >= Prod(low, |ls| as real)
  {
    if ls != [] {
      SumAtLeast(ls[..|ls| - 1], low);
      OneMore(low, (|ls| - 1) as real);
      assert (|ls| as real) == ((|ls| - 1) as real) + 1.0;
    }
  }

  /** Tokens co-vary with batch size, and at most `1 / shortest` as strongly as with themselves. */
  lemma GridCovariance(ls: seq<real>, bs: seq<real>, low: real)
    requires ls != [] && bs != [] && low > 0.0
    requires forall i :: 0 <= i < |ls| ==> ls[i] >= low
    ensures var xs, es := GridProduct(ls, bs), GridProduct(Ones(|ls|), bs);
            |xs| == |es| > 0 && Cov(xs, es) >= 0.0 && Prod(low, Cov(xs, es)) <= Cov(xs, xs)
  {
    hide Cov, Dot, Sum, GridProduct, Ones, Sq, Prod;
    var os := Ones(|ls|);
    var xs, es := GridProduct(ls, bs), GridProduct(os, bs);
    GridLength(ls, bs);
    GridLength(os, bs);
    SizePositive(|ls|, |bs|);
    CovRaw(xs, es);
    CovRaw(xs, xs);
    GridSum(ls, bs);
    GridSum(os, bs);
    GridDot(ls, os, bs);
    GridDot(ls, ls, bs);
    DotOnes(ls);
    SpreadNonneg(ls);
    SpreadNonneg(bs);
    SumAtLeast(ls, low);
    DotNonneg(bs);
    CovarianceAlgebra(|ls| as real, |bs| as real, |xs| as real, Sum(ls), Dot(ls, ls), Sum(bs), Dot(bs, bs), low,
                      Cov(xs, es), Cov(xs, xs));
  }

  lemma DotNonneg(xs: seq<real>)
    ensures Dot(xs, xs) >= 0.0
  {
    CrossSquareNonneg(xs, 0.0);
  }

  lemma SizePositive(m: nat, k: nat)
    requires m > 0 && k > 0
    ensures m * k > 0 && (m * k) as real == Prod(m as real, k as real)
  {}

  lemma CovarianceAlgebra(m: real, k: real, n: real, sl: real, sl2: real, sb: real, sb2: real, low: real,
                          cxb: real, cxx: real)
    requires m > 0.0 && k > 0.0 && n > 0.0 && n == Prod(m, k) && low > 0.0
    requires Prod(cxb, n) == Prod(Prod(sl, sb2), n) - Prod(Prod(sl, sb), Prod(m, sb))
    requires Prod(cxx, n) == Prod(Prod(sl2, sb2), n) - Prod(Prod(sl, sb), Prod(sl, sb))
    requires Prod(sl2, m) - Sq(sl) >= 0.0 && Prod(sb2, k) - Sq(sb) >= 0.0 && sb2 >= 0.0
    requires sl >= Prod(low, m)
    ensures cxb >= 0.0 && Prod(low, cxb) <= cxx
  {
    var v, w := sb2 * k - sb * sb, sl2 * m - sl * sl;
    var msl := m * sl;
    assert cxb * n == msl * v by {
      assert (sl * sb2) * (m * k) == msl * (sb2 * k);
      assert (sl * sb) * (m * sb) == msl * (sb * sb);
      assert msl * v == msl * (sb2 * k) - msl * (sb * sb);
    }
    assert cxx * n == (sb2 * k) * w + (sl * sl) * v by {
      assert (sl2 * sb2) * (m * k) == (sb2 * k) * (sl2 * m);
      assert (sl * sb) * (sl * sb) == (sl * sl) * (sb * sb);
      assert (sb2 * k) * w == (sb2 * k) * (sl2 * m) - (sb2 * k) * (sl * sl);
      assert (sl * sl) * v == (sl * sl) * (sb2 * k) - (sl * sl) * (sb * sb);
    }
    CovarianceSigns(m, k, n, sl, sb2, low, v, w, msl, cxb, cxx);
  }

  lemma CovarianceSigns(m: real, k: real, n: real, sl: real, sb2: real, low: real, v: real, w: real, msl: real,
                        cxb: real, cxx: real)
    requires m > 0.0 && k > 0.0 && n > 0.0 && low > 0.0 && v >= 0.0 && w >= 0.0 && sb2 >= 0.0
    requires msl == m * sl && sl >= Prod(low, m)
    requires cxb * n == msl * v && cxx * n == (sb2 * k) * w + (sl * sl) * v
    ensures cxb >= 0.0 && Prod(low, cxb) <= cxx
  {
    ProductSign(low, m);
    ProductSign(m, sl);
    ProductSign(msl, v);
    ProductBounds(cxb, Prod(cxb, n), n, 0.0);
    ProductSign(sb2, k);
    ProductSign(Prod(sb2, k), w);
    MulMono(Prod(low, m), sl, Prod(sl, v));
    ProductSign(sl, v);
    assert sl * (sl * v) == (sl * sl) * v;
    assert (low * m) * (sl * v) == low * (msl * v);
    assert (low * cxb) * n == low * (cxb * n);
    ProductBounds(Prod(low, cxb), Prod(Prod(low, cxb), n), n, cxx);
  }

  lemma CovScale(xs: seq<real>, ys: seq<real>, t: real)
    requires |xs| == |ys| > 0
    ensures Cov(xs, Scale(t, ys)) == Prod(t, Cov(xs, ys))
  {
    MeanScale(t, ys);
    CrossScale(xs, ys, t, Mean(xs), Mean(ys));
  }

  // ---------- the grid theorem ----------

  /**
   Every cell of a product grid rounded up by the same `pad` tokens per request:
   the fitted slope is at least the theory, and at most one pad per shortest
   request above it.
   */
  lemma CongruentGridSlope(ls: seq<real>, bs: seq<real>, pad: real, low: real, theory: real)
    requires ls != [] && bs != [] && |GridProduct(ls, bs)| >= 2
    requires forall i :: 0 <= i < |ls| ==> ls[i] >= low
    requires low > 0.0 && pad >= 0.0 && theory > 0.0
    requires Cov(GridProduct(ls, bs), GridProduct(ls, bs)) > 0.0
    ensures |GridProduct(Ones(|ls|), bs)| == |GridProduct(ls, bs)|
    ensures var xs := GridProduct(ls, bs);
            var ys := Scale(theory, Plus(xs, Scale(pad, GridProduct(Ones(|ls|), bs))));
            && Fittable(xs, ys)
            && theory <= Slope(xs, ys) <= theory + Prod(theory, Quot(pad, low))
  {
    hide Cov, Slope, Scale, Plus, GridProduct, Ones, Fittable, Prod, Quot;
    var xs, es := GridProduct(ls, bs), GridProduct(Ones(|ls|), bs);
    GridCovariance(ls, bs, low);
    var pads := Scale(pad, es);
    CovScale(xs, es, pad);
    PaddedSlope(xs, pads, theory);
    var m := Slope(xs, Scale(theory, Plus(xs, pads)));
    DivMul(pad, low);
    SlopeRange(m, theory, Cov(xs, xs), Cov(xs, es), pad, low, Quot(pad, low));
  }

  lemma SlopeRange(m: real, t: real, v: real, w: real, pad: real, low: real, q: real)
    requires v > 0.0 && w >= 0.0 && t > 0.0 && pad >= 0.0 && low > 0.0
    requires Prod(low, w) <= v && Prod(q, low) == pad
    requires Prod(m, v) == Prod(t, v + Prod(pad, w))
    ensures t <= m <= t + Prod(t, q)
  {
    ProductSign(pad, w);
    MulMono(v, v + Prod(pad, w), t);
    ProductBounds(m, Prod(m, v), v, t);
    ProductSign(q, low);
    MulMono(Prod(low, w), v, q);
    assert pad * w == (low * w) * q;
    MulMono(v + Prod(pad, w), v + Prod(v, q), t);
    assert (v + v * q) * t == (t + t * q) * v;
    ProductBounds(m, Prod(m, v), v, t + Prod(t, q));
  }
}
