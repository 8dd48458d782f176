/** The least-squares fit of bench/kv_scaling/measure.py over exact reals. */
module LeastSquares {
  import opened Prelude
  import opened RealArith

  function Sum(xs: seq<real>): real {
    if xs == [] then 0.0 else Sum(xs[..|xs| - 1]) + xs[|xs| - 1]
  }

  /** `sum((x - p) * (y - q) for x, y in zip(xs, ys))`. */
  function Cross(xs: seq<real>, ys: seq<real>, p: real, q: real): real
    requires |xs| == |ys|
  {
    if xs == [] then 0.0
    else
      var k := |xs| - 1;
      Cross(xs[..k], ys[..k], p, q) + Prod(xs[k] - p, ys[k] - q)
  }

  function Residual(x: real, y: real, a: real, b: real): real {
    y - (a * x + b)
  }

  /** Squared error of the line `y = a * x + b`. */
  function SquaredError(xs: seq<real>, ys: seq<real>, a: real, b: real): real
    requires |xs| == |ys|
  {
    if xs == [] then 0.0
    else
      var k := |xs| - 1;
      SquaredError(xs[..k], ys[..k], a, b) + Sq(Residual(xs[k], ys[k], a, b))
  }

  function Mean(xs: seq<real>): real
    requires xs != []
  {
    Quot(Sum(xs), |xs| as real)
  }

  /** `residualVariance` is the square of the source's `residual_se`. */
  datatype RegressionFit = RegressionFit(slope: real, intercept: real, r2: real, residualVariance: real)

  datatype FitError = LengthMismatch | TooFewPoints | ZeroVariance | InvalidFit

  /** The `RegressionFit` field constraints of the schema. */
  predicate ValidFit(f: RegressionFit) {
    f.slope >= 0.0 && 0.0 <= f.r2 <= 1.0 && f.residualVariance >= 0.0
  }

  /** Two or more points whose x values vary. */
  predicate Fittable(xs: seq<real>, ys: seq<real>) {
    |xs| == |ys| >= 2 && Cross(xs, xs, Mean(xs), Mean(xs)) != 0.0
  }

  function Slope(xs: seq<real>, ys: seq<real>): real
    requires Fittable(xs, ys)
  {
    Quot(Cross(xs, ys, Mean(xs), Mean(ys)), Cross(xs, xs, Mean(xs), Mean(xs)))
  }

  function RSquared(sse: real, sst: real): real {
    if sst > 0.0 then 1.0 - Quot(sse, sst) else 0.0
  }

  function ResidualVariance(sse: real, n: nat): real {
    if n > 2 then Quot(sse, (n - 2) as real) else 0.0
  }

  /** The fit before the schema looks at it. */
  function RawFit(xs: seq<real>, ys: seq<real>): RegressionFit
    requires Fittable(xs, ys)
  {
    var slope := Slope(xs, ys);
    var intercept := Mean(ys) - Prod(slope, Mean(xs));
    var sse := SquaredError(xs, ys, slope, intercept);
    RegressionFit(slope, intercept, RSquared(sse, Cross(ys, ys, Mean(ys), Mean(ys))), ResidualVariance(sse, |xs|))
  }

  function Fit(xs: seq<real>, ys: seq<real>): Result<RegressionFit, FitError> {
    if |xs| != |ys| then Err(LengthMismatch)
    else if |xs| < 2 then Err(TooFewPoints)
    else if Cross(xs, xs, Mean(xs), Mean(xs)) == 0.0 then Err(ZeroVariance)
    else
      var f := RawFit(xs, ys);
      if ValidFit(f) then Ok(f) else Err(InvalidFit)
  }

  // ---------- algebra of the centred sums ----------

  /** `m` is the mean of `xs`, stated without the division. */
  ghost predicate IsMean(xs: seq<real>, m: real) {
    Prod(m, |xs| as real) == Sum(xs)
  }

  lemma MeanIsMean(xs: seq<real>)
    requires xs != []
    ensures IsMean(xs, Mean(xs))
  {
    DivMul(Sum(xs), |xs| as real);
  }

  /** First moment about `p`; it vanishes at the mean. */
  function Moment(xs: seq<real>, p: real): real {
    if xs == [] then 0.0 else Moment(xs[..|xs| - 1], p) + (xs[|xs| - 1] - p)
  }

  lemma {:induction false} MomentSum(xs: seq<real>, p: real)
    ensures Moment(xs, p) == Sum(xs) - Prod(p, |xs| as real)
  {
    if xs != [] {
      var k := |xs| - 1;
      MomentSum(xs[..k], p);
      OneMore(p, k as real);
      assert (|xs| as real) == (k as real) + 1.0;
    }
  }

  lemma OneMore(p: real, n: real)
    ensures Prod(p, n + 1.0) == Prod(p, n) + p
  {}

  /** Squared error from centred sums: `s`, `t` are the first moments of x and y. */
  function Around(a: real, d: real, cxx: real, cxy: real, cyy: real, s: real, t: real, n: real): real {
    cyy - 2.0 * a * cxy + a * a * cxx + 2.0 * d * (t - a * s) + d * d * n
  }

  /** One point's share of `Around`. */
  function AroundTerm(a: real, d: real, u: real, v: real): real {
    Prod(v, v) - 2.0 * a * Prod(u, v) + a * a * Prod(u, u) + 2.0 * d * (v - a * u) + d * d
  }

  lemma AroundStep(a: real, d: real, cxx: real, cxy: real, cyy: real, s: real, t: real, n: real, u: real, v: real)
    ensures Around(a, d, cxx + Prod(u, u), cxy + Prod(u, v), cyy + Prod(v, v), s + u, t + v, n + 1.0)
         == Around(a, d, cxx, cxy, cyy, s, t, n) + AroundTerm(a, d, u, v)
  {
    var uu, uv, vv := Prod(u, u), Prod(u, v), Prod(v, v);
    assert (t + v) - a * (s + u) == (t - a * s) + (v - a * u);
    assert 2.0 * d * ((t - a * s) + (v - a * u)) == 2.0 * d * (t - a * s) + 2.0 * d * (v - a * u);
    assert a * a * (cxx + uu) == a * a * cxx + a * a * uu;
    assert 2.0 * a * (cxy + uv) == 2.0 * a * cxy + 2.0 * a * uv;
    assert d * d * (n + 1.0) == d * d * n + d * d;
  }

  lemma ResidualTerm(x: real, y: real, a: real, b: real, p: real, q: real)
    ensures Sq(Residual(x, y, a, b)) == AroundTerm(a, q - a * p - b, x - p, y - q)
  {
    var d, u, v := q - a * p - b, x - p, y - q;
    assert a * x == a * u + a * p;
    var w := v - a * u;
    assert Residual(x, y, a, b) == w + d;
    assert (w + d) * (w + d) == w * w + 2.0 * d * w + d * d;
    assert w * w == v * v - 2.0 * (a * u) * v + (a * u) * (a * u);
    assert (a * u) * v == a * (u * v) && (a * u) * (a * u) == a * a * (u * u);
  }

  /** Squared error of any line, around any centre (p, q). */
  lemma {:induction false} SquaredErrorAround(xs: seq<real>, ys: seq<real>, a: real, b: real, p: real, q: real)
    requires |xs| == |ys|
    ensures SquaredError(xs, ys, a, b)
         == Around(a, q - a * p - b, Cross(xs, xs, p, p), Cross(xs, ys, p, q), Cross(ys, ys, q, q),
                   Moment(xs, p), Moment(ys, q), |xs| as real)
  {
    if xs != [] {
      var k := |xs| - 1;
      var x, y, hx, hy := xs[k], ys[k], xs[..k], ys[..k];
      SquaredErrorAround(hx, hy, a, b, p, q);
      ResidualTerm(x, y, a, b, p, q);
      AroundStep(a, q - a * p - b, Cross(hx, hx, p, p), Cross(hx, hy, p, q), Cross(hy, hy, q, q),
                 Moment(hx, p), Moment(hy, q), k as real, x - p, y - q);
      assert (|xs| as real) == (k as real) + 1.0;
    }
  }

  /** Squared error of any line in terms of the centred sums the fit computes. */
  lemma SquaredErrorCentred(xs: seq<real>, ys: seq<real>, mx: real, my: real, a: real, b: real, d: real)
    requires |xs| == |ys| && IsMean(xs, mx) && IsMean(ys, my) && d == my - Prod(a, mx) - b
    ensures SquaredError(xs, ys, a, b)
         == Around(a, d, Cross(xs, xs, mx, mx), Cross(xs, ys, mx, my), Cross(ys, ys, my, my),
                   0.0, 0.0, |xs| as real)
  {
    assert d == my - a * mx - b;
    SquaredErrorAround(xs, ys, a, b, mx, my);
    MomentSum(xs, mx);
    MomentSum(ys, my);
  }

  lemma {:induction false} CrossSquareNonneg(xs: seq<real>, p: real)
    ensures Cross(xs, xs, p, p) >= 0.0
  {
    if xs != [] {
      CrossSquareNonneg(xs[..|xs| - 1], p);
      SquareSign(xs[|xs| - 1] - p);
    }
  }

  lemma {:induction false} SquaredErrorNonneg(xs: seq<real>, ys: seq<real>, a: real, b: real)
    requires |xs| == |ys|
    ensures SquaredError(xs, ys, a, b) >= 0.0
  {
    if xs != [] {
      var k := |xs| - 1;
      SquaredErrorNonneg(xs[..k], ys[..k], a, b);
      SquareSign(Residual(xs[k], ys[k], a, b));
    }
  }

  // ---------- main results ----------

  /** What the fit is, in division-free terms. */
  lemma RawFitParts(xs: seq<real>, ys: seq<real>)
    requires Fittable(xs, ys)
    ensures var f, mx, my := RawFit(xs, ys), Mean(xs), Mean(ys);
            && IsMean(xs, mx) && IsMean(ys, my)
            && Cross(xs, xs, mx, mx) > 0.0
            && Prod(f.slope, Cross(xs, xs, mx, mx)) == Cross(xs, ys, mx, my)
            && f.intercept == my - Prod(f.slope, mx)
  {
    MeanIsMean(xs);
    MeanIsMean(ys);
    CrossSquareNonneg(xs, Mean(xs));
    SlopeTimesVariance(xs, ys);
  }

  lemma SlopeTimesVariance(xs: seq<real>, ys: seq<real>)
    requires Fittable(xs, ys)
    ensures Prod(Slope(xs, ys), Cross(xs, xs, Mean(xs), Mean(xs))) == Cross(xs, ys, Mean(xs), Mean(ys))
  {
    DivMul(Cross(xs, ys, Mean(xs), Mean(ys)), Cross(xs, xs, Mean(xs), Mean(xs)));
  }

  /** No line has a smaller squared error, and any other line has a larger one. */
  lemma FitIsOptimal(xs: seq<real>, ys: seq<real>, a: real, b: real)
    requires Fittable(xs, ys)
    ensures var f := RawFit(xs, ys);
            && SquaredError(xs, ys, f.slope, f.intercept) <= SquaredError(xs, ys, a, b)
            && ((a != f.slope || b != f.intercept) ==>
                  SquaredError(xs, ys, f.slope, f.intercept) < SquaredError(xs, ys, a, b))
  {
    var f, mx, my := RawFit(xs, ys), Mean(xs), Mean(ys);
    RawFitParts(xs, ys);
    var d := my - Prod(a, mx) - b;
    SquaredErrorCentred(xs, ys, mx, my, a, b, d);
    SquaredErrorCentred(xs, ys, mx, my, f.slope, f.intercept, 0.0);
    OptimalLine(Cross(xs, xs, mx, mx), Cross(xs, ys, mx, my), Cross(ys, ys, my, my), |xs| as real, f.slope, a, d);
  }

  lemma OptimalLine(cxx: real, cxy: real, cyy: real, n: real, m: real, a: real, d: real)
    requires cxx > 0.0 && n > 0.0 && Prod(m, cxx) == cxy
    ensures var best, other := Around(m, 0.0, cxx, cxy, cyy, 0.0, 0.0, n), Around(a, d, cxx, cxy, cyy, 0.0, 0.0, n);
            best <= other && (a != m || d != 0.0 ==> best < other)
  {
    CompleteSquare(a, m, cxx, cxy);
    ScaledSquare(a - m, cxx);
    ScaledSquare(d, n);
    assert Sq(d) * n == d * d * n;
  }

  lemma CompleteSquare(a: real, m: real, cxx: real, cxy: real)
    requires Prod(m, cxx) == cxy
    ensures a * a * cxx - 2.0 * a * cxy == (m * m * cxx - 2.0 * m * cxy) + Sq(a - m) * cxx
  {
    assert Sq(a - m) == a * a - 2.0 * (a * m) + m * m;
    assert Sq(a - m) * cxx == a * a * cxx - 2.0 * ((a * m) * cxx) + (m * m) * cxx;
    assert (a * m) * cxx == a * (m * cxx) && (m * m) * cxx == m * (m * cxx);
  }

  /** SST = SSE + slope * Sxy, so R^2 always meets the schema's 0..1 range. */
  lemma VarianceDecomposition(xs: seq<real>, ys: seq<real>)
    requires Fittable(xs, ys)
    ensures var f := RawFit(xs, ys);
            var sse := SquaredError(xs, ys, f.slope, f.intercept);
            var sst := Cross(ys, ys, Mean(ys), Mean(ys));
            && sst == sse + Prod(f.slope, Cross(xs, ys, Mean(xs), Mean(ys)))
            && 0.0 <= sse <= sst
            && 0.0 <= f.r2 <= 1.0
            && f.residualVariance >= 0.0
  {
    var f := RawFit(xs, ys);
    FittedError(xs, ys);
    SquaredErrorNonneg(xs, ys, f.slope, f.intercept);
    RSquaredRange(SquaredError(xs, ys, f.slope, f.intercept), Cross(ys, ys, Mean(ys), Mean(ys)), |xs|);
  }

  lemma FittedError(xs: seq<real>, ys: seq<real>)
    requires Fittable(xs, ys)
    ensures var f := RawFit(xs, ys);
            var cxy := Cross(xs, ys, Mean(xs), Mean(ys));
            && Cross(ys, ys, Mean(ys), Mean(ys)) == SquaredError(xs, ys, f.slope, f.intercept) + Prod(f.slope, cxy)
            && Prod(f.slope, cxy) >= 0.0
  {
    var f, mx, my := RawFit(xs, ys), Mean(xs), Mean(ys);
    RawFitParts(xs, ys);
    SquaredErrorCentred(xs, ys, mx, my, f.slope, f.intercept, 0.0);
    ExplainedPart(Cross(xs, xs, mx, mx), Cross(xs, ys, mx, my), Cross(ys, ys, my, my), f.slope, |xs| as real);
  }

  lemma RSquaredRange(sse: real, sst: real, n: nat)
    requires 0.0 <= sse <= sst
    ensures 0.0 <= RSquared(sse, sst) <= 1.0 && ResidualVariance(sse, n) >= 0.0
  {
    if sst > 0.0 {
      UnitRatio(sse, sst);
    }
    if n > 2 {
      QuotientBounds(sse, (n - 2) as real, 0.0);
    }
  }

  lemma ExplainedPart(cxx: real, cxy: real, cyy: real, m: real, n: real)
    requires cxx > 0.0 && Prod(m, cxx) == cxy
    ensures cyy == Around(m, 0.0, cxx, cxy, cyy, 0.0, 0.0, n) + Prod(m, cxy)
    ensures Prod(m, cxy) >= 0.0
  {
    assert (m * m) * cxx == m * (m * cxx);
    assert Sq(m) * cxx == m * cxy;
    ScaledSquare(m, cxx);
  }

  /** What the fit reports beside the line: the explained share of the variance, and the error per degree of freedom. */
  lemma FitStatistics(xs: seq<real>, ys: seq<real>)
    requires Fittable(xs, ys)
    ensures var f, sst := RawFit(xs, ys), Cross(ys, ys, Mean(ys), Mean(ys));
            var sse := SquaredError(xs, ys, f.slope, f.intercept);
            && (sst > 0.0 ==> (1.0 - f.r2) * sst == sse)
            && (sst == 0.0 ==> f.r2 == 0.0)
            && (|xs| > 2 ==> f.residualVariance * (|xs| - 2) as real == sse)
            && (|xs| == 2 ==> f.residualVariance == 0.0)
  {
    hide SquaredError, Cross, Slope, Mean;
    var f, sst := RawFit(xs, ys), Cross(ys, ys, Mean(ys), Mean(ys));
    var sse := SquaredError(xs, ys, f.slope, f.intercept);
    if sst > 0.0 {
      Share(sse, sst);
    }
    if |xs| > 2 {
      Share(sse, (|xs| - 2) as real);
    }
  }

  lemma Share(a: real, b: real)
    requires b != 0.0
    ensures Quot(a, b) * b == a && (1.0 - (1.0 - Quot(a, b))) * b == a
  {}

  /** Exactly when the fit is returned: the only refusals are the three guards and a falling line. */
  lemma FitSucceedsIff(xs: seq<real>, ys: seq<real>)
    ensures Fit(xs, ys).Ok? <==>
              |xs| == |ys| >= 2
              && Cross(xs, xs, Mean(xs), Mean(xs)) != 0.0
              && Cross(xs, ys, Mean(xs), Mean(ys)) >= 0.0
  {
    if Fittable(xs, ys) {
      VarianceDecomposition(xs, ys);
      CrossSquareNonneg(xs, Mean(xs));
      QuotientBounds(Cross(xs, ys, Mean(xs), Mean(ys)), Cross(xs, xs, Mean(xs), Mean(xs)), 0.0);
    }
  }

  /** Collinear data are recovered exactly. */
  lemma CollinearRecovered(xs: seq<real>, ys: seq<real>, a: real, b: real)
    requires Fittable(xs, ys)
    requires forall i :: 0 <= i < |xs| ==> ys[i] == a * xs[i] + b
    ensures var f := RawFit(xs, ys);
            f.slope == a && f.intercept == b && f.residualVariance == 0.0
            && (a != 0.0 ==> f.r2 == 1.0)
  {
    CollinearError(xs, ys, a, b);
    var f, mx, my := RawFit(xs, ys), Mean(xs), Mean(ys);
    SquaredErrorNonneg(xs, ys, f.slope, f.intercept);
    FitIsOptimal(xs, ys, a, b);
    VarianceDecomposition(xs, ys);
    RawFitParts(xs, ys);
    var cxx, cxy := Cross(xs, xs, mx, mx), Cross(xs, ys, mx, my);
    assert a * cxy == a * a * cxx;
    ScaledSquare(a, cxx);
  }

  lemma {:induction false} CollinearError(xs: seq<real>, ys: seq<real>, a: real, b: real)
    requires |xs| == |ys|
    requires forall i :: 0 <= i < |xs| ==> ys[i] == a * xs[i] + b
    ensures SquaredError(xs, ys, a, b) == 0.0
  {
    if xs != [] {
      CollinearError(xs[..|xs| - 1], ys[..|ys| - 1], a, b);
    }
  }

  /** The x-variance vanishes exactly when all x agree. */
  lemma ZeroVarianceIffConstant(xs: seq<real>)
    requires xs != []
    ensures Cross(xs, xs, Mean(xs), Mean(xs)) == 0.0 <==> forall i :: 0 <= i < |xs| ==> xs[i] == xs[0]
  {
    if Cross(xs, xs, Mean(xs), Mean(xs)) == 0.0 {
      CrossZeroConstant(xs, Mean(xs));
    }
    if forall i :: 0 <= i < |xs| ==> xs[i] == xs[0] {
      MeanOfConstant(xs);
      ConstantCross(xs, Mean(xs));
    }
  }

  lemma MeanOfConstant(xs: seq<real>)
    requires xs != [] && forall i :: 0 <= i < |xs| ==> xs[i] == xs[0]
    ensures Mean(xs) == xs[0]
  {
    SumConstant(xs, xs[0]);
    MeanIsMean(xs);
    CancelFactor(Mean(xs), xs[0], |xs| as real);
  }

  lemma {:induction false} CrossZeroConstant(xs: seq<real>, p: real)
    requires Cross(xs, xs, p, p) == 0.0
    ensures forall i :: 0 <= i < |xs| ==> xs[i] == p
  {
    if xs != [] {
      var k := |xs| - 1;
      CrossSquareNonneg(xs[..k], p);
      SquareSign(xs[k] - p);
      CrossZeroConstant(xs[..k], p);
      assert forall i :: 0 <= i < k ==> xs[i] == xs[..k][i];
    }
  }

  lemma {:induction false} SumConstant(xs: seq<real>, c: real)
    requires forall i :: 0 <= i < |xs| ==> xs[i] == c
    ensures Sum(xs) == Prod(c, |xs| as real)
  {
    if xs != [] {
      SumConstant(xs[..|xs| - 1], c);
      OneMore(c, (|xs| - 1) as real);
      assert (|xs| as real) == ((|xs| - 1) as real) + 1.0;
    }
  }

  lemma {:induction false} ConstantCross(xs: seq<real>, p: real)
    requires forall i :: 0 <= i < |xs| ==> xs[i] == p
    ensures Cross(xs, xs, p, p) == 0.0
  {
    if xs != [] {
      ConstantCross(xs[..|xs| - 1], p);
    }
  }
}
