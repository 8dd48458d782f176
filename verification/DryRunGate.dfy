/** The rung-0 gate, exactly: for which grids a correct pipeline passes it. */
module DryRunGate {
  import opened Prelude
  import opened RealArith
  import opened LeastSquares
  import opened CellRun
  import opened FakeCells
  import opened GridFit
  import opened DryRun
  import opened DryRunTheory
  import Knee

  // ---------- slope and R^2 of rounded points ----------

  lemma {:induction false} CrossSymmetric(xs: seq<real>, ys: seq<real>, p: real, q: real)
    requires |xs| == |ys|
    ensures Cross(xs, ys, p, q) == Cross(ys, xs, q, p)
  {
    if xs != [] {
      CrossSymmetric(xs[..|xs| - 1], ys[..|ys| - 1], p, q);
    }
  }

  lemma VarianceScales(zs: seq<real>, t: real)
    requires zs != []
    ensures Cov(Scale(t, zs), Scale(t, zs)) == Prod(Sq(t), Cov(zs, zs))
  {
    hide Scale, Cross, Mean;
    var ys := Scale(t, zs);
    CovScale(ys, zs, t);
    CrossSymmetric(ys, zs, Mean(ys), Mean(zs));
    CovScale(zs, zs, t);
    Regroup(t, Cov(zs, zs));
  }

  lemma Regroup(t: real, z: real)
    ensures Prod(t, Prod(t, z)) == Prod(Sq(t), z)
  {}

  /** A slope bound `t * k`, in the variance and covariance of the inputs. */
  lemma SlopeBoundIff(m: real, t: real, k: real, v: real, u: real)
    requires v > 0.0 && t > 0.0 && Prod(m, v) == Prod(t, u)
    ensures m >= Prod(t, k) <==> u >= Prod(k, v)
    ensures m <= Prod(t, k) <==> u <= Prod(k, v)
  {
    ProductBounds(m, Prod(m, v), v, Prod(t, k));
    assert Prod(Prod(t, k), v) == Prod(Prod(k, v), t);
    assert Prod(t, u) == Prod(u, t);
    ProductBounds(u, Prod(u, t), t, Prod(k, v));
  }

  /** The R^2 bound, likewise: explained variance against total variance. */
  lemma ExplainedShareIff(m: real, t: real, v: real, u: real, z: real, sse: real, sst: real, k: real)
    requires v > 0.0 && t > 0.0 && k > 0.0 && Prod(m, v) == Prod(t, u)
    requires sst == Prod(Sq(t), z) && sst == sse + Prod(m, Prod(t, u)) && z >= 0.0
    ensures RSquared(sse, sst) >= k <==> z > 0.0 && Sq(u) >= Prod(k, Prod(v, z))
  {
    SquareSign(t);
    ProductSign(Sq(t), z);
    if z > 0.0 {
      QuotientBounds(sse, sst, 1.0 - k);
      var e := Prod(m, Prod(t, u));
      assert Prod(1.0 - k, sst) == sst - Prod(k, sst);
      ExplainedTimesVariance(m, t, v, u);
      ProductBounds(e, Prod(e, v), v, Prod(k, sst));
      CommonFactor(k, t, v, z);
      assert Prod(Sq(u), Sq(t)) == Prod(e, v);
      ProductBounds(Sq(u), Prod(Sq(u), Sq(t)), Sq(t), Prod(k, Prod(v, z)));
    } else {
      assert Prod(Sq(t), 0.0) == 0.0;
    }
  }

  lemma ExplainedTimesVariance(m: real, t: real, v: real, u: real)
    requires Prod(m, v) == Prod(t, u)
    ensures Prod(Prod(m, Prod(t, u)), v) == Prod(Sq(u), Sq(t))
  {
    assert m * (t * u) * v == (m * v) * (t * u);
    assert (t * u) * (t * u) == (u * u) * (t * t);
  }

  lemma CommonFactor(k: real, t: real, v: real, z: real)
    ensures Prod(Prod(k, Prod(Sq(t), z)), v) == Prod(Prod(k, Prod(v, z)), Sq(t))
  {
    assert (k * ((t * t) * z)) * v == (k * (v * z)) * (t * t);
  }

  /** Points of the form `theory * (tokens + padding)`: slope and R^2 by the covariances of their inputs. */
  lemma RoundedFit(xs: seq<real>, pads: seq<real>, t: real, k: real, r: real)
    requires |xs| == |pads| >= 2 && Cov(xs, xs) > 0.0 && t > 0.0 && r > 0.0
    ensures var ys, v, u, z := Scale(t, Plus(xs, pads)), Cov(xs, xs), Cov(xs, xs) + Cov(xs, pads), Cov(Plus(xs, pads), Plus(xs, pads));
            && Fittable(xs, ys)
            && (RawFit(xs, ys).slope >= Prod(t, k) <==> u >= Prod(k, v))
            && (RawFit(xs, ys).slope <= Prod(t, k) <==> u <= Prod(k, v))
            && (RawFit(xs, ys).r2 >= r <==> z > 0.0 && Sq(u) >= Prod(r, Prod(v, z)))
  {
    hide RawFit, Cov, Scale, Plus, Slope, Prod, Sq, RSquared, SquaredError, Fittable;
    var zs := Plus(xs, pads);
    var ys := Scale(t, zs);
    PaddedSlope(xs, pads, t);
    VarianceScales(zs, t);
    CovNonneg(zs);
    FitParts(xs, ys);
    var f := RawFit(xs, ys);
    var u := Cov(xs, xs) + Cov(xs, pads);
    SlopeBoundIff(f.slope, t, k, Cov(xs, xs), u);
    ExplainedShareIff(f.slope, t, Cov(xs, xs), u, Cov(zs, zs), SquaredError(xs, ys, f.slope, f.intercept), Cov(ys, ys), r);
  }

  lemma CovNonneg(zs: seq<real>)
    requires zs != []
    ensures Cov(zs, zs) >= 0.0
  {
    CrossSquareNonneg(zs, Mean(zs));
  }

  lemma FitParts(xs: seq<real>, ys: seq<real>)
    requires Fittable(xs, ys)
    ensures var f := RawFit(xs, ys);
            var sse := SquaredError(xs, ys, f.slope, f.intercept);
            && f.slope == Slope(xs, ys)
            && f.r2 == RSquared(sse, Cov(ys, ys))
            && Cov(ys, ys) == sse + Prod(f.slope, Cov(xs, ys))
  {
    hide Cross, Mean, SquaredError, Slope, RSquared, Prod;
    VarianceDecomposition(xs, ys);
  }

  // ---------- the gate in the parameters ----------

  function TokenVariance(p: Params): real
    requires GridOf(p) != []
  {
    Cov(PairTokens(p, GridOf(p)), PairTokens(p, GridOf(p)))
  }

  /** How the padding moves with the token counts. */
  function PadCovariance(p: Params): real
    requires p.blockSize > 0 && GridOf(p) != []
  {
    Cov(PairTokens(p, GridOf(p)), PairPads(p, GridOf(p)))
  }

  /** Variance of the rounded token counts. */
  function SlotVariance(p: Params): real
    requires p.blockSize > 0 && GridOf(p) != []
  {
    var slots := Plus(PairTokens(p, GridOf(p)), PairPads(p, GridOf(p)));
    Cov(slots, slots)
  }

  /** The padding moves with the tokens by no more than the gate's two tolerances. */
  predicate SlopeHalf(p: Params)
    requires p.blockSize > 0 && GridOf(p) != [] && SeqLens(p) != [] && Minimum(SeqLens(p)) > 0
  {
    var v, w := TokenVariance(p), PadCovariance(p);
    Prod(-0.001, v) <= w <= Prod(Quot(p.blockSize as real, Minimum(SeqLens(p)) as real), v)
  }

  /** Tokens explain 98 percent of the rounded tokens' variance. */
  predicate R2Half(p: Params)
    requires p.blockSize > 0 && GridOf(p) != []
  {
    var v, w, z := TokenVariance(p), PadCovariance(p), SlotVariance(p);
    z > 0.0 && Sq(v + w) >= Prod(0.98, Prod(v, z))
  }

  predicate SomeCellDominates(p: Params)
    requires p.blockSize > 0
  {
    exists g :: g in GridOf(p) && g.0 > 0 && g.1 > 0 && CellBytes(ContextOf(p), g.0, g.1) >= p.fixedOverheadBytes
  }

  /** How the dry run ends once its cells are measured, by its parameters alone. */
  predicate EndsAs(p: Params, r: Result<Campaign, DryRunError>)
    requires GoodGrid(p) && GridOf(p) != []
  {
    if TokenVariance(p) + PadCovariance(p) < 0.0 then r == Err(FitFailed(InvalidFit))
    else if !SlopeHalf(p) then r == Err(SlopeOutside)
    else if !R2Half(p) then r == Err(LowR2)
    else if !SomeCellDominates(p) then r.Err? && r.error.KneeFailed?
    else r.Ok?
  }

  lemma ToleranceShift(v: real, w: real, q: real)
    ensures v + w >= Prod(0.999, v) <==> w >= Prod(-0.001, v)
    ensures v + w <= Prod(1.0 + q, v) <==> w <= Prod(q, v)
    ensures Prod(0.0, v) == 0.0
  {}

  /** The fit of a good grid's cells, measured against the gate's numbers. */
  lemma SweepFit(p: Params)
    requires GoodGrid(p)
    ensures GridOf(p) != [] && Minimum(SeqLens(p)) > 0
    ensures Precheck(p).Ok? && SweepCells(p).Ok? && AllValid(SweepCells(p).value)
    ensures var xs, ys := TokensOf(SweepCells(p).value), BytesOf(SweepCells(p).value);
            var v, w := TokenVariance(p), PadCovariance(p);
            && Fittable(xs, ys)
            && (RawFit(xs, ys).slope >= 0.0 <==> v + w >= 0.0)
            && (SlopeInRange(RawFit(xs, ys).slope, p.theoryBpt, p.blockSize, Minimum(SeqLens(p))) <==> SlopeHalf(p))
            && (RawFit(xs, ys).r2 >= 0.98 <==> R2Half(p))
  {
    hide SweepCells, PairTokens, PairPads, Cov, RawFit, Fittable, Scale, Plus, TokensOf, BytesOf, Prod, Quot, Sq,
         Precheck, GridOf, GridProduct, AllValid, Lengths;
    GridNonempty(p);
    SweepPoints(p);
    var xs, pads := PairTokens(p, GridOf(p)), PairPads(p, GridOf(p));
    RoundedGate(xs, pads, p.theoryBpt as real, Quot(p.blockSize as real, Minimum(SeqLens(p)) as real));
  }

  lemma GridNonempty(p: Params)
    requires GoodGrid(p)
    ensures GridOf(p) != [] && Minimum(SeqLens(p)) > 0
  {
    GridSize(SeqLens(p), BatchSizes(p));
  }

  /** Both halves of the gate on rounded points, for a relative tolerance `q` above. */
  lemma RoundedGate(xs: seq<real>, pads: seq<real>, t: real, q: real)
    requires |xs| == |pads| >= 2 && Cov(xs, xs) > 0.0 && t > 0.0
    ensures var ys, v, w, z := Scale(t, Plus(xs, pads)), Cov(xs, xs), Cov(xs, pads), Cov(Plus(xs, pads), Plus(xs, pads));
            && Fittable(xs, ys)
            && (RawFit(xs, ys).slope >= 0.0 <==> v + w >= 0.0)
            && (Prod(t, 0.999) <= RawFit(xs, ys).slope <= Prod(t, 1.0 + q) <==> Prod(-0.001, v) <= w <= Prod(q, v))
            && (RawFit(xs, ys).r2 >= 0.98 <==> z > 0.0 && Sq(v + w) >= Prod(0.98, Prod(v, z)))
  {
    hide RawFit, Cov, Scale, Plus, Prod, Sq, Fittable;
    RoundedFit(xs, pads, t, 0.0, 0.98);
    RoundedFit(xs, pads, t, 0.999, 0.98);
    RoundedFit(xs, pads, t, 1.0 + q, 0.98);
    ToleranceShift(Cov(xs, xs), Cov(xs, pads), q);
    ZeroProduct(t);
  }

  lemma ZeroProduct(t: real)
    ensures Prod(t, 0.0) == 0.0
  {}

  /** A cell's median reaches the overhead exactly when its closed form does. */
  lemma DominatingCells(p: Params)
    requires GoodGrid(p)
    ensures Precheck(p).Ok? && SweepCells(p).Ok? && AllValid(SweepCells(p).value)
    ensures (exists c :: c in SweepCells(p).value && P50Bytes(c) >= p.fixedOverheadBytes as real) <==> SomeCellDominates(p)
  {
    SweepClosedForm(p);
    hide SweepCells, P50Bytes, ValidCell, CellTokens, CellBytes, Grid, Precheck;
    var cells, grid := SweepCells(p).value, GridOf(p);
    forall c | c in cells && P50Bytes(c) >= p.fixedOverheadBytes as real ensures SomeCellDominates(p) {
      var t :| 0 <= t < |cells| && cells[t] == c;
      assert grid[t] in grid;
    }
    if SomeCellDominates(p) {
      var g :| g in grid && g.0 > 0 && g.1 > 0 && CellBytes(ContextOf(p), g.0, g.1) >= p.fixedOverheadBytes;
      var t :| 0 <= t < |grid| && grid[t] == g;
      assert cells[t] in cells;
    }
  }

  /** The tail of the dry run, in the terms of its fit and its knee. */
  lemma FinishIs(p: Params)
    requires Precheck(p).Ok? && SweepCells(p).Ok? && AllValid(SweepCells(p).value)
    requires p.theoryBpt > 0 && Minimum(SeqLens(p)) > 0
    requires Fittable(TokensOf(SweepCells(p).value), BytesOf(SweepCells(p).value))
    ensures var cells := SweepCells(p).value;
            var f, knee := RawFit(TokensOf(cells), BytesOf(cells)), Knee.FindKnee(PointsOf(cells), p.fixedOverheadBytes);
            Outcome(p) == if f.slope < 0.0 then Err(FitFailed(InvalidFit))
                          else if !SlopeInRange(f.slope, p.theoryBpt, p.blockSize, Minimum(SeqLens(p))) then Err(SlopeOutside)
                          else if f.r2 < 0.98 then Err(LowR2)
                          else if knee.Err? then Err(KneeFailed(knee.error))
                          else Ok(Campaign(cells, p.theoryBpt, f, knee.value))
  {
    hide SweepCells, TokensOf, BytesOf, PointsOf, RawFit, SlopeInRange, Precheck;
    var cells := SweepCells(p).value;
    VarianceDecomposition(TokensOf(cells), BytesOf(cells));
  }

  /**
   The rung-0 gate, exactly.  For every grid of distinct positive sizes, what the dry run
   returns is decided by its parameters: it passes if and only if the padding's covariance
   with the tokens is within the slope's tolerances, tokens explain 98 percent of the
   rounded tokens' variance, and some cell's bytes reach the fixed overhead.
   */
  lemma GatePassesIff(p: Params)
    requires GoodGrid(p)
    ensures GridOf(p) != [] && Minimum(SeqLens(p)) > 0
    ensures EndsAs(p, Outcome(p))
    ensures Outcome(p).Ok? <==> SlopeHalf(p) && R2Half(p) && SomeCellDominates(p)
  {
    hide SweepCells, TokensOf, BytesOf, PointsOf, RawFit, SlopeInRange, Precheck, GridOf, P50Bytes, Outcome,
         SomeCellDominates, TokenVariance, PadCovariance, R2Half, Fittable, AllValid, Knee.FindKnee;
    SweepFit(p);
    FinishIs(p);
    SweepBytesNonneg(p);
    DominantCell(p, SweepCells(p).value);
    DominatingCells(p);
    FallingLine(p);
  }

  /** A falling line is outside the slope's range. */
  lemma FallingLine(p: Params)
    requires GoodGrid(p) && GridOf(p) != [] && Minimum(SeqLens(p)) > 0
    ensures TokenVariance(p) + PadCovariance(p) < 0.0 ==> !SlopeHalf(p)
  {
    hide PairTokens, PairPads, Cov, GridOf;
    CovNonneg(PairTokens(p, GridOf(p)));
    ProductSign(0.999, TokenVariance(p));
    ToleranceShift(TokenVariance(p), PadCovariance(p), 0.0);
  }
}
