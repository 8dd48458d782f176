/** Grids that pass the rung-0 gate, the default one among them. */
module DryRunPasses {
  import opened Prelude
  import opened RealArith
  import opened LeastSquares
  import opened CellRun
  import opened FakeCells
  import opened GridFit
  import opened DryRun
  import opened DryRunTheory
  import opened DryRunGate
  import Knee

  // ---------- the R^2 half on congruent lengths ----------

  /** The batch sizes vary at most `1 / low` as strongly as they move with the tokens. */
  lemma BatchVariance(ls: seq<real>, bs: seq<real>, low: real)
    requires ls != [] && bs != [] && low > 0.0
    requires forall i :: 0 <= i < |ls| ==> ls[i] >= low
    ensures var xs, es := GridProduct(ls, bs), GridProduct(Ones(|ls|), bs);
            |xs| == |es| > 0 && Cov(es, es) >= 0.0 && Prod(low, Cov(es, es)) <= Cov(xs, es)
  {
    hide Cov, Dot, Sum, GridProduct, Ones, Sq, Prod;
    var os := Ones(|ls|);
    var xs, es := GridProduct(ls, bs), GridProduct(os, bs);
    GridLength(ls, bs);
    GridLength(os, bs);
    SizePositive(|ls|, |bs|);
    CovRaw(xs, es);
    CovRaw(es, es);
    GridSum(ls, bs);
    GridSum(os, bs);
    GridDot(ls, os, bs);
    GridDot(os, os, bs);
    DotOnes(ls);
    SpreadNonneg(bs);
    SumAtLeast(ls, low);
    CovNonneg(es);
    BatchAlgebra(|ls| as real, |bs| as real, |xs| as real, Sum(ls), Sum(bs), Dot(bs, bs), low, Cov(xs, es), Cov(es, es));
  }

  lemma BatchAlgebra(m: real, k: real, n: real, sl: real, sb: real, sb2: real, low: real, cxe: real, cee: real)
    requires m > 0.0 && k > 0.0 && n > 0.0 && n == Prod(m, k) && low > 0.0
    requires Prod(cxe, n) == Prod(Prod(sl, sb2), n) - Prod(Prod(sl, sb), Prod(m, sb))
    requires Prod(cee, n) == Prod(Prod(m, sb2), n) - Prod(Prod(m, sb), Prod(m, sb))
    requires Prod(sb2, k) - Sq(sb) >= 0.0 && sl >= Prod(low, m)
    ensures Prod(low, cee) <= cxe
  {
    var v := sb2 * k - sb * sb;
    var mv := m * v;
    assert cxe * n == sl * mv by {
      assert (sl * sb2) * (m * k) == (sl * m) * (sb2 * k);
      assert (sl * sb) * (m * sb) == (sl * m) * (sb * sb);
      assert sl * mv == (sl * m) * (sb2 * k) - (sl * m) * (sb * sb);
    }
    assert cee * n == m * mv by {
      assert (m * sb2) * (m * k) == (m * m) * (sb2 * k);
      assert (m * sb) * (m * sb) == (m * m) * (sb * sb);
      assert m * mv == (m * m) * (sb2 * k) - (m * m) * (sb * sb);
    }
    ProductSign(m, v);
    MulMono(Prod(low, m), sl, mv);
    assert (low * m) * mv == low * (m * mv);
    assert (low * cee) * n == low * (cee * n);
    ProductBounds(Prod(low, cee), Prod(Prod(low, cee), n), n, cxe);
  }

  /** Variance of rounded tokens, when the padding is a multiple of the batch sizes. */
  lemma SlotVarianceIs(xs: seq<real>, es: seq<real>, t: real)
    requires |xs| == |es| > 0
    ensures var slots, w := Plus(xs, Scale(t, es)), Prod(t, Cov(xs, es));
            && Cov(xs, Scale(t, es)) == w
            && Cov(slots, slots) == Cov(xs, xs) + 2.0 * w + Prod(Sq(t), Cov(es, es))
  {
    hide Scale, Plus, Cross, Mean, Prod, Sq;
    var ps := Scale(t, es);
    var slots := Plus(xs, ps);
    CovScale(xs, es, t);
    VarianceScales(es, t);
    CovPlus(slots, xs, ps);
    CovPlus(xs, xs, ps);
    CovPlus(ps, xs, ps);
    CovSymmetric(slots, xs);
    CovSymmetric(slots, ps);
    CovSymmetric(ps, xs);
  }

  lemma CovPlus(zs: seq<real>, xs: seq<real>, ys: seq<real>)
    requires |zs| == |xs| == |ys| > 0
    ensures Cov(zs, Plus(xs, ys)) == Cov(zs, xs) + Cov(zs, ys)
  {
    hide Cross, Plus, Mean;
    MeanPlus(xs, ys);
    CrossPlus(zs, xs, ys, Mean(zs), Mean(xs), Mean(ys));
  }

  lemma CovSymmetric(xs: seq<real>, ys: seq<real>)
    requires |xs| == |ys| > 0
    ensures Cov(xs, ys) == Cov(ys, xs)
  {
    CrossSymmetric(xs, ys, Mean(xs), Mean(ys));
  }

  /** Explained share of the rounded variance, when lengths are seven times the padding. */
  lemma ExplainedEnough(v: real, c: real, e: real, k: real, low: real)
    requires v > 0.0 && c >= 0.0 && e >= 0.0 && k >= 0.0 && low > 0.0 && low >= 7.0 * k
    requires Prod(low, c) <= v && Prod(low, e) <= c
    ensures var w := Prod(k, c); var z := v + 2.0 * w + Prod(Sq(k), e);
            z > 0.0 && Sq(v + w) >= Prod(0.98, Prod(v, z))
  {
    var w, f := k * c, (k * k) * e;
    MulMono(7.0 * k, low, low * e);
    MulMono(7.0 * k, low, k * e);
    MulMono(low * e, c, low);
    ProductSign(k, e);
    ProductSign(low, e);
    ProductSign(k, c);
    SquareSign(k);
    ProductSign(Sq(k), e);
    assert (7.0 * k) * (low * e) == 7.0 * (low * (k * e)) && (7.0 * k) * (k * e) == 7.0 * f;
    assert low * (k * e) >= 7.0 * f && low * (low * e) >= 49.0 * f;
    assert v >= 49.0 * f;
    ShareAlgebra(v, w, f);
  }

  lemma ShareAlgebra(v: real, w: real, f: real)
    requires v > 0.0 && w >= 0.0 && f >= 0.0 && v >= 49.0 * f
    ensures var z := v + 2.0 * w + f; z > 0.0 && Sq(v + w) >= Prod(0.98, Prod(v, z))
  {
    var spare := v - 49.0 * f;
    ProductSign(v, spare);
    ProductSign(v, w);
    SquareSign(w);
    assert Sq(v + w) == v * v + 2.0 * (v * w) + w * w;
    assert Prod(v, v + 2.0 * w + f) == v * v + 2.0 * (v * w) + v * f;
    assert v * spare == v * v - 49.0 * (v * f);
  }

  lemma CongruentR2(p: Params, pad: int, shortest: int)
    requires GoodGrid(p) && Congruent(p) && Rounding(p, pad, shortest) && shortest >= 7 * pad
    ensures GridOf(p) != [] && R2Half(p)
  {
    hide Cov, GridProduct, Scale, Plus, Prod, Sq, Grid, PairTokens, PairPads;
    GridNonempty(p);
    LengthsAtLeast(p, pad, shortest);
    PairTokensGrid(p, SeqLens(p), Lengths(p), BatchSizes(p));
    GridPads(p, pad);
    TokensVary(p, PairTokens(p, GridOf(p)));
    var ls, bs := Lengths(p), Reals(BatchSizes(p));
    var xs, es := GridProduct(ls, bs), GridProduct(Ones(|ls|), bs);
    GridCovariance(ls, bs, shortest as real);
    BatchVariance(ls, bs, shortest as real);
    SlotVarianceIs(xs, es, pad as real);
    ExplainedEnough(Cov(xs, xs), Cov(xs, es), Cov(es, es), pad as real, shortest as real);
  }

  /**
   Where rounding is small the gate is no obstacle: on every grid of distinct positive
   sizes whose seq_lens agree modulo the block size, and whose shortest live length is at
   least seven times the padding, the dry run passes if and only if some cell's bytes reach
   the fixed overhead.
   */
  lemma LongGridsPass(p: Params, pad: int, shortest: int)
    requires GoodGrid(p) && Congruent(p) && Rounding(p, pad, shortest) && shortest >= 7 * pad
    ensures Outcome(p).Ok? <==> SomeCellDominates(p)
    ensures Outcome(p).Err? ==> Outcome(p).error.KneeFailed?
  {
    hide SweepCells, Precheck, GridOf, Outcome, SomeCellDominates, TokenVariance, PadCovariance, R2Half, SlopeHalf, AllValid,
         Fit, TokensOf, BytesOf, PointsOf, Knee.FindKnee;
    CongruentR2(p, pad, shortest);
    DryRunRecoversSlope(p, pad, shortest);
    GatePassesIff(p);
  }

  // ---------- what a passing dry run reports ----------

  /** The knee names a cell whose bytes reach the overhead, and no cell with fewer tokens reaches it. */
  ghost predicate KneeOf(p: Params, k: Knee.KneePoint)
    requires p.blockSize > 0
  {
    && (exists g :: g in GridOf(p) && KneeAt(p, g, k))
    && forall g :: g in GridOf(p) && g.0 > 0 && g.1 > 0 && CellTokens(ContextOf(p), g.0, g.1) < k.totalTokens ==>
         CellBytes(ContextOf(p), g.0, g.1) < p.fixedOverheadBytes
  }

  ghost predicate KneeAt(p: Params, g: (int, int), k: Knee.KneePoint)
    requires p.blockSize > 0
  {
    && g.0 > 0 && g.1 > 0
    && var bytes := CellBytes(ContextOf(p), g.0, g.1);
       && bytes >= p.fixedOverheadBytes
       && k.totalTokens == CellTokens(ContextOf(p), g.0, g.1) && k.batchSize == g.1
       && k.kvShare * (p.fixedOverheadBytes + bytes) as real == bytes as real
  }

  /** The measured point of a cell in closed form. */
  lemma PointIs(p: Params, cells: seq<Cell>, t: nat)
    requires p.blockSize > 0 && p.nSamples > 0 && AllValid(cells) && t < |cells| == |GridOf(p)|
    requires var g := GridOf(p)[t]; g.0 > 0 && g.1 > 0 && CellIs(ContextOf(p), g.0, g.1, p.nSamples, cells[t])
    ensures var g := GridOf(p)[t];
            PointsOf(cells)[t]
            == Knee.Point(CellTokens(ContextOf(p), g.0, g.1), CellBytes(ContextOf(p), g.0, g.1) as real, g.1)
  {
    hide P50Bytes, CellBytes, CellTokens, GridOf;
  }

  /** Every measured point is that of its cell. */
  ghost predicate PointsAre(p: Params, points: seq<Knee.Point>)
    requires p.blockSize > 0
  {
    |points| == |GridOf(p)| && forall t :: 0 <= t < |points| ==> PointOfCell(p, GridOf(p)[t], points[t])
  }

  lemma SweepPointsAre(p: Params)
    requires GoodGrid(p)
    ensures Precheck(p).Ok? && SweepCells(p).Ok? && AllValid(SweepCells(p).value) && SweepCells(p).value != []
    ensures PointsAre(p, PointsOf(SweepCells(p).value))
  {
    hide P50Bytes, SweepCells, Precheck, GridOf, PointsOf, CellIs, CellBytes, CellTokens;
    SweepClosedForm(p);
    SweepBytesNonneg(p);
    var cells, grid := SweepCells(p).value, GridOf(p);
    assert |PointsOf(cells)| == |cells|;
    forall t | 0 <= t < |grid| ensures PointOfCell(p, grid[t], PointsOf(cells)[t]) {
      PointIs(p, cells, t);
      CellTokensPositive(p, grid[t].0, grid[t].1);
    }
  }

  lemma KneeOfCell(p: Params, g: (int, int), q: Knee.Point, k: Knee.KneePoint)
    requires p.blockSize > 0 && PointOfCell(p, g, q) && Knee.Reports(q, p.fixedOverheadBytes, k)
    ensures KneeAt(p, g, k)
  {
    hide CellBytes, CellTokens, Knee.Measured;
    SumsAgree(p.fixedOverheadBytes, CellBytes(ContextOf(p), g.0, g.1));
  }

  lemma SmallerCell(p: Params, g: (int, int), q: Knee.Point, k: Knee.KneePoint)
    requires p.blockSize > 0 && PointOfCell(p, g, q)
    requires q.totalTokens < k.totalTokens ==> q.p50 < p.fixedOverheadBytes as real
    ensures g.0 > 0 && g.1 > 0
    ensures CellTokens(ContextOf(p), g.0, g.1) < k.totalTokens ==> CellBytes(ContextOf(p), g.0, g.1) < p.fixedOverheadBytes
  {
    hide CellBytes, CellTokens, Knee.Measured;
  }

  lemma PointsMeasured(p: Params, points: seq<Knee.Point>)
    requires p.blockSize > 0 && PointsAre(p, points)
    ensures forall q :: q in points ==> Knee.Measured(q, p.fixedOverheadBytes)
  {
    hide GridOf, CellBytes, CellTokens, Knee.Measured;
  }

  lemma KneeOfPoints(p: Params, points: seq<Knee.Point>)
    requires p.blockSize > 0 && p.fixedOverheadBytes > 0 && PointsAre(p, points) && points != []
    requires Knee.FindKnee(points, p.fixedOverheadBytes).Ok?
    ensures KneeOf(p, Knee.FindKnee(points, p.fixedOverheadBytes).value)
  {
    hide GridOf, CellBytes, CellTokens, Knee.FindKnee, Knee.FirstOfEquals, Knee.Measured, Knee.Reports, PointOfCell, KneeAt;
    var grid, f := GridOf(p), p.fixedOverheadBytes;
    PointsMeasured(p, points);
    Knee.KneeIsSmallest(points, f);
    var k := Knee.FindKnee(points, f).value;
    var q :| q in points && Knee.Reports(q, f, k);
    var t :| 0 <= t < |points| && points[t] == q;
    KneeOfCell(p, grid[t], q, k);
    assert grid[t] in grid;
    forall g | g in grid
      ensures g.0 > 0 && g.1 > 0
      ensures CellTokens(ContextOf(p), g.0, g.1) < k.totalTokens ==> CellBytes(ContextOf(p), g.0, g.1) < f
    {
      var u :| 0 <= u < |grid| && grid[u] == g;
      assert points[u] in points;
      SmallerCell(p, g, points[u], k);
    }
  }

  /** The knee of a dry run, in the terms of its grid. */
  lemma KneeReported(p: Params)
    requires GoodGrid(p) && Outcome(p).Ok?
    ensures KneeOf(p, Outcome(p).value.knee)
  {
    hide SweepCells, Precheck, GridOf, Fit, TokensOf, BytesOf, PointsOf, Gate, Knee.FindKnee, KneeOf, PointsAre, ValidCell;
    SweepPointsAre(p);
    assert |PointsOf(SweepCells(p).value)| > 0;
    KneeOfPoints(p, PointsOf(SweepCells(p).value));
  }

  ghost predicate PointOfCell(p: Params, g: (int, int), q: Knee.Point)
    requires p.blockSize > 0
  {
    && g.0 > 0 && g.1 > 0
    && q == Knee.Point(CellTokens(ContextOf(p), g.0, g.1), CellBytes(ContextOf(p), g.0, g.1) as real, g.1)
    && Knee.Measured(q, p.fixedOverheadBytes)
  }

  lemma CellTokensPositive(p: Params, seqLen: nat, batch: nat)
    requires seqLen > 0 && batch > 0 && p.blockSize > 0 && p.theoryBpt > 0
    ensures CellTokens(ContextOf(p), seqLen, batch) > 0 && CellBytes(ContextOf(p), seqLen, batch) >= 0
  {
    TokensPositive(batch, seqLen + Max(p.decodeTokens, 30) - 1);
    BytesNonneg(ContextOf(p), seqLen, batch);
  }

  lemma SumsAgree(a: int, b: int)
    ensures (a + b) as real == a as real + b as real
  {}

  /**
   The campaign a passing dry run writes: one cell for every size of the grid, with its
   closed form and the injected overhead; the injected bytes per token; the least-squares
   line, whose slope is off by the padding's covariance with the tokens; and the knee.
   */
  lemma CampaignReported(p: Params)
    requires GoodGrid(p) && Outcome(p).Ok?
    ensures var r, grid := Outcome(p).value, GridOf(p);
            && r.theoryBpt == p.theoryBpt
            && |r.cells| == |grid| > 0
            && (forall t :: 0 <= t < |grid| ==> r.cells[t].seqLen == grid[t].0 && r.cells[t].batchSize == grid[t].1)
            && (forall t :: 0 <= t < |grid| ==> r.cells[t].baselineBytes == p.fixedOverheadBytes)
            && Prod(r.regression.slope, TokenVariance(p)) == Prod(p.theoryBpt as real, TokenVariance(p) + PadCovariance(p))
            && KneeOf(p, r.knee)
  {
    hide Outcome, GridOf, KneeOf, TokenVariance, PadCovariance, GoodGrid, Prod;
    CellsReported(p);
    LineReported(p);
    KneeReported(p);
  }

  lemma CellsReported(p: Params)
    requires GoodGrid(p) && Outcome(p).Ok?
    ensures var r, grid := Outcome(p).value, GridOf(p);
            && r.theoryBpt == p.theoryBpt && |r.cells| == |grid| > 0
            && (forall t :: 0 <= t < |grid| ==> r.cells[t].seqLen == grid[t].0 && r.cells[t].batchSize == grid[t].1)
            && (forall t :: 0 <= t < |grid| ==> r.cells[t].baselineBytes == p.fixedOverheadBytes)
  {
    hide SweepCells, Precheck, GridOf, BytesOf, TokensOf, PointsOf, Fit, Gate, Knee.FindKnee, AllValid, ValidCell, P50Bytes,
         CellBytes, CellTokens, CellPrefillBytes;
    GridNonempty(p);
    SweepClosedForm(p);
  }

  lemma LineReported(p: Params)
    requires GoodGrid(p) && Outcome(p).Ok?
    ensures GridOf(p) != []
    ensures Prod(Outcome(p).value.regression.slope, TokenVariance(p)) == Prod(p.theoryBpt as real, TokenVariance(p) + PadCovariance(p))
  {
    hide SweepCells, Precheck, GridOf, BytesOf, TokensOf, PointsOf, Fit, Gate, Knee.FindKnee, AllValid, PairTokens, PairPads, Cov,
         Slope, Scale, Plus, GridProduct, Prod;
    GridNonempty(p);
    SweepPoints(p);
    PaddedSlope(PairTokens(p, GridOf(p)), PairPads(p, GridOf(p)), p.theoryBpt as real);
    FittedSlope(TokensOf(SweepCells(p).value), BytesOf(SweepCells(p).value));
  }

  lemma FittedSlope(xs: seq<real>, ys: seq<real>)
    ensures Fit(xs, ys).Ok? ==> Fittable(xs, ys) && Fit(xs, ys).value.slope == Slope(xs, ys)
  {}

  // ---------- the default grid ----------

  /** No sizes given, and the default block size; at most 30 decode tokens come to the same run. */
  ghost predicate Default(p: Params) {
    && p.seqLens == [] && p.batchSizes == [] && p.blockSize == 16 && p.decodeTokens <= 30
    && p.nSamples > 0 && p.theoryBpt > 0 && p.fixedOverheadBytes > 0
  }

  const DEFAULT_GRID := [(512, 1), (512, 4), (512, 16), (2048, 1), (2048, 4), (2048, 16), (8192, 1), (8192, 4), (8192, 16)]

  lemma DefaultSizes(p: Params)
    requires Default(p)
    ensures SeqLens(p) == [512, 2048, 8192] && BatchSizes(p) == [1, 4, 16] && GoodGrid(p) && Congruent(p)
  {}

  lemma DefaultGrid(p: Params)
    requires Default(p)
    ensures GoodGrid(p) && Congruent(p) && GridOf(p) == DEFAULT_GRID
  {
    DefaultSizes(p);
    hide GoodGrid, Congruent, SeqLens, BatchSizes, Default;
    var batches := [1, 4, 16];
    assert [512, 2048, 8192][..2] == [512, 2048] && [512, 2048][..1] == [512] && [512][..0] == [];
    assert Grid([], batches) == [];
    assert Grid([512], batches) == [(512, 1), (512, 4), (512, 16)];
    assert Grid([512, 2048], batches) == [(512, 1), (512, 4), (512, 16)] + [(2048, 1), (2048, 4), (2048, 16)];
  }

  /** Rounded tokens of the default grid's lengths: 34, 130 and 514 blocks. */
  lemma DefaultBytes(p: Params, seqLen: nat, batch: nat)
    requires Default(p) && batch > 0 && seqLen in {512, 2048, 8192}
    ensures CellTokens(ContextOf(p), seqLen, batch) == batch * (seqLen + 29)
    ensures CellBytes(ContextOf(p), seqLen, batch) == batch * (seqLen + 32) * p.theoryBpt
  {
    CeilDivUnique(541, 16, 34);
    CeilDivUnique(2077, 16, 130);
    CeilDivUnique(8221, 16, 514);
    var blocks := CeilDiv(seqLen + 29, 16);
    assert blocks * 16 == seqLen + 32;
    assert CellBytes(ContextOf(p), seqLen, batch) == (batch * blocks) * 16 * p.theoryBpt;
    assert (batch * blocks) * 16 == batch * (blocks * 16);
  }

  /**
   With the default grid and block size the dry run passes if and only if the fixed overhead
   is at most 131584 tokens' worth of bytes, the rounded tokens of its largest cell; and up
   to 544 tokens' worth, the smallest cell's, that cell is already the knee.
   */
  lemma DefaultGridPasses(p: Params)
    requires Default(p)
    ensures Outcome(p).Ok? <==> p.fixedOverheadBytes <= 131584 * p.theoryBpt
    ensures p.fixedOverheadBytes <= 544 * p.theoryBpt ==>
              Outcome(p).Ok? && Outcome(p).value.knee.totalTokens == 541 && Outcome(p).value.knee.batchSize == 1
  {
    hide Outcome, GridOf, CellBytes, CellTokens, GoodGrid, Congruent;
    DefaultGrid(p);
    DefaultRounding(p);
    LongGridsPass(p, 3, 541);
    forall g | g in DEFAULT_GRID
      ensures g.0 > 0 && g.1 > 0 && CellTokens(ContextOf(p), g.0, g.1) == g.1 * (g.0 + 29)
      ensures CellBytes(ContextOf(p), g.0, g.1) == g.1 * (g.0 + 32) * p.theoryBpt
    {
      DefaultBytes(p, g.0, g.1);
    }
    LargestCell(p);
    if Outcome(p).Ok? {
      KneeReported(p);
    }
  }

  lemma DefaultRounding(p: Params)
    requires Default(p)
    ensures SeqLens(p) != [] && Rounding(p, 3, 541)
  {
    CeilDivUnique(541, 16, 34);
    var xs := [512, 2048, 8192];
    var m := Minimum(xs);
    assert m in xs && m <= xs[0];
  }

  lemma LargestCell(p: Params)
    requires Default(p)
    requires forall g :: g in DEFAULT_GRID ==>
               g.0 > 0 && g.1 > 0 && CellBytes(ContextOf(p), g.0, g.1) == g.1 * (g.0 + 32) * p.theoryBpt
    requires GridOf(p) == DEFAULT_GRID
    ensures SomeCellDominates(p) <==> p.fixedOverheadBytes <= 131584 * p.theoryBpt
  {
    hide CellBytes, GridOf;
    assert (8192, 16) in DEFAULT_GRID;
    forall g | g in DEFAULT_GRID ensures g.1 * (g.0 + 32) <= 131584 && g.1 * (g.0 + 32) * p.theoryBpt <= 131584 * p.theoryBpt {
      MulMonotone(g.1 * (g.0 + 32), 131584, p.theoryBpt);
    }
  }
}
