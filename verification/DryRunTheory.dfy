/** Rung 0 end to end: from the fake allocator's steps to the recovered slope. */
module DryRunTheory {
  import opened Prelude
  import opened RealArith
  import opened Engine
  import opened FakeEngine
  import opened LeastSquares
  import opened CellRun
  import opened FakeCells
  import opened GridFit
  import opened DryRun
  import Knee

  // ---------- the grids the dry run is for ----------

  ghost predicate DistinctInts(xs: seq<int>) {
    forall i, j :: 0 <= i < j < |xs| ==> xs[i] != xs[j]
  }

  ghost predicate Positive(xs: seq<int>) {
    forall i :: 0 <= i < |xs| ==> xs[i] > 0
  }

  /** Positive sizes, at least two cells, and positive constants. */
  ghost predicate GoodSizes(p: Params) {
    && Positive(SeqLens(p)) && Positive(BatchSizes(p))
    && |SeqLens(p)| * |BatchSizes(p)| >= 2
    && p.nSamples > 0 && p.theoryBpt > 0 && p.blockSize > 0 && p.fixedOverheadBytes > 0
  }

  /** And no size is listed twice. */
  ghost predicate GoodGrid(p: Params) {
    GoodSizes(p) && DistinctInts(SeqLens(p)) && DistinctInts(BatchSizes(p))
  }

  /** The refusals made before any cell is measured: too few cells, a division by zero, the engine's own checks. */
  lemma EarlyRefusals(p: Params)
    ensures var cells := |SeqLens(p)| * |BatchSizes(p)|;
            && (Outcome(p) == Err(TooFewCells) <==> cells < 2)
            && (Outcome(p) == Err(ZeroBlockSize) <==> cells >= 2 && p.blockSize == 0)
            && (Outcome(p) == Err(BadBlockSize) <==> cells >= 2 && p.blockSize < 0)
            && (Outcome(p) == Err(BadOverhead) <==> cells >= 2 && p.blockSize > 0 && p.fixedOverheadBytes <= 0)
  {
    hide SweepCells, Fit, SlopeInRange, Knee.FindKnee, TokensOf, BytesOf, PointsOf, AllValid, PoolBlocks, Grid, Minimum;
    GridSize(SeqLens(p), BatchSizes(p));
  }

  // ---------- the sweep over the fake engine ----------

  lemma {:induction false} GridMembers(seqLens: seq<int>, batches: seq<int>)
    requires Positive(seqLens) && Positive(batches)
    ensures forall t :: 0 <= t < |Grid(seqLens, batches)| ==>
              Grid(seqLens, batches)[t].0 > 0 && Grid(seqLens, batches)[t].1 > 0
              && Grid(seqLens, batches)[t].0 in seqLens
  {
    if seqLens != [] {
      GridMembers(seqLens[..|seqLens| - 1], batches);
    }
  }

  lemma {:induction false} GridDistinct(seqLens: seq<int>, batches: seq<int>)
    requires Positive(seqLens) && Positive(batches) && DistinctInts(seqLens) && DistinctInts(batches)
    ensures forall t, u :: 0 <= t < u < |Grid(seqLens, batches)| ==> Grid(seqLens, batches)[t] != Grid(seqLens, batches)[u]
  {
    if seqLens != [] {
      var m := |seqLens| - 1;
      GridDistinct(seqLens[..m], batches);
      GridMembers(seqLens[..m], batches);
    }
  }

  /** The same, cell by cell: positive, and small enough for the auto-sized pool. */
  ghost predicate ReadyCells(p: Params) {
    && Precheck(p).Ok? && p.nSamples > 0
    && (forall t :: 0 <= t < |GridOf(p)| ==> GridOf(p)[t].0 > 0)
    && (forall t :: 0 <= t < |GridOf(p)| ==> GridOf(p)[t].1 > 0)
    && (forall t :: 0 <= t < |GridOf(p)| ==> GoodCell(ContextOf(p), PoolBlocks(p), GridOf(p)[t].0, GridOf(p)[t].1))
  }

  /** The first `m` cells are ready and distinct. */
  ghost predicate ReadyUpTo(p: Params, m: nat) {
    && ReadyCells(p) && m <= |GridOf(p)|
    && (forall t, u :: 0 <= t < u < m ==> GridOf(p)[t] != GridOf(p)[u])
  }

  /** Every cell of the grid fits the auto-sized pool. */
  lemma GoodSizesCells(p: Params)
    requires GoodSizes(p)
    ensures Precheck(p).Ok? && ReadyCells(p)
  {
    GridSize(SeqLens(p), BatchSizes(p));
    GridMembers(SeqLens(p), BatchSizes(p));
    var grid := GridOf(p);
    hide Grid, PoolBlocks;
    forall t | 0 <= t < |grid|
      ensures 0 <= FullBlocks(p, grid[t])
      ensures grid[t].1 * CeilDiv(grid[t].0 + CellDecodeTokens(p.decodeTokens) - 1, p.blockSize) <= FullBlocks(p, grid[t])
    {
      FullBlocksCover(p, grid[t].0, grid[t].1);
    }
    PoolCovers(p);
  }

  lemma GoodGridCells(p: Params)
    requires GoodGrid(p)
    ensures ReadyCells(p) && ReadyUpTo(p, |GridOf(p)|)
  {
    hide ReadyCells;
    GoodSizesCells(p);
    GridDistinct(SeqLens(p), BatchSizes(p));
  }

  lemma FullBlocksCover(p: Params, seqLen: int, batch: int)
    requires p.blockSize > 0 && seqLen > 0 && batch > 0
    ensures 0 <= FullBlocks(p, (seqLen, batch))
    ensures batch * CeilDiv(seqLen + CellDecodeTokens(p.decodeTokens) - 1, p.blockSize) <= FullBlocks(p, (seqLen, batch))
  {
    var x := seqLen + CellDecodeTokens(p.decodeTokens);
    CeilDivMonotone(x - 1, x, p.blockSize);
    CeilDivMonotone(0, x - 1, p.blockSize);
    CeilDivUnique(0, p.blockSize, 0);
    MulMonotone(0, CeilDiv(x, p.blockSize), batch);
    MulMonotone(CeilDiv(x - 1, p.blockSize), CeilDiv(x, p.blockSize), batch);
  }

  lemma PoolCovers(p: Params)
    requires p.blockSize > 0 && GridOf(p) != []
    ensures forall t :: 0 <= t < |GridOf(p)| ==> FullBlocks(p, GridOf(p)[t]) + 64 <= PoolBlocks(p)
  {}

  /** After `n` of the first `m` cells: they have their closed forms, and the later ones' ids are unused. */
  ghost predicate SweepIs(p: Params, m: nat, n: nat, run: (FakeState, Result<seq<Cell>, CellError>))
    requires ReadyUpTo(p, m) && n <= m
  {
    var grid, ctx := GridOf(p), ContextOf(p);
    && run.1.Ok? && |run.1.value| == n
    && Quiet(PlainSetup(PoolBlocks(p), p.blockSize), run.0)
    && (forall t :: n <= t < m ==> Clear(run.0, p.campaignId, grid[t].0, grid[t].1, 0))
    && (forall t :: 0 <= t < n ==> CellIs(ctx, grid[t].0, grid[t].1, p.nSamples, run.1.value[t]))
  }

  lemma SweepNext(p: Params, m: nat, n: nat, run: (FakeState, Result<seq<Cell>, CellError>))
    requires ReadyUpTo(p, m) && n < m
    requires SweepIs(p, m, n, run)
    ensures var (seqLen, batch) := GridOf(p)[n];
            var (s2, c) := CellOutcome(EngineOf(p), ContextOf(p), seqLen, batch, p.nSamples, batch, run.0);
            c.Ok? && SweepIs(p, m, n + 1, (s2, Ok(run.1.value + [c.value])))
  {
    hide GridOf, PoolBlocks, CellOutcome, Clear, CellIs, GoodCell, Quiet;
    var grid := GridOf(p);
    var (seqLen, batch) := grid[n];
    CellOnFake(ContextOf(p), PoolBlocks(p), seqLen, batch, p.nSamples, run.0);
    assert EngineOf(p) == FakeBehaviour(PlainSetup(PoolBlocks(p), p.blockSize));
    forall t | n + 1 <= t < m ensures grid[t].0 != seqLen || grid[t].1 != batch {
      assert grid[n] != grid[t];
    }
  }

  /** One more cell of the sweep. */
  lemma SweepStep(p: Params, m: nat, n: nat)
    requires ReadyUpTo(p, m) && 0 < n <= m
    requires SweepIs(p, m, n - 1, CellsUpTo(EngineOf(p), ContextOf(p), GridOf(p), p.nSamples, EMPTY_ENGINE, n - 1))
    ensures SweepIs(p, m, n, CellsUpTo(EngineOf(p), ContextOf(p), GridOf(p), p.nSamples, EMPTY_ENGINE, n))
  {
    hide GridOf, PoolBlocks, CellOutcome, GoodCell, EngineOf, Precheck, ContextOf, CellIs, Clear, Quiet, CellsUpTo;
    SweepNext(p, m, n - 1, CellsUpTo(EngineOf(p), ContextOf(p), GridOf(p), p.nSamples, EMPTY_ENGINE, n - 1));
    SweepUnfolds(EngineOf(p), ContextOf(p), GridOf(p), p.nSamples, n);
  }

  lemma {:induction false} SweepOnFake(p: Params, m: nat, n: nat)
    requires ReadyUpTo(p, m) && n <= m
    ensures SweepIs(p, m, n, CellsUpTo(EngineOf(p), ContextOf(p), GridOf(p), p.nSamples, EMPTY_ENGINE, n))
    decreases n
  {
    hide ReadyUpTo, ReadyCells, SweepIs, CellsUpTo, GridOf, EngineOf, ContextOf, Precheck, PoolBlocks;
    InGrid(p, m);
    if n == 0 {
      EmptySweep(p, m);
    } else {
      SweepOnFake(p, m, n - 1);
      SweepStep(p, m, n);
    }
  }

  lemma InGrid(p: Params, m: nat)
    requires ReadyUpTo(p, m)
    ensures Precheck(p).Ok? && ReadyCells(p) && m <= |GridOf(p)|
  {}

  lemma EmptySweep(p: Params, m: nat)
    requires ReadyUpTo(p, m)
    ensures SweepIs(p, m, 0, CellsUpTo(EngineOf(p), ContextOf(p), GridOf(p), p.nSamples, EMPTY_ENGINE, 0))
  {
    hide Quiet, CellIs, GoodCell, GridOf, EngineOf;
    EmptyIsQuiet(p);
  }

  lemma SweepUnfolds(b: Behaviour<FakeState>, ctx: SweepContext, grid: seq<(int, int)>, nSamples: int, n: nat)
    requires 0 < n <= |grid| && grid[n - 1].1 >= 0
    requires CellsUpTo(b, ctx, grid, nSamples, EMPTY_ENGINE, n - 1).1.Ok?
    ensures var (s1, front) := CellsUpTo(b, ctx, grid, nSamples, EMPTY_ENGINE, n - 1);
            var (s2, c) := CellOutcome(b, ctx, grid[n - 1].0, grid[n - 1].1, nSamples, grid[n - 1].1, s1);
            CellsUpTo(b, ctx, grid, nSamples, EMPTY_ENGINE, n) == (s2, if c.Err? then Err(c.error) else Ok(front.value + [c.value]))
  {
    hide CellOutcome;
  }

  lemma EmptyIsQuiet(p: Params)
    requires Precheck(p).Ok?
    ensures Quiet(PlainSetup(PoolBlocks(p), p.blockSize), EMPTY_ENGINE)
  {}

  /**
   On every good grid the sweep over the fake engine succeeds: no gate, duplicate
   id, pool or determinism error, and every cell has its closed form.
   */
  lemma SweepClosedForm(p: Params)
    requires GoodGrid(p)
    ensures Precheck(p).Ok? && SweepCells(p).Ok?
    ensures var cells, grid := SweepCells(p).value, GridOf(p);
            && |cells| == |grid| && AllValid(cells)
            && (forall t :: 0 <= t < |grid| ==> grid[t].0 > 0)
            && (forall t :: 0 <= t < |grid| ==> grid[t].1 > 0)
            && (forall t :: 0 <= t < |grid| ==> CellIs(ContextOf(p), grid[t].0, grid[t].1, p.nSamples, cells[t]))
  {
    hide CellIs, GoodCell, Quiet;
    GoodGridCells(p);
    SweepOnFake(p, |GridOf(p)|, |GridOf(p)|);
    SweepValid(EngineOf(p), ContextOf(p), GridOf(p), p.nSamples, EMPTY_ENGINE, |GridOf(p)|);
  }

  // ---------- the regression over the sweep ----------

  /** Live tokens per request at the decode reading. */
  function Length(p: Params, seqLen: int): int {
    seqLen + Max(p.decodeTokens, 30) - 1
  }

  function Lengths(p: Params): (ls: seq<real>)
    ensures |ls| == |SeqLens(p)|
  {
    seq(|SeqLens(p)|, i requires 0 <= i < |SeqLens(p)| => Length(p, SeqLens(p)[i]) as real)
  }

  /** Tokens that rounding up to whole blocks adds to one request. */
  function PadOf(length: int, blockSize: int): int
    requires blockSize > 0
  {
    CeilDiv(length, blockSize) * blockSize - length
  }

  lemma PadRange(length: int, blockSize: int)
    requires blockSize > 0
    ensures 0 <= PadOf(length, blockSize) < blockSize
  {}

  lemma PadPeriodic(a: int, b: int, blockSize: int)
    requires blockSize > 0 && a % blockSize == b % blockSize
    ensures PadOf(a, blockSize) == PadOf(b, blockSize)
  {
    var j := a / blockSize - b / blockSize;
    assert a - b == j * blockSize;
    CeilDivUnique(a, blockSize, CeilDiv(b, blockSize) + j);
  }

  /** Per-pair sequences over the grid. */
  function PairTokens(p: Params, grid: seq<(int, int)>): (xs: seq<real>)
    ensures |xs| == |grid|
  {
    seq(|grid|, t requires 0 <= t < |grid| => Prod(Length(p, grid[t].0) as real, grid[t].1 as real))
  }

  function PairBatches(grid: seq<(int, int)>): (xs: seq<real>)
    ensures |xs| == |grid|
  {
    seq(|grid|, t requires 0 <= t < |grid| => Prod(1.0, grid[t].1 as real))
  }

  lemma {:induction false} ScaleIndex(t: real, xs: seq<real>)
    ensures forall i :: 0 <= i < |xs| ==> Scale(t, xs)[i] == Prod(t, xs[i])
  {
    if xs != [] {
      ScaleIndex(t, xs[..|xs| - 1]);
    }
  }

  lemma {:induction false} PlusIndex(xs: seq<real>, ys: seq<real>)
    requires |xs| == |ys|
    ensures forall i :: 0 <= i < |xs| ==> Plus(xs, ys)[i] == xs[i] + ys[i]
  {
    if xs != [] {
      PlusIndex(xs[..|xs| - 1], ys[..|ys| - 1]);
    }
  }

  lemma {:induction false} PairTokensGrid(p: Params, seqLens: seq<int>, ls: seq<real>, batches: seq<int>)
    requires |ls| == |seqLens| && forall i :: 0 <= i < |ls| ==> ls[i] == Length(p, seqLens[i]) as real
    ensures PairTokens(p, Grid(seqLens, batches)) == GridProduct(ls, Reals(batches))
  {
    hide Prod, Scale, Length;
    if seqLens != [] {
      var m := |seqLens| - 1;
      PairTokensGrid(p, seqLens[..m], ls[..m], batches);
      ScaleIndex(ls[m], Reals(batches));
      assert PairTokens(p, Row(seqLens[m], batches)) == Scale(ls[m], Reals(batches));
      assert PairTokens(p, Grid(seqLens, batches))
          == PairTokens(p, Grid(seqLens[..m], batches)) + PairTokens(p, Row(seqLens[m], batches));
    }
  }

  lemma PairBatchesRow(a: seq<(int, int)>, seqLen: int, batches: seq<int>)
    ensures PairBatches(a + Row(seqLen, batches)) == PairBatches(a) + Scale(1.0, Reals(batches))
  {
    hide Prod, Scale;
    ScaleIndex(1.0, Reals(batches));
  }

  lemma {:induction false} PairBatchesGrid(seqLens: seq<int>, batches: seq<int>)
    ensures PairBatches(Grid(seqLens, batches)) == GridProduct(Ones(|seqLens|), Reals(batches))
  {
    hide Prod, Scale, PairBatches, Row;
    if seqLens != [] {
      var m := |seqLens| - 1;
      PairBatchesGrid(seqLens[..m], batches);
      PairBatchesRow(Grid(seqLens[..m], batches), seqLens[m], batches);
      assert Ones(|seqLens|)[..m] == Ones(m);
    } else {
      assert PairBatches([]) == [];
    }
  }

  /** The seq_lens leave the same remainder, so every request is rounded up by the same amount. */
  ghost predicate Congruent(p: Params)
    requires p.blockSize > 0
  {
    forall i, j :: 0 <= i < j < |SeqLens(p)| ==> SeqLens(p)[i] % p.blockSize == SeqLens(p)[j] % p.blockSize
  }

  lemma CongruentPads(p: Params, pad: int)
    requires p.blockSize > 0 && Congruent(p) && SeqLens(p) != []
    requires pad == PadOf(Length(p, SeqLens(p)[0]), p.blockSize)
    ensures forall i :: 0 <= i < |SeqLens(p)| ==> PadOf(Length(p, SeqLens(p)[i]), p.blockSize) == pad
  {
    forall i | 0 <= i < |SeqLens(p)| ensures PadOf(Length(p, SeqLens(p)[i]), p.blockSize) == pad {
      ShiftCongruent(SeqLens(p)[0], SeqLens(p)[i], CellDecodeTokens(p.decodeTokens) - 1, p.blockSize);
      PadPeriodic(Length(p, SeqLens(p)[i]), Length(p, SeqLens(p)[0]), p.blockSize);
    }
  }

  lemma ShiftCongruent(a: int, b: int, d: int, m: int)
    requires m > 0 && a % m == b % m
    ensures (a + d) % m == (b + d) % m
  {
    var j := a / m - b / m;
    assert a == b + j * m;
    ModuloShift(b + d, j, m);
  }

  lemma ModuloShift(x: int, j: int, m: int)
    requires m > 0
    ensures (x + j * m) % m == x % m
  {
    var q, r := x / m, x % m;
    assert x + j * m == (q + j) * m + r;
    RemainderUnique(x + j * m, q + j, r, m);
  }

  lemma RemainderUnique(x: int, q: int, r: int, m: int)
    requires m > 0 && x == q * m + r && 0 <= r < m
    ensures x % m == r
  {
    QuotientOrder(x / m, q, m);
    QuotientOrder(q, x / m, m);
  }

  lemma CellValues(p: Params, seqLen: int, batch: int)
    requires p.blockSize > 0 && seqLen > 0 && batch > 0
    ensures var length, pad := Length(p, seqLen), PadOf(Length(p, seqLen), p.blockSize);
            && CellTokens(ContextOf(p), seqLen, batch) as real == Prod(length as real, batch as real)
            && CellBytes(ContextOf(p), seqLen, batch) as real
               == Prod(p.theoryBpt as real, Prod(length as real, batch as real) + Prod(pad as real, Prod(1.0, batch as real)))
  {
    var length, pad := Length(p, seqLen), PadOf(Length(p, seqLen), p.blockSize);
    var c := CeilDiv(length, p.blockSize);
    CastProduct(batch, length);
    assert Prod(1.0, batch as real) == batch as real;
    assert batch * c * p.blockSize == batch * (length + pad) == batch * length + pad * batch by {
      assert batch * c * p.blockSize == batch * (c * p.blockSize);
    }
    CastProduct(p.theoryBpt, batch * c * p.blockSize);
    CastProduct(length, batch);
    CastProduct(pad, batch);
    assert CellBytes(ContextOf(p), seqLen, batch) == p.theoryBpt * (batch * c * p.blockSize);
    assert batch * length == length * batch;
  }

  /** Padding of each cell: one pad per request. */
  function PairPads(p: Params, grid: seq<(int, int)>): (ps: seq<real>)
    requires p.blockSize > 0
    ensures |ps| == |grid|
  {
    seq(|grid|, t requires 0 <= t < |grid| =>
      Prod(PadOf(Length(p, grid[t].0), p.blockSize) as real, Prod(1.0, grid[t].1 as real)))
  }

  lemma CellPoints(p: Params, grid: seq<(int, int)>, cells: seq<Cell>)
    requires p.blockSize > 0 && p.nSamples > 0 && |cells| == |grid| && AllValid(cells)
    requires forall t :: 0 <= t < |grid| ==> grid[t].0 > 0
    requires forall t :: 0 <= t < |grid| ==> grid[t].1 > 0
    requires forall t :: 0 <= t < |grid| ==> CellIs(ContextOf(p), grid[t].0, grid[t].1, p.nSamples, cells[t])
    ensures TokensOf(cells) == PairTokens(p, grid)
    ensures BytesOf(cells) == Scale(p.theoryBpt as real, Plus(PairTokens(p, grid), PairPads(p, grid)))
  {
    hide Prod, Length, PadOf, ContextOf, CellTokens, CellBytes, P50Bytes, ValidCell, Scale, Plus;
    var xs, ps := PairTokens(p, grid), PairPads(p, grid);
    PlusIndex(xs, ps);
    ScaleIndex(p.theoryBpt as real, Plus(xs, ps));
    forall t | 0 <= t < |grid|
      ensures TokensOf(cells)[t] == xs[t] && BytesOf(cells)[t] == Scale(p.theoryBpt as real, Plus(xs, ps))[t]
    {
      CellValues(p, grid[t].0, grid[t].1);
    }
  }

  /** The fitted points of a sweep in closed form, for any remainders. */
  lemma SweepPoints(p: Params)
    requires GoodGrid(p)
    ensures Precheck(p).Ok? && SweepCells(p).Ok? && AllValid(SweepCells(p).value)
    ensures var xs := PairTokens(p, GridOf(p));
            && TokensOf(SweepCells(p).value) == xs == GridProduct(Lengths(p), Reals(BatchSizes(p)))
            && BytesOf(SweepCells(p).value) == Scale(p.theoryBpt as real, Plus(xs, PairPads(p, GridOf(p))))
            && |xs| >= 2 && Cov(xs, xs) > 0.0
  {
    hide Prod, Grid, GridProduct, SweepCells, PadOf, Precheck, Scale, Plus, CellIs, Cov;
    SweepClosedForm(p);
    PairTokensGrid(p, SeqLens(p), Lengths(p), BatchSizes(p));
    TokensVary(p, PairTokens(p, GridOf(p)));
    CellPoints(p, GridOf(p), SweepCells(p).value);
  }

  lemma GridPads(p: Params, pad: int)
    requires GoodGrid(p) && Congruent(p) && pad == PadOf(Length(p, SeqLens(p)[0]), p.blockSize)
    ensures PairPads(p, GridOf(p)) == Scale(pad as real, GridProduct(Ones(|SeqLens(p)|), Reals(BatchSizes(p))))
  {
    hide PadOf, Length, Grid, Prod, Scale, GridProduct, Ones;
    CongruentPads(p, pad);
    GridMembers(SeqLens(p), BatchSizes(p));
    PairBatchesGrid(SeqLens(p), BatchSizes(p));
    ScaleIndex(pad as real, PairBatches(GridOf(p)));
  }

  /** Token counts of a good grid are not all equal. */
  lemma TokensVary(p: Params, xs: seq<real>)
    requires GoodGrid(p) && xs == GridProduct(Lengths(p), Reals(BatchSizes(p)))
    ensures |xs| >= 2 && Cov(xs, xs) > 0.0
  {
    hide GridProduct, Prod, Grid, Cross, Mean;
    var seqLens, batches := SeqLens(p), BatchSizes(p);
    GridSize(seqLens, batches);
    PairTokensGrid(p, seqLens, Lengths(p), batches);
    var grid := GridOf(p);
    CrossSquareNonneg(xs, Mean(xs));
    ZeroVarianceIffConstant(xs);
    GridIndex(seqLens, batches, 0, 0);
    if |batches| >= 2 {
      GridIndex(seqLens, batches, 0, 1);
      DistinctProducts(Length(p, seqLens[0]) as real, batches[0] as real, batches[1] as real);
      assert xs[1] != xs[0];
    } else {
      GridIndex(seqLens, batches, 1, 0);
      DistinctProducts(batches[0] as real, Length(p, seqLens[0]) as real, Length(p, seqLens[1]) as real);
      assert xs[1] != xs[0];
    }
  }

  lemma DistinctProducts(a: real, b: real, c: real)
    requires a > 0.0 && b != c
    ensures Prod(a, b) != Prod(a, c) && Prod(b, a) != Prod(c, a)
  {
    if b < c {
      MulMonoStrict(b, c, a);
    } else {
      MulMonoStrict(c, b, a);
    }
  }

  // ---------- rung 0, end to end ----------

  /** Every request is rounded up by `pad`, and `shortest` is the least live length. */
  ghost predicate Rounding(p: Params, pad: int, shortest: int)
    requires p.blockSize > 0 && SeqLens(p) != []
  {
    pad == PadOf(Length(p, SeqLens(p)[0]), p.blockSize) && shortest == Length(p, Minimum(SeqLens(p)))
  }

  lemma LengthsAtLeast(p: Params, pad: int, shortest: int)
    requires GoodGrid(p) && Rounding(p, pad, shortest)
    ensures 0 <= pad < p.blockSize && shortest > 0 && shortest >= Minimum(SeqLens(p)) > 0
    ensures forall i :: 0 <= i < |Lengths(p)| ==> Lengths(p)[i] >= shortest as real
  {
    PadRange(Length(p, SeqLens(p)[0]), p.blockSize);
  }

  /** The fitted slope of a good congruent grid. */
  lemma SweepSlope(p: Params, pad: int, shortest: int)
    requires GoodGrid(p) && Congruent(p) && Rounding(p, pad, shortest) && shortest > 0
    ensures Precheck(p).Ok? && SweepCells(p).Ok? && AllValid(SweepCells(p).value)
    ensures var xs, ys := TokensOf(SweepCells(p).value), BytesOf(SweepCells(p).value);
            var theory := p.theoryBpt as real;
            && Fittable(xs, ys)
            && theory <= Slope(xs, ys) <= theory + Prod(theory, Quot(pad as real, shortest as real))
  {
    SweepPoints(p);
    GridPads(p, pad);
    LengthsAtLeast(p, pad, shortest);
    var ls, bs := Lengths(p), Reals(BatchSizes(p));
    hide Cov, GridProduct, Scale, Plus, SweepCells, Slope, Fittable, Prod, Quot, GoodGrid, Congruent, PairTokens,
         PairPads;
    CongruentGridSlope(ls, bs, pad as real, shortest as real, p.theoryBpt as real);
  }

  /** The recovered slope always passes the slope half of the gate. */
  lemma SlopePassesGate(p: Params, pad: int, shortest: int, slope: real)
    requires GoodGrid(p) && Rounding(p, pad, shortest) && shortest > 0
    requires var theory := p.theoryBpt as real;
             theory <= slope <= theory + Prod(theory, Quot(pad as real, shortest as real))
    ensures Minimum(SeqLens(p)) > 0 && SlopeInRange(slope, p.theoryBpt, p.blockSize, Minimum(SeqLens(p)))
  {
    LengthsAtLeast(p, pad, shortest);
    GateRange(p.theoryBpt as real, pad as real, shortest as real, p.blockSize as real, Minimum(SeqLens(p)) as real, slope);
  }

  lemma GateRange(t: real, pad: real, shortest: real, block: real, least: real, slope: real)
    requires t > 0.0 && 0.0 <= pad <= block && 0.0 < least <= shortest
    requires t <= slope <= t + Prod(t, Quot(pad, shortest))
    ensures Prod(t, 0.999) <= slope <= Prod(t, 1.0 + Quot(block, least))
  {
    var q, r := Quot(pad, shortest), Quot(block, least);
    DivMul(block, least);
    ProductSign(r, least);
    MulMono(least, shortest, r);
    assert Prod(least, r) == Prod(r, least) && Prod(shortest, r) == Prod(r, shortest);
    QuotientBounds(pad, shortest, r);
    MulMono(q, r, t);
    assert Prod(t, 1.0 + r) == t + Prod(r, t) && Prod(q, t) == Prod(t, q);
  }

  /** What a dry run can come to once its slope has passed: only R^2 or the knee can still refuse. */
  ghost predicate ReachesGate(p: Params, r: Result<Campaign, DryRunError>)
    requires Precheck(p).Ok? && SweepCells(p).Ok? && AllValid(SweepCells(p).value)
  {
    var cells := SweepCells(p).value;
    var fit := Fit(TokensOf(cells), BytesOf(cells));
    var knee := Knee.FindKnee(PointsOf(cells), p.fixedOverheadBytes);
    && fit.Ok?
    && r == if fit.value.r2 < 0.98 then Err(LowR2)
            else if knee.Err? then Err(KneeFailed(knee.error))
            else Ok(Campaign(cells, p.theoryBpt, fit.value, knee.value))
  }

  lemma GateLetsThrough(p: Params)
    requires Precheck(p).Ok? && SweepCells(p).Ok? && AllValid(SweepCells(p).value) && p.theoryBpt > 0
    requires Minimum(SeqLens(p)) > 0
    requires var xs, ys := TokensOf(SweepCells(p).value), BytesOf(SweepCells(p).value);
             Fittable(xs, ys) && Slope(xs, ys) >= 0.0
             && SlopeInRange(Slope(xs, ys), p.theoryBpt, p.blockSize, Minimum(SeqLens(p)))
    ensures ReachesGate(p, Outcome(p))
  {
    hide SweepCells, TokensOf, BytesOf, PointsOf, Slope, SquaredError, Cross, SlopeInRange, RSquared,
         ResidualVariance, Mean;
    var xs, ys := TokensOf(SweepCells(p).value), BytesOf(SweepCells(p).value);
    VarianceDecomposition(xs, ys);
  }

  /**
   Rung 0 end to end.  On every grid of distinct positive sizes whose seq_lens agree
   modulo the block size, the dry run reaches its gate: the slope fitted to the fake
   engine's cells lies between the theory and the theory times one plus the padding
   over the shortest length, so the slope half of the gate passes.
   */
  lemma DryRunRecoversSlope(p: Params, pad: int, shortest: int)
    requires GoodGrid(p) && Congruent(p) && Rounding(p, pad, shortest)
    ensures 0 <= pad < p.blockSize && shortest > 0
    ensures Precheck(p).Ok? && SweepCells(p).Ok? && AllValid(SweepCells(p).value)
    ensures ReachesGate(p, Outcome(p))
    ensures var fit := Fit(TokensOf(SweepCells(p).value), BytesOf(SweepCells(p).value));
            var theory := p.theoryBpt as real;
            fit.Ok? && theory <= fit.value.slope <= theory + Prod(theory, Quot(pad as real, shortest as real))
  {
    LengthsAtLeast(p, pad, shortest);
    SweepSlope(p, pad, shortest);
    var xs, ys := TokensOf(SweepCells(p).value), BytesOf(SweepCells(p).value);
    SlopePassesGate(p, pad, shortest, Slope(xs, ys));
    GateLetsThrough(p);
    hide SweepCells, TokensOf, BytesOf, Slope, Cross, SquaredError, SlopeInRange, GoodGrid, Congruent;
  }

  // ---------- one batch size ----------

  lemma {:induction false} GridBatchMembers(seqLens: seq<int>, batches: seq<int>)
    ensures forall t :: 0 <= t < |Grid(seqLens, batches)| ==> Grid(seqLens, batches)[t].1 in batches
  {
    if seqLens != [] {
      GridBatchMembers(seqLens[..|seqLens| - 1], batches);
    }
  }

  /** With one batch size every cell carries the same padding. */
  lemma SingleBatchPads(p: Params) returns (each: real)
    requires GoodGrid(p) && Congruent(p) && |BatchSizes(p)| == 1
    ensures forall i :: 0 <= i < |GridOf(p)| ==> PairPads(p, GridOf(p))[i] == each
  {
    hide PadOf, Length, Grid, Prod;
    var pad, b := PadOf(Length(p, SeqLens(p)[0]), p.blockSize), BatchSizes(p)[0];
    CongruentPads(p, pad);
    GridMembers(SeqLens(p), BatchSizes(p));
    GridBatchMembers(SeqLens(p), BatchSizes(p));
    each := Prod(pad as real, Prod(1.0, b as real));
    forall i | 0 <= i < |GridOf(p)| ensures PairPads(p, GridOf(p))[i] == each {
      assert GridOf(p)[i].0 in SeqLens(p) && GridOf(p)[i].1 == b;
    }
  }

  /** Equal padding puts the points on a line of slope theory. */
  lemma EqualPadsLine(xs: seq<real>, ps: seq<real>, theory: real, each: real)
    requires |xs| == |ps| && forall i :: 0 <= i < |ps| ==> ps[i] == each
    ensures var ys := Scale(theory, Plus(xs, ps));
            forall i :: 0 <= i < |xs| ==> ys[i] == theory * xs[i] + Prod(theory, each)
  {
    hide Prod, Scale, Plus;
    PlusIndex(xs, ps);
    ScaleIndex(theory, Plus(xs, ps));
    forall i | 0 <= i < |xs| ensures Scale(theory, Plus(xs, ps))[i] == theory * xs[i] + Prod(theory, each) {
      OnLine(theory, xs[i], each);
    }
  }

  lemma OnLine(t: real, x: real, e: real)
    ensures Prod(t, x + e) == t * x + Prod(t, e)
  {}

  lemma LineFit(xs: seq<real>, ys: seq<real>, a: real, c: real)
    requires Fittable(xs, ys) && a > 0.0 && forall i :: 0 <= i < |xs| ==> ys[i] == a * xs[i] + c
    ensures Fit(xs, ys).Ok? && Fit(xs, ys).value.slope == a && Fit(xs, ys).value.r2 == 1.0
  {
    hide Slope, SquaredError, RSquared, ResidualVariance, Cross, Mean;
    CollinearRecovered(xs, ys, a, c);
    VarianceDecomposition(xs, ys);
  }

  lemma SingleBatchFit(p: Params)
    requires GoodGrid(p) && Congruent(p) && |BatchSizes(p)| == 1
    ensures Precheck(p).Ok? && SweepCells(p).Ok? && AllValid(SweepCells(p).value)
    ensures var fit := Fit(TokensOf(SweepCells(p).value), BytesOf(SweepCells(p).value));
            fit.Ok? && fit.value.slope == p.theoryBpt as real && fit.value.r2 == 1.0
  {
    hide PairTokens, PairPads, Scale, Plus, GridOf, Congruent, SweepCells, TokensOf, BytesOf, Fit, Cov, Slope, Lengths;
    SweepPoints(p);
    NeverBelowIff(p);
    var each := SingleBatchPads(p);
    var xs, ps := PairTokens(p, GridOf(p)), PairPads(p, GridOf(p));
    EqualPadsLine(xs, ps, p.theoryBpt as real, each);
    LineFit(xs, Scale(p.theoryBpt as real, Plus(xs, ps)), p.theoryBpt as real, Prod(p.theoryBpt as real, each));
  }

  lemma BytesNonneg(ctx: SweepContext, seqLen: nat, batch: nat)
    requires ctx.blockSize > 0 && ctx.theoryBpt > 0
    ensures CellBytes(ctx, seqLen, batch) >= 0
  {
    var x := seqLen + CellDecodeTokens(ctx.decodeTokens) - 1;
    CeilDivMonotone(0, x, ctx.blockSize);
    CeilDivUnique(0, ctx.blockSize, 0);
    MulMonotone(0, CeilDiv(x, ctx.blockSize), batch);
    MulMonotone(0, CellBlocks(ctx, seqLen, batch), ctx.blockSize);
    MulMonotone(0, CellBlocks(ctx, seqLen, batch) * ctx.blockSize, ctx.theoryBpt);
  }

  lemma SweepBytesNonneg(p: Params)
    requires GoodGrid(p)
    ensures Precheck(p).Ok? && SweepCells(p).Ok? && AllValid(SweepCells(p).value) && SweepCells(p).value != []
    ensures forall i :: 0 <= i < |SweepCells(p).value| ==> P50Bytes(SweepCells(p).value[i]) >= 0.0
  {
    SweepClosedForm(p);
    hide SweepCells, P50Bytes, ValidCell, CellTokens, CellBytes;
    var cells, grid := SweepCells(p).value, GridOf(p);
    forall i | 0 <= i < |cells| ensures P50Bytes(cells[i]) >= 0.0 {
      BytesNonneg(ContextOf(p), grid[i].0, grid[i].1);
    }
  }

  /**
   With a single batch size and congruent lengths the recovered slope is exactly the injected
   one with R^2 = 1, so the dry run passes exactly when some cell's bytes reach the overhead.
   */
  lemma SingleBatchExact(p: Params)
    requires GoodGrid(p) && Congruent(p) && |BatchSizes(p)| == 1
    ensures Precheck(p).Ok? && SweepCells(p).Ok? && AllValid(SweepCells(p).value)
    ensures var fit := Fit(TokensOf(SweepCells(p).value), BytesOf(SweepCells(p).value));
            fit.Ok? && fit.value.slope == p.theoryBpt as real && fit.value.r2 == 1.0
    ensures Outcome(p).Ok? <==> exists c :: c in SweepCells(p).value && P50Bytes(c) >= p.fixedOverheadBytes as real
  {
    hide SweepCells, TokensOf, BytesOf, PointsOf, Fit, Outcome, Congruent, P50Bytes, AllValid;
    var pad, shortest := PadOf(Length(p, SeqLens(p)[0]), p.blockSize), Length(p, Minimum(SeqLens(p)));
    DryRunRecoversSlope(p, pad, shortest);
    SingleBatchFit(p);
    SweepBytesNonneg(p);
    DominantCell(p, SweepCells(p).value);
  }

  /** The knee search over measured cells succeeds exactly when some cell's bytes reach the overhead. */
  lemma DominantCell(p: Params, cells: seq<Cell>)
    requires GoodGrid(p) && AllValid(cells) && cells != []
    requires forall i :: 0 <= i < |cells| ==> P50Bytes(cells[i]) >= 0.0
    ensures Knee.FindKnee(PointsOf(cells), p.fixedOverheadBytes).Ok?
       <==> exists c :: c in cells && P50Bytes(c) >= p.fixedOverheadBytes as real
  {
    hide P50Bytes;
    var points, f := PointsOf(cells), p.fixedOverheadBytes;
    forall q | q in points ensures Knee.Measured(q, f) {
      var i :| 0 <= i < |points| && points[i] == q;
    }
    Knee.KneeIsSmallest(points, f);
    if exists q :: q in points && q.p50 >= f as real {
      var q :| q in points && q.p50 >= f as real;
      var i :| 0 <= i < |points| && points[i] == q;
      assert cells[i] in cells && P50Bytes(cells[i]) >= f as real;
    }
    forall c | c in cells && P50Bytes(c) >= f as real ensures exists q :: q in points && q.p50 >= f as real {
      var i :| 0 <= i < |cells| && cells[i] == c;
      assert points[i] in points;
    }
  }

  // ---------- mixed remainders ----------

  /**
   "Never below the injected slope", exactly: on any good grid, congruent or not, the
   fitted slope is at least the theory if and only if the cells' padding does not
   fall as their token counts rise.
   */
  lemma NeverBelowIff(p: Params)
    requires GoodGrid(p)
    ensures Precheck(p).Ok? && SweepCells(p).Ok? && AllValid(SweepCells(p).value)
    ensures var xs, ys := TokensOf(SweepCells(p).value), BytesOf(SweepCells(p).value);
            && xs == PairTokens(p, GridOf(p)) && xs != []
            && Fittable(xs, ys)
            && (Slope(xs, ys) >= p.theoryBpt as real <==> Cov(xs, PairPads(p, GridOf(p))) >= 0.0)
  {
    hide SweepCells, PairTokens, PairPads, Cov, Slope, Fittable, Scale, Plus, TokensOf, BytesOf;
    SweepPoints(p);
    SlopeAtLeastTheoryIff(PairTokens(p, GridOf(p)), PairPads(p, GridOf(p)), p.theoryBpt as real);
  }

  /** Seq_lens 4 and 19 at block size 16: 33 and 48 live tokens both fill three blocks. */
  const MIXED := Params("mixed", [4, 19], [1], 1, 1, 16, 4, 1, 1)

  /** On mixed remainders the slope can fall to zero, and the gate then refuses a correct pipeline. */
  lemma MixedRemaindersRefused()
    ensures GoodGrid(MIXED) && !Congruent(MIXED) && Outcome(MIXED) == Err(SlopeOutside)
  {
    hide SweepCells, Slope, P50Bytes, Grid, Cov, PairPads, CellBytes, CellTokens;
    MixedGrid();
    MixedValues();
    var p := MIXED;
    SweepClosedForm(p);
    NeverBelowIff(p);
    var xs, ys := TokensOf(SweepCells(p).value), BytesOf(SweepCells(p).value);
    assert ys[0] == 48.0 && ys[1] == 48.0;
    assert SeqLens(p)[0] % 16 == 4 && SeqLens(p)[1] % 16 == 3;
    FlatFit(xs, ys);
    MixedGate(Fit(xs, ys).value);
  }

  lemma MixedGate(f: RegressionFit)
    requires f.slope == 0.0
    ensures Gate(f, 1, 16, 4) == Err(SlopeOutside)
  {
    assert Prod(1.0, 0.999) == 0.999;
  }

  lemma MixedGrid()
    ensures GridOf(MIXED) == [(4, 1), (19, 1)]
  {
    var p := MIXED;
    assert [4, 19][..1] == [4] && [4][..0] == [];
    assert Grid([], [1]) == [];
    assert Grid([4], [1]) == [(4, 1)];
    assert Grid([4, 19], [1]) == [(4, 1)] + [(19, 1)];
  }

  lemma MixedValues()
    ensures CellBytes(ContextOf(MIXED), 4, 1) == 48 && CellBytes(ContextOf(MIXED), 19, 1) == 48
  {
    CeilDivUnique(33, 16, 3);
    CeilDivUnique(48, 16, 3);
  }

  /** Constant data fit a flat line. */
  lemma FlatFit(xs: seq<real>, ys: seq<real>)
    requires Fittable(xs, ys) && forall i :: 0 <= i < |ys| ==> ys[i] == ys[0]
    ensures Fit(xs, ys).Ok? && Fit(xs, ys).value.slope == 0.0
  {
    hide Slope, SquaredError, RSquared, ResidualVariance, Cross;
    CollinearRecovered(xs, ys, 0.0, ys[0]);
    VarianceDecomposition(xs, ys);
  }
}
