/** `run_dry_run_campaign` and `check_dry_run_gate` of bench/kv_scaling/measure.py. */
module DryRun {
  import opened Prelude
  import opened RealArith
  import opened Engine
  import opened FakeEngine
  import opened LeastSquares
  import Sampler
  import opened CellRun
  import opened FakeCells
  import Knee

  datatype Params = Params(
    campaignId: string,
    seqLens: seq<int>,
    batchSizes: seq<int>,
    nSamples: int,
    theoryBpt: int,
    blockSize: int,
    decodeTokens: int,
    totalBlocks: int,
    fixedOverheadBytes: int)

  datatype Campaign = Campaign(cells: seq<Cell>, theoryBpt: int, regression: RegressionFit, knee: Knee.KneePoint)

  datatype DryRunError =
    | TooFewCells | ZeroBlockSize | BadBlockSize | BadOverhead | BadPool
    | CellFailed(cell: CellError)
    | FitFailed(fit: FitError)
    | BadInjected | ZeroSeqLen | SlopeOutside | LowR2
    | KneeFailed(knee: Knee.KneeError)

  // ---------- the grid ----------

  /** `seq_lens or [...]`. */
  function SeqLens(p: Params): seq<int> {
    if p.seqLens == [] then [512, 2048, 8192] else p.seqLens
  }

  function BatchSizes(p: Params): seq<int> {
    if p.batchSizes == [] then [1, 4, 16] else p.batchSizes
  }

  function Row(seqLen: int, batches: seq<int>): (r: seq<(int, int)>)
    ensures |r| == |batches| && forall i :: 0 <= i < |r| ==> r[i] == (seqLen, batches[i])
  {
    seq(|batches|, i requires 0 <= i < |batches| => (seqLen, batches[i]))
  }

  /** (seq_len, batch_size) pairs in nested-loop order. */
  function Grid(seqLens: seq<int>, batches: seq<int>): seq<(int, int)> {
    if seqLens == [] then [] else Grid(seqLens[..|seqLens| - 1], batches) + Row(seqLens[|seqLens| - 1], batches)
  }

  function GridOf(p: Params): seq<(int, int)> {
    Grid(SeqLens(p), BatchSizes(p))
  }

  /** Blocks of one cell at full length. */
  function FullBlocks(p: Params, pair: (int, int)): int
    requires p.blockSize > 0
  {
    pair.1 * CeilDiv(pair.0 + CellDecodeTokens(p.decodeTokens), p.blockSize)
  }

  function Needed(p: Params, grid: seq<(int, int)>): (n: int)
    requires p.blockSize > 0 && grid != []
    ensures forall g :: g in grid ==> FullBlocks(p, g) <= n
    ensures exists g :: g in grid && FullBlocks(p, g) == n
  {
    var k := |grid| - 1;
    assert grid == grid[..k] + [grid[k]];
    if k == 0 then FullBlocks(p, grid[0]) else Max(Needed(p, grid[..k]), FullBlocks(p, grid[k]))
  }

  function PoolBlocks(p: Params): int
    requires p.blockSize > 0 && GridOf(p) != []
  {
    Max(p.totalBlocks, Needed(p, GridOf(p)) + 64)
  }

  /** Blocks of a cell at full length: every prompt with at least 30 decoded tokens, in whole blocks. */
  ghost predicate NeedsBlocks(p: Params, pair: (int, int), blocks: int)
    requires p.blockSize > 0
  {
    exists c :: blocks == pair.1 * c && IsCeiling(pair.0 + Max(p.decodeTokens, 30), p.blockSize, c)
  }

  ghost predicate IsCeiling(a: int, b: int, c: int) {
    a <= c * b < a + b
  }

  /** The pool is the asked size, or 64 blocks more than the largest cell needs if that is more. */
  lemma PoolMeaning(p: Params)
    requires p.blockSize > 0 && GridOf(p) != []
    ensures PoolBlocks(p) >= p.totalBlocks
    ensures forall g, n :: g in GridOf(p) && NeedsBlocks(p, g, n) ==> n + 64 <= PoolBlocks(p)
    ensures PoolBlocks(p) == p.totalBlocks || exists g :: g in GridOf(p) && NeedsBlocks(p, g, PoolBlocks(p) - 64)
  {
    hide GridOf;
    var x := Needed(p, GridOf(p));
    forall g, n | g in GridOf(p) && NeedsBlocks(p, g, n) ensures n + 64 <= PoolBlocks(p) {
      var c :| n == g.1 * c && IsCeiling(g.0 + Max(p.decodeTokens, 30), p.blockSize, c);
      CeilDivUnique(g.0 + Max(p.decodeTokens, 30), p.blockSize, c);
    }
    var g :| g in GridOf(p) && FullBlocks(p, g) == x;
    assert IsCeiling(g.0 + Max(p.decodeTokens, 30), p.blockSize, CeilDiv(g.0 + Max(p.decodeTokens, 30), p.blockSize));
    assert NeedsBlocks(p, g, x);
  }

  function ContextOf(p: Params): SweepContext {
    SweepContext(p.campaignId, p.theoryBpt, p.fixedOverheadBytes, p.blockSize, p.decodeTokens, 8192)
  }

  /** A cell's step budget: one step for each 8192 prompt tokens begun, one for each decoded token, at least 30, and 8 more. */
  lemma StepBudget(p: Params, seqLen: nat, batch: nat, i: nat) returns (chunks: int)
    ensures IsCeiling(batch * seqLen, 8192, chunks)
    ensures Sampler.MaxSteps(SampleConfig(ContextOf(p), seqLen, batch, i)) == chunks + Max(p.decodeTokens, 30) + 8
  {
    chunks := PrefillChunks(batch, seqLen, 8192);
    var b: int := batch;
    assert -b * seqLen == -(batch * seqLen);
  }

  /** The first `n` cells of the sweep. */
  function CellsUpTo<S>(b: Behaviour<S>, ctx: SweepContext, grid: seq<(int, int)>, nSamples: int, s: S, n: nat)
    : (S, Result<seq<Cell>, CellError>)
    requires n <= |grid|
    decreases n
  {
    if n == 0 then (s, Ok([]))
    else
      var (s1, front) := CellsUpTo(b, ctx, grid, nSamples, s, n - 1);
      if front.Err? then (s1, front)
      else
        var (seqLen, batch) := grid[n - 1];
        var (s2, c) := CellOutcome(b, ctx, seqLen, batch, nSamples, if batch >= 0 then batch else 0, s1);
        (s2, if c.Err? then Err(c.error) else Ok(front.value + [c.value]))
  }

  // ---------- regression, gate, knee ----------

  function TokensOf(cells: seq<Cell>): (xs: seq<real>)
    ensures |xs| == |cells|
  {
    seq(|cells|, i requires 0 <= i < |cells| => cells[i].totalTokens as real)
  }

  /** Cells are valid, so they hold at least one sample. */
  predicate AllValid(cells: seq<Cell>) {
    forall i :: 0 <= i < |cells| ==> ValidCell(cells[i])
  }

  function BytesOf(cells: seq<Cell>): (ys: seq<real>)
    requires AllValid(cells)
    ensures |ys| == |cells|
  {
    seq(|cells|, i requires 0 <= i < |cells| => P50Bytes(cells[i]))
  }

  function PointsOf(cells: seq<Cell>): (ps: seq<Knee.Point>)
    requires AllValid(cells)
    ensures |ps| == |cells|
  {
    seq(|cells|, i requires 0 <= i < |cells| => Knee.Point(cells[i].totalTokens, P50Bytes(cells[i]), cells[i].batchSize))
  }

  function Minimum(xs: seq<int>): (m: int)
    requires xs != []
    ensures m in xs && forall i :: 0 <= i < |xs| ==> m <= xs[i]
  {
    var k := |xs| - 1;
    if k == 0 then xs[0]
    else
      assert forall i :: 0 <= i < k ==> xs[i] == xs[..k][i];
      Min(Minimum(xs[..k]), xs[k])
  }

  /** The slope half of the gate: within block-quantisation bounds of the injected value. */
  predicate SlopeInRange(slope: real, injected: int, blockSize: int, minSeqLen: int)
    requires minSeqLen != 0
  {
    Prod(injected as real, 0.999) <= slope
      <= Prod(injected as real, 1.0 + Quot(blockSize as real, minSeqLen as real))
  }

  function Gate(f: RegressionFit, injected: int, blockSize: int, minSeqLen: int): Result<(), DryRunError> {
    if injected <= 0 then Err(BadInjected)
    else if minSeqLen == 0 then Err(ZeroSeqLen)
    else if !SlopeInRange(f.slope, injected, blockSize, minSeqLen) then Err(SlopeOutside)
    else if f.r2 < 0.98 then Err(LowR2)
    else Ok(())
  }

  function Finish(p: Params, cells: seq<Cell>): Result<Campaign, DryRunError>
    requires AllValid(cells) && SeqLens(p) != []
  {
    var fit := Fit(TokensOf(cells), BytesOf(cells));
    if fit.Err? then Err(FitFailed(fit.error))
    else
      var gate := Gate(fit.value, p.theoryBpt, p.blockSize, Minimum(SeqLens(p)));
      if gate.Err? then Err(gate.error)
      else
        var knee := Knee.FindKnee(PointsOf(cells), p.fixedOverheadBytes);
        if knee.Err? then Err(KneeFailed(knee.error))
        else Ok(Campaign(cells, p.theoryBpt, fit.value, knee.value))
  }

  lemma {:induction false} GridSize(seqLens: seq<int>, batches: seq<int>)
    ensures |Grid(seqLens, batches)| == |seqLens| * |batches|
  {
    if seqLens != [] {
      GridSize(seqLens[..|seqLens| - 1], batches);
      assert |seqLens| * |batches| == (|seqLens| - 1) * |batches| + |batches|;
    }
  }

  /** Checks made before any cell runs; sizing the pool divides by the block size. */
  function Precheck(p: Params): Result<(), DryRunError> {
    if |GridOf(p)| < 2 then Err(TooFewCells)
    else if p.blockSize == 0 then Err(ZeroBlockSize)
    else if p.blockSize < 0 then Err(BadBlockSize)
    else if p.fixedOverheadBytes <= 0 then Err(BadOverhead)
    else if PoolBlocks(p) <= 0 then Err(BadPool)
    else Ok(())
  }

  const EMPTY_ENGINE := FakeState([], 0, 0, 0)

  function EngineOf(p: Params): Behaviour<FakeState>
    requires Precheck(p).Ok?
  {
    FakeBehaviour(PlainSetup(PoolBlocks(p), p.blockSize))
  }

  function SweepCells(p: Params): Result<seq<Cell>, CellError>
    requires Precheck(p).Ok?
  {
    CellsUpTo(EngineOf(p), ContextOf(p), GridOf(p), p.nSamples, EMPTY_ENGINE, |GridOf(p)|).1
  }

  lemma BuiltCellValid<S>(b: Behaviour<S>, ctx: SweepContext, seqLen: int, batch: int, n: int, prompts: nat, s: S)
    requires CellOutcome(b, ctx, seqLen, batch, n, prompts, s).1.Ok?
    ensures ValidCell(CellOutcome(b, ctx, seqLen, batch, n, prompts, s).1.value)
  {
    hide SamplesUpTo;
  }

  lemma NoCells<S>(b: Behaviour<S>, ctx: SweepContext, grid: seq<(int, int)>, nSamples: int, s: S)
    ensures CellsUpTo(b, ctx, grid, nSamples, s, 0) == (s, Ok([]))
  {}

  /** One more cell of a sweep that succeeds. */
  lemma CellsNext<S>(b: Behaviour<S>, ctx: SweepContext, grid: seq<(int, int)>, nSamples: int, s: S, n: nat)
    requires 0 < n <= |grid| && CellsUpTo(b, ctx, grid, nSamples, s, n).1.Ok?
    ensures var (s1, front) := CellsUpTo(b, ctx, grid, nSamples, s, n - 1);
            var (seqLen, batch) := grid[n - 1];
            var c := CellOutcome(b, ctx, seqLen, batch, nSamples, if batch >= 0 then batch else 0, s1).1;
            front.Ok? && c.Ok? && CellsUpTo(b, ctx, grid, nSamples, s, n).1.value == front.value + [c.value]
  {
    hide CellOutcome;
  }

  lemma {:induction false} SweepValid<S>(b: Behaviour<S>, ctx: SweepContext, grid: seq<(int, int)>, nSamples: int, s: S, n: nat)
    requires n <= |grid| && CellsUpTo(b, ctx, grid, nSamples, s, n).1.Ok?
    ensures var cells := CellsUpTo(b, ctx, grid, nSamples, s, n).1.value; |cells| == n && AllValid(cells)
    decreases n
  {
    hide CellOutcome, ValidCell, CellsUpTo;
    if n == 0 {
      NoCells(b, ctx, grid, nSamples, s);
    } else {
      CellsNext(b, ctx, grid, nSamples, s, n);
      SweepValid(b, ctx, grid, nSamples, s, n - 1);
      var (seqLen, batch) := grid[n - 1];
      BuiltCellValid(b, ctx, seqLen, batch, nSamples, if batch >= 0 then batch else 0,
                     CellsUpTo(b, ctx, grid, nSamples, s, n - 1).0);
    }
  }

  function Outcome(p: Params): Result<Campaign, DryRunError> {
    var pre := Precheck(p);
    if pre.Err? then Err(pre.error)
    else
      var cells := SweepCells(p);
      if cells.Err? then Err(CellFailed(cells.error))
      else
        SweepValid(EngineOf(p), ContextOf(p), GridOf(p), p.nSamples, EMPTY_ENGINE, |GridOf(p)|);
        Finish(p, cells.value)
  }

  // ---------- the imperative form ----------

  lemma CellsErrorNext<S>(b: Behaviour<S>, ctx: SweepContext, grid: seq<(int, int)>, nSamples: int, s: S, i: nat)
    requires i < |grid| && CellsUpTo(b, ctx, grid, nSamples, s, i).1.Err?
    ensures CellsUpTo(b, ctx, grid, nSamples, s, i + 1) == CellsUpTo(b, ctx, grid, nSamples, s, i)
  {
    hide CellOutcome;
  }

  lemma {:induction false} SweepErrorStays<S>(b: Behaviour<S>, ctx: SweepContext, grid: seq<(int, int)>, nSamples: int,
                                              s: S, i: nat, n: nat)
    requires i <= n <= |grid| && CellsUpTo(b, ctx, grid, nSamples, s, i).1.Err?
    ensures CellsUpTo(b, ctx, grid, nSamples, s, n) == CellsUpTo(b, ctx, grid, nSamples, s, i)
    decreases n - i
  {
    hide CellsUpTo;
    if i < n {
      CellsErrorNext(b, ctx, grid, nSamples, s, i);
      SweepErrorStays(b, ctx, grid, nSamples, s, i + 1, n);
    }
  }

  /** Position `j` of row `i` in the grid. */
  lemma {:induction false} GridIndex(seqLens: seq<int>, batches: seq<int>, i: nat, j: nat)
    requires i < |seqLens| && j < |batches|
    ensures 0 <= i * |batches| + j < |Grid(seqLens, batches)|
    ensures Grid(seqLens, batches)[i * |batches| + j] == (seqLens[i], batches[j])
  {
    var m := |seqLens| - 1;
    GridSize(seqLens[..m], batches);
    GridSize(seqLens, batches);
    if i < m {
      GridIndex(seqLens[..m], batches, i, j);
    }
  }

  method Sweep<S>(driver: Driver<S>, ctx: SweepContext, seqLens: seq<int>, batches: seq<int>, nSamples: int)
    returns (r: Result<seq<Cell>, CellError>)
    modifies driver
    ensures var grid := Grid(seqLens, batches);
            (driver.state, r) == CellsUpTo(driver.engine, ctx, grid, nSamples, old(driver.state), |grid|)
  {
    hide CellOutcome;
    ghost var grid := Grid(seqLens, batches);
    GridSize(seqLens, batches);
    var cells: seq<Cell> := [];
    ghost var done: nat := 0;
    for i := 0 to |seqLens|
      invariant done == i * |batches| <= |grid|
      invariant CellsUpTo(driver.engine, ctx, grid, nSamples, old(driver.state), done) == (driver.state, Ok(cells))
    {
      NextRow(i, |seqLens|, |batches|);
      for j := 0 to |batches|
        invariant done == i * |batches| + j <= |grid|
        invariant CellsUpTo(driver.engine, ctx, grid, nSamples, old(driver.state), done) == (driver.state, Ok(cells))
      {
        GridIndex(seqLens, batches, i, j);
        var seqLen, batch := seqLens[i], batches[j];
        var c := RunCell(driver, ctx, seqLen, batch, nSamples, if batch >= 0 then batch else 0);
        done := done + 1;
        if c.Err? {
          SweepErrorStays(driver.engine, ctx, grid, nSamples, old(driver.state), done, |grid|);
          return Err(c.error);
        }
        cells := cells + [c.value];
      }
    }
    return Ok(cells);
  }

  lemma NextRow(i: nat, m: nat, k: nat)
    requires i < m
    ensures (i + 1) * k == i * k + k <= m * k
  {
    MulMonotone(i + 1, m, k);
  }

  method RunDryRun(p: Params) returns (r: Result<Campaign, DryRunError>)
    ensures r == Outcome(p)
  {
    var pre := Precheck(p);
    if pre.Err? {
      return Err(pre.error);
    }
    var driver := new Driver<FakeState>(EngineOf(p), EMPTY_ENGINE);
    var cells := Sweep(driver, ContextOf(p), SeqLens(p), BatchSizes(p), p.nSamples);
    if cells.Err? {
      return Err(CellFailed(cells.error));
    }
    SweepValid(EngineOf(p), ContextOf(p), GridOf(p), p.nSamples, EMPTY_ENGINE, |GridOf(p)|);
    r := Finish(p, cells.value);
  }
}
