/** What a repeated grid size does to the dry run: request ids are reused, and the engine refuses them. */
module DryRunDuplicates {
  import opened Prelude
  import opened Engine
  import opened Sampler
  import opened FakeEngine
  import opened Stagger
  import opened StaggerOutcome
  import opened RequestIds
  import opened CellRun
  import opened FakeCells
  import opened DryRun
  import opened DryRunTheory

  /** The first request of the cell's first sample is in the engine's table. */
  ghost predicate Used(s: FakeState, campaign: string, seqLen: nat, batch: nat) {
    exists j :: 0 <= j < |s.requests| && s.requests[j].id == RequestId(campaign, seqLen, batch, 0, 0)
  }

  // ---------- ids are never forgotten ----------

  lemma SampleUses(ctx: SweepContext, pool: nat, seqLen: nat, batch: nat, s: FakeState, i: nat)
    requires ctx.maxBatchedTokens != 0 && ctx.blockSize > 0 && batch > 0
    requires Shape(PlainSetup(pool, ctx.blockSize), SampleConfig(ctx, seqLen, batch, i))
    ensures var s' := RestedAfter(PlainSetup(pool, ctx.blockSize), SampleConfig(ctx, seqLen, batch, i), s, 1);
            s.requests <= s'.requests && (i == 0 ==> Used(s', ctx.campaignId, seqLen, batch))
  {
    hide RequestId, PrefillChunks, Shape, Limit;
    var p, c := PlainSetup(pool, ctx.blockSize), SampleConfig(ctx, seqLen, batch, i);
    RequestsAtIndex(p, c, |c.ids|, Limit(p, c));
    var s' := RestedAfter(p, c, s, 1);
    assert s'.requests[|s.requests|].id == RequestId(ctx.campaignId, seqLen, batch, i, 0);
  }

  lemma {:induction false} SamplesUse(ctx: SweepContext, pool: nat, seqLen: nat, batch: nat, s: FakeState, n: nat)
    requires GoodCell(ctx, pool, seqLen, batch)
    requires Quiet(PlainSetup(pool, ctx.blockSize), s) && Clear(s, ctx.campaignId, seqLen, batch, 0)
    ensures var s' := SamplesUpTo(FakeBehaviour(PlainSetup(pool, ctx.blockSize)), ctx, seqLen, batch, s, n).0;
            s.requests <= s'.requests && (n > 0 ==> Used(s', ctx.campaignId, seqLen, batch))
    decreases n
  {
    hide Sample, SampleConfig, FakeBehaviour, Clear, Quiet, RestedAfter, Shape, RequestId, CellBytes, CellTokens;
    if n > 0 {
      var p := PlainSetup(pool, ctx.blockSize);
      SamplesUse(ctx, pool, seqLen, batch, s, n - 1);
      SamplesOnFake(ctx, pool, seqLen, batch, s, n - 1);
      var s1 := SamplesUpTo(FakeBehaviour(p), ctx, seqLen, batch, s, n - 1).0;
      SampleOnFake(ctx, pool, seqLen, batch, s1, n - 1);
      SampleUses(ctx, pool, seqLen, batch, s1, n - 1);
    }
  }

  lemma UsedStays(s: FakeState, s': FakeState, campaign: string, seqLen: nat, batch: nat)
    requires Used(s, campaign, seqLen, batch) && s.requests <= s'.requests
    ensures Used(s', campaign, seqLen, batch)
  {
    hide RequestId;
    var j :| 0 <= j < |s.requests| && s.requests[j].id == RequestId(campaign, seqLen, batch, 0, 0);
    assert s'.requests[j] == s.requests[j];
  }

  /** Over distinct cells, every cell done so far has its ids in the table. */
  ghost predicate AllUsed(p: Params, n: nat, s: FakeState)
    requires ReadyCells(p) && n <= |GridOf(p)|
  {
    forall t :: 0 <= t < n ==> Used(s, p.campaignId, GridOf(p)[t].0, GridOf(p)[t].1)
  }

  lemma NextUsed(p: Params, m: nat, n: nat, run: (FakeState, Result<seq<Cell>, CellError>))
    requires ReadyUpTo(p, m) && n < m && SweepIs(p, m, n, run) && AllUsed(p, n, run.0)
    ensures var (seqLen, batch) := GridOf(p)[n];
            AllUsed(p, n + 1, CellOutcome(EngineOf(p), ContextOf(p), seqLen, batch, p.nSamples, batch, run.0).0)
  {
    hide GridOf, PoolBlocks, Clear, CellIs, GoodCell, Quiet, SamplesUpTo, Used, BuildCell;
    var (seqLen, batch) := GridOf(p)[n];
    assert EngineOf(p) == FakeBehaviour(PlainSetup(PoolBlocks(p), p.blockSize));
    SamplesUse(ContextOf(p), PoolBlocks(p), seqLen, batch, run.0, p.nSamples);
    var s' := CellOutcome(EngineOf(p), ContextOf(p), seqLen, batch, p.nSamples, batch, run.0).0;
    forall t | 0 <= t < n ensures Used(s', p.campaignId, GridOf(p)[t].0, GridOf(p)[t].1) {
      UsedStays(run.0, s', p.campaignId, GridOf(p)[t].0, GridOf(p)[t].1);
    }
  }

  function SweepAt(p: Params, n: nat): (FakeState, Result<seq<Cell>, CellError>)
    requires Precheck(p).Ok? && n <= |GridOf(p)|
  {
    CellsUpTo(EngineOf(p), ContextOf(p), GridOf(p), p.nSamples, EMPTY_ENGINE, n)
  }

  lemma UsedStep(p: Params, m: nat, n: nat)
    requires ReadyUpTo(p, m) && 0 < n <= m
    requires SweepIs(p, m, n - 1, SweepAt(p, n - 1)) && AllUsed(p, n - 1, SweepAt(p, n - 1).0)
    ensures AllUsed(p, n, SweepAt(p, n).0)
  {
    hide GridOf, PoolBlocks, CellOutcome, GoodCell, EngineOf, Precheck, ContextOf, SweepIs, CellsUpTo, AllUsed;
    NextUsed(p, m, n - 1, SweepAt(p, n - 1));
    StepOk(p, m, n - 1, SweepAt(p, n - 1));
    SweepUnfolds(EngineOf(p), ContextOf(p), GridOf(p), p.nSamples, n);
  }

  lemma {:induction false} PrefixUsed(p: Params, m: nat, n: nat)
    requires ReadyUpTo(p, m) && n <= m
    ensures SweepIs(p, m, n, SweepAt(p, n)) && AllUsed(p, n, SweepAt(p, n).0)
    decreases n
  {
    hide ReadyUpTo, ReadyCells, SweepIs, CellsUpTo, GridOf, EngineOf, ContextOf, Precheck, PoolBlocks, Used;
    InGrid(p, m);
    SweepOnFake(p, m, n);
    if n > 0 {
      PrefixUsed(p, m, n - 1);
      UsedStep(p, m, n);
    }
  }

  lemma StepOk(p: Params, m: nat, n: nat, run: (FakeState, Result<seq<Cell>, CellError>))
    requires ReadyUpTo(p, m) && n <= m && SweepIs(p, m, n, run)
    ensures run.1.Ok?
  {}

  // ---------- a repeated cell is refused ----------

  /** The first `add_request` of a cell whose ids are in the table raises, and the cell fails with it. */
  lemma UsedCellFails(p: Setup, ctx: SweepContext, seqLen: nat, batch: nat, nSamples: nat, s: FakeState)
    requires p.blockSize > 0 && p.totalBlocks > 0 && ctx.maxBatchedTokens != 0 && ctx.theoryBpt > 0 && ctx.blockSize > 0
    requires seqLen > 0 && batch > 0 && nSamples > 0 && Used(s, ctx.campaignId, seqLen, batch)
    ensures CellOutcome(FakeBehaviour(p), ctx, seqLen, batch, nSamples, batch, s).1 == Err(SampleFailed(EngineRaised))
  {
    hide RequestId, PrefillChunks;
    var b, c := FakeBehaviour(p), SampleConfig(ctx, seqLen, batch, 0);
    var q := Request(c.ids[0], c.promptLens[0], c.decodeTokens, c.ignoreEos);
    assert Added(p, s, q).1.Raised?;
    assert AddUpTo(b, c, s, 0) == (s, Answer(()));
    assert AddUpTo(b, c, s, 1) == Added(p, s, q);
    AddRaised(b, c, s, 1, |c.ids|);
    assert Sample(b, c, s).result == Err(EngineRaised);
    assert SamplesUpTo(b, ctx, seqLen, batch, s, 0) == (s, Ok([]));
    assert SamplesUpTo(b, ctx, seqLen, batch, s, 1).1 == Err(EngineRaised);
    SampleErrorStays(b, ctx, seqLen, batch, s, 1, nSamples);
  }

  /** `m` is the first cell that repeats an earlier one. */
  ghost predicate FirstRepeat(grid: seq<(int, int)>, t: nat, m: nat) {
    && t < m < |grid| && grid[t] == grid[m]
    && forall i, j :: 0 <= i < j < m ==> grid[i] != grid[j]
  }

  lemma {:induction false} FindRepeat(grid: seq<(int, int)>, i: nat, j: nat) returns (t: nat, m: nat)
    requires i < j < |grid| && grid[i] == grid[j]
    ensures FirstRepeat(grid, t, m)
    decreases j
  {
    if a, b :| 0 <= a < b < j && grid[a] == grid[b] {
      t, m := FindRepeat(grid, a, b);
    } else {
      t, m := i, j;
    }
  }

  lemma RepeatRefused(p: Params, t: nat, m: nat)
    requires GoodSizes(p) && Precheck(p).Ok? && FirstRepeat(GridOf(p), t, m)
    ensures SweepCells(p) == Err(SampleFailed(EngineRaised))
  {
    hide ReadyCells, GridOf, PoolBlocks, CellOutcome, GoodCell, CellsUpTo, EngineOf, ContextOf, Precheck, FirstRepeat;
    GoodSizesCells(p);
    RepeatInGrid(GridOf(p), t, m);
    RepeatStep(p, t, m);
    SweepErrorStays(EngineOf(p), ContextOf(p), GridOf(p), p.nSamples, EMPTY_ENGINE, m + 1, |GridOf(p)|);
  }

  lemma RepeatInGrid(grid: seq<(int, int)>, t: nat, m: nat)
    requires FirstRepeat(grid, t, m)
    ensures m < |grid|
  {}

  lemma RepeatStep(p: Params, t: nat, m: nat)
    requires GoodSizes(p) && ReadyCells(p) && FirstRepeat(GridOf(p), t, m)
    ensures SweepAt(p, m + 1).1 == Err(SampleFailed(EngineRaised))
  {
    hide GridOf, PoolBlocks, CellOutcome, GoodCell, CellsUpTo, SweepIs;
    assert ReadyUpTo(p, m);
    PrefixUsed(p, m, m);
    StepOk(p, m, m, SweepAt(p, m));
    var (seqLen, batch) := GridOf(p)[m];
    PoolPositive(p);
    assert EngineOf(p) == FakeBehaviour(PlainSetup(PoolBlocks(p), p.blockSize));
    UsedCellFails(PlainSetup(PoolBlocks(p), p.blockSize), ContextOf(p), seqLen, batch, p.nSamples, SweepAt(p, m).0);
    SweepUnfolds(EngineOf(p), ContextOf(p), GridOf(p), p.nSamples, m + 1);
  }

  lemma PoolPositive(p: Params)
    requires ReadyCells(p)
    ensures GridOf(p) != [] && PoolBlocks(p) > 0
  {
    assert GoodCell(ContextOf(p), PoolBlocks(p), GridOf(p)[0].0, GridOf(p)[0].1);
  }

  /** A size listed twice lists a cell twice. */
  lemma RepeatedSize(seqLens: seq<int>, batches: seq<int>) returns (i: nat, j: nat)
    requires seqLens != [] && batches != [] && !(DistinctInts(seqLens) && DistinctInts(batches))
    ensures i < j < |Grid(seqLens, batches)| && Grid(seqLens, batches)[i] == Grid(seqLens, batches)[j]
  {
    var k := |batches|;
    if a, b :| 0 <= a < b < |batches| && batches[a] == batches[b] {
      GridIndex(seqLens, batches, 0, a);
      GridIndex(seqLens, batches, 0, b);
      i, j := a, b;
    } else {
      var a, b :| 0 <= a < b < |seqLens| && seqLens[a] == seqLens[b];
      GridIndex(seqLens, batches, a, 0);
      GridIndex(seqLens, batches, b, 0);
      MulMonotone(a + 1, b, k);
      assert (a + 1) * k == a * k + k;
      i, j := a * k, b * k;
    }
  }

  /**
   On positive sizes the dry run's sweep succeeds if and only if no size is listed twice;
   a repeated size reuses request ids and is refused by the engine, not by any gate.
   */
  lemma SweepSucceedsIffDistinct(p: Params)
    requires GoodSizes(p)
    ensures Precheck(p).Ok?
    ensures SweepCells(p).Ok? <==> DistinctInts(SeqLens(p)) && DistinctInts(BatchSizes(p))
    ensures SweepCells(p).Err? ==> SweepCells(p).error == SampleFailed(EngineRaised)
  {
    hide SweepCells, ReadyCells, Grid, Precheck, DistinctInts, CellTokens, CellBytes;
    GoodSizesCells(p);
    if DistinctInts(SeqLens(p)) && DistinctInts(BatchSizes(p)) {
      SweepClosedForm(p);
    } else {
      var i, j := RepeatedSize(SeqLens(p), BatchSizes(p));
      var t, m := FindRepeat(GridOf(p), i, j);
      RepeatRefused(p, t, m);
    }
  }
}
