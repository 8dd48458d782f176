/** Cells measured on the plain fake engine: every request starts on the first step. */
module FakeCells {
  import opened Prelude
  import opened Percentile
  import opened Sampler
  import opened FakeEngine
  import opened Stagger
  import opened StaggerOutcome
  import opened RequestIds
  import opened CellRun

  function PlainSetup(pool: nat, blockSize: nat): Setup {
    Setup(pool, blockSize, None, (k: nat) => 1)
  }

  /** Between samples: nothing running, nothing held. */
  ghost predicate Quiet(p: Setup, s: FakeState) {
    && Valid(p, s) && s.steps == 0 && s.added == 0
    && forall j :: 0 <= j < |s.requests| ==> s.requests[j].finished
  }

  /** No request of sample `n` or later of this cell has been added yet. */
  ghost predicate Clear(s: FakeState, campaign: string, seqLen: nat, batch: nat, n: nat) {
    forall j, i: nat, k: nat :: 0 <= j < |s.requests| && n <= i ==>
      s.requests[j].id != RequestId(campaign, seqLen, batch, i, k)
  }

  /** Tokens of one request when decode is read: its prompt and all but the last of its decoded tokens, at least 30. */
  function FullLength(ctx: SweepContext, seqLen: nat): int {
    seqLen + Max(ctx.decodeTokens, 30) - 1
  }

  /** What the sampler is asked for, and that the pool can hold it. */
  ghost predicate GoodCell(ctx: SweepContext, pool: nat, seqLen: nat, batch: nat) {
    && seqLen > 0 && batch > 0 && pool > 0
    && ctx.theoryBpt > 0 && ctx.blockSize > 0 && ctx.baselineBytes >= 0 && ctx.maxBatchedTokens > 0
    && batch * CeilDiv(FullLength(ctx, seqLen), ctx.blockSize) <= pool
  }

  function CellTokens(ctx: SweepContext, seqLen: nat, batch: nat): nat {
    batch * FullLength(ctx, seqLen)
  }

  function CellBlocks(ctx: SweepContext, seqLen: nat, batch: nat): int
    requires ctx.blockSize > 0
  {
    batch * CeilDiv(FullLength(ctx, seqLen), ctx.blockSize)
  }

  function CellBytes(ctx: SweepContext, seqLen: nat, batch: nat): int
    requires ctx.blockSize > 0
  {
    CellBlocks(ctx, seqLen, batch) * ctx.blockSize * ctx.theoryBpt
  }

  /** The reading before: every prompt and one token. */
  function CellPrefillBytes(ctx: SweepContext, seqLen: nat, batch: nat): int
    requires ctx.blockSize > 0
  {
    batch * CeilDiv(seqLen + 1, ctx.blockSize) * ctx.blockSize * ctx.theoryBpt
  }

  // ---------- one sample ----------

  lemma ChunksNonneg(batch: int, seqLen: int, max: int)
    requires batch >= 0 && seqLen >= 0 && max > 0
    ensures PrefillChunks(batch, seqLen, max) >= 0
  {
    var x := -batch * seqLen;
    assert batch * seqLen >= 0 && x == -(batch * seqLen);
    var q := FloorDiv(x, max);
    QuotientOrder(q, 0, max);
  }

  lemma IdsDistinct(ctx: SweepContext, seqLen: nat, batch: nat, i: nat)
    requires ctx.maxBatchedTokens != 0
    ensures DistinctStrings(SampleConfig(ctx, seqLen, batch, i).ids)
  {
    hide RequestId;
    var c := SampleConfig(ctx, seqLen, batch, i);
    forall a, b | 0 <= a < b < |c.ids| ensures c.ids[a] != c.ids[b] {
      if c.ids[a] == c.ids[b] {
        RequestIdInjective(ctx.campaignId, seqLen, batch, i, a, seqLen, batch, i, b);
      }
    }
  }

  lemma ConfigReady(ctx: SweepContext, pool: nat, seqLen: nat, batch: nat, s: FakeState, i: nat)
    requires GoodCell(ctx, pool, seqLen, batch)
    requires Quiet(PlainSetup(pool, ctx.blockSize), s) && Clear(s, ctx.campaignId, seqLen, batch, i)
    ensures var p, c := PlainSetup(pool, ctx.blockSize), SampleConfig(ctx, seqLen, batch, i);
            && Ready(p, c, s) && Shape(p, c) && Spread(p, c, 1, 1)
            && c.blockSize == p.blockSize && Limit(p, c) == CellDecodeTokens(ctx.decodeTokens)
            && MaxSteps(c) >= CellDecodeTokens(ctx.decodeTokens) + 8
  {
    hide RequestId, PrefillChunks, Valid;
    var p, c := PlainSetup(pool, ctx.blockSize), SampleConfig(ctx, seqLen, batch, i);
    IdsDistinct(ctx, seqLen, batch, i);
    ChunksNonneg(batch, seqLen, ctx.maxBatchedTokens);
    assert p.firstStep(0) == 1;
  }

  lemma {:induction false} UniformSums(ctx: SweepContext, pool: nat, seqLen: nat, batch: nat, i: nat, n: nat, t: nat)
    requires GoodCell(ctx, pool, seqLen, batch) && n <= batch
    ensures var p, c := PlainSetup(pool, ctx.blockSize), SampleConfig(ctx, seqLen, batch, i);
            && |c.ids| == |c.promptLens| == batch
            && AliveBlocks(p, c, n, t) == n * CeilDiv(seqLen + t, ctx.blockSize)
            && AliveTokens(p, c, n, t) == n * (seqLen + t)
  {
    hide RequestId, PrefillChunks, CeilDiv;
    if n > 0 {
      UniformSums(ctx, pool, seqLen, batch, i, n - 1, t);
      OneMoreTimes(n, CeilDiv(seqLen + t, ctx.blockSize));
      OneMoreTimes(n, seqLen + t);
    }
  }

  lemma OneMoreTimes(n: int, x: int)
    ensures n * x == (n - 1) * x + x
  {}

  lemma {:induction false} UniformCapacity(ctx: SweepContext, pool: nat, seqLen: nat, batch: nat, i: nat, n: nat)
    requires GoodCell(ctx, pool, seqLen, batch) && n <= batch
    requires Shape(PlainSetup(pool, ctx.blockSize), SampleConfig(ctx, seqLen, batch, i))
    ensures var p, c := PlainSetup(pool, ctx.blockSize), SampleConfig(ctx, seqLen, batch, i);
            && |c.ids| == batch
            && Capacity(p, c, n) == n * CeilDiv(seqLen + CellDecodeTokens(ctx.decodeTokens) - 1, ctx.blockSize)
  {
    hide RequestId, PrefillChunks, CeilDiv, Shape, DistinctStrings;
    if n > 0 {
      UniformCapacity(ctx, pool, seqLen, batch, i, n - 1);
      OneMoreTimes(n, CeilDiv(seqLen + CellDecodeTokens(ctx.decodeTokens) - 1, ctx.blockSize));
    }
  }

  /** One sample of a cell on the plain engine. */
  ghost predicate SampleIs(ctx: SweepContext, pool: nat, seqLen: nat, batch: nat, run: SampleRun<FakeState>)
    requires ctx.blockSize > 0
  {
    && run.result.Ok?
    && run.result.value.kvBytesDecode == CellBytes(ctx, seqLen, batch)
    && run.result.value.kvBytesPrefill == CellPrefillBytes(ctx, seqLen, batch)
    && run.result.value.liveTokensDecode == CellTokens(ctx, seqLen, batch)
    && Quiet(PlainSetup(pool, ctx.blockSize), run.state)
  }

  lemma AllFinishedAt(p: Setup, c: Config, t: nat)
    requires Shape(p, c) && Spread(p, c, 1, 1) && t >= Limit(p, c)
    ensures forall i: nat :: i < |c.ids| ==> RequestAt(p, c, i, t).freed && Coherent(p, RequestAt(p, c, i, t))
  {}

  lemma RestedQuiet(p: Setup, c: Config, s: FakeState)
    requires Ready(p, c, s) && Shape(p, c) && Spread(p, c, 1, 1)
    ensures Quiet(p, RestedAfter(p, c, s, 1))
  {
    var t := Limit(p, c);
    RequestsAtIndex(p, c, |c.ids|, t);
    AllFinishedAt(p, c, t);
    hide RequestAt, RequestsAt, Limit, Shape, Spread, UsedBy;
    var rs := s.requests + RequestsAt(p, c, |c.ids|, t);
    FreedHoldNothing(p, rs);
  }

  lemma SampleOnFake(ctx: SweepContext, pool: nat, seqLen: nat, batch: nat, s: FakeState, i: nat)
    requires GoodCell(ctx, pool, seqLen, batch)
    requires Quiet(PlainSetup(pool, ctx.blockSize), s) && Clear(s, ctx.campaignId, seqLen, batch, i)
    ensures var p, c := PlainSetup(pool, ctx.blockSize), SampleConfig(ctx, seqLen, batch, i);
            && SampleIs(ctx, pool, seqLen, batch, Sample(FakeBehaviour(p), c, s))
            && Shape(p, c) && |c.ids| == batch
            && Sample(FakeBehaviour(p), c, s).state == RestedAfter(p, c, s, 1)
  {
    hide Ready, Shape, Spread, Sample, FakeBehaviour, Capacity, AliveBlocks, AliveTokens, RestedAfter, MaxSteps,
         CeilDiv, Quiet, Clear, Limit, RequestId, PrefillChunks;
    var p, c := PlainSetup(pool, ctx.blockSize), SampleConfig(ctx, seqLen, batch, i);
    var d := CellDecodeTokens(ctx.decodeTokens);
    ConfigReady(ctx, pool, seqLen, batch, s, i);
    UniformCapacity(ctx, pool, seqLen, batch, i, batch);
    StaggeredOnLargePool(p, c, s, 1, 1);
    UniformSums(ctx, pool, seqLen, batch, i, batch, d - 1);
    UniformSums(ctx, pool, seqLen, batch, i, batch, 1);
    RestedQuiet(p, c, s);
  }

  /** The ids a sample adds are its own, so every other sample and cell stays clear. */
  lemma StaysClear(ctx: SweepContext, pool: nat, seqLen: nat, batch: nat, s: FakeState, i: nat, seqLen': nat, batch': nat, i': nat)
    requires ctx.maxBatchedTokens != 0 && ctx.blockSize > 0 && Clear(s, ctx.campaignId, seqLen', batch', i')
    requires seqLen != seqLen' || batch != batch' || i < i'
    requires Shape(PlainSetup(pool, ctx.blockSize), SampleConfig(ctx, seqLen, batch, i))
    ensures Clear(RestedAfter(PlainSetup(pool, ctx.blockSize), SampleConfig(ctx, seqLen, batch, i), s, 1),
                  ctx.campaignId, seqLen', batch', i')
  {
    hide RequestId, PrefillChunks, Shape, Limit;
    var p, c := PlainSetup(pool, ctx.blockSize), SampleConfig(ctx, seqLen, batch, i);
    var t := Limit(p, c);
    RequestsAtIndex(p, c, |c.ids|, t);
    var rs := s.requests + RequestsAt(p, c, |c.ids|, t);
    forall j, n: nat, k: nat | 0 <= j < |rs| && i' <= n
      ensures rs[j].id != RequestId(ctx.campaignId, seqLen', batch', n, k)
    {
      if j >= |s.requests| {
        var q := j - |s.requests|;
        assert rs[j].id == RequestId(ctx.campaignId, seqLen, batch, i, q);
        if rs[j].id == RequestId(ctx.campaignId, seqLen', batch', n, k) {
          RequestIdInjective(ctx.campaignId, seqLen, batch, i, q, seqLen', batch', n, k);
        }
      }
    }
  }

  // ---------- one cell ----------

  /** All other cells that were clear stay clear. */
  ghost predicate OthersClear(s: FakeState, s': FakeState, campaign: string, seqLen: nat, batch: nat) {
    forall l: nat, b: nat :: (l != seqLen || b != batch) && Clear(s, campaign, l, b, 0) ==> Clear(s', campaign, l, b, 0)
  }

  ghost predicate SamplesAre(ctx: SweepContext, pool: nat, seqLen: nat, batch: nat, s: FakeState, n: nat,
                             run: (FakeState, Result<seq<SampleReadings>, SampleError>))
    requires ctx.blockSize > 0
  {
    && run.1.Ok? && |run.1.value| == n
    && Quiet(PlainSetup(pool, ctx.blockSize), run.0)
    && Clear(run.0, ctx.campaignId, seqLen, batch, n)
    && OthersClear(s, run.0, ctx.campaignId, seqLen, batch)
    && forall r :: r in run.1.value ==>
         && r.kvBytesDecode == CellBytes(ctx, seqLen, batch) && r.liveTokensDecode == CellTokens(ctx, seqLen, batch)
         && r.kvBytesPrefill == CellPrefillBytes(ctx, seqLen, batch)
  }

  lemma {:induction false} SamplesOnFake(ctx: SweepContext, pool: nat, seqLen: nat, batch: nat, s: FakeState, n: nat)
    requires GoodCell(ctx, pool, seqLen, batch)
    requires Quiet(PlainSetup(pool, ctx.blockSize), s) && Clear(s, ctx.campaignId, seqLen, batch, 0)
    ensures SamplesAre(ctx, pool, seqLen, batch, s, n,
                       SamplesUpTo(FakeBehaviour(PlainSetup(pool, ctx.blockSize)), ctx, seqLen, batch, s, n))
    decreases n
  {
    hide Sample, SampleConfig, FakeBehaviour, Clear, Quiet, CellBytes, CellPrefillBytes, CellTokens, RestedAfter, Shape;
    if n > 0 {
      SamplesOnFake(ctx, pool, seqLen, batch, s, n - 1);
      var p := PlainSetup(pool, ctx.blockSize);
      var s1 := SamplesUpTo(FakeBehaviour(p), ctx, seqLen, batch, s, n - 1).0;
      SampleOnFake(ctx, pool, seqLen, batch, s1, n - 1);
      ClearNext(ctx, pool, seqLen, batch, s, s1, n);
    }
  }

  lemma ClearNext(ctx: SweepContext, pool: nat, seqLen: nat, batch: nat, s: FakeState, s1: FakeState, n: nat)
    requires n > 0 && ctx.maxBatchedTokens != 0 && ctx.blockSize > 0
    requires Clear(s1, ctx.campaignId, seqLen, batch, n - 1) && OthersClear(s, s1, ctx.campaignId, seqLen, batch)
    requires Shape(PlainSetup(pool, ctx.blockSize), SampleConfig(ctx, seqLen, batch, n - 1))
    ensures var s2 := RestedAfter(PlainSetup(pool, ctx.blockSize), SampleConfig(ctx, seqLen, batch, n - 1), s1, 1);
            Clear(s2, ctx.campaignId, seqLen, batch, n) && OthersClear(s, s2, ctx.campaignId, seqLen, batch)
  {
    hide Clear, SampleConfig, RestedAfter, Shape;
    ClearLater(s1, ctx.campaignId, seqLen, batch, n - 1, n);
    var s2 := RestedAfter(PlainSetup(pool, ctx.blockSize), SampleConfig(ctx, seqLen, batch, n - 1), s1, 1);
    StaysClear(ctx, pool, seqLen, batch, s1, n - 1, seqLen, batch, n);
    forall l: nat, b: nat | (l != seqLen || b != batch) && Clear(s, ctx.campaignId, l, b, 0)
      ensures Clear(s2, ctx.campaignId, l, b, 0)
    {
      StaysClear(ctx, pool, seqLen, batch, s1, n - 1, l, b, 0);
    }
  }

  lemma ClearLater(s: FakeState, campaign: string, seqLen: nat, batch: nat, n: nat, n': nat)
    requires Clear(s, campaign, seqLen, batch, n) && n <= n'
    ensures Clear(s, campaign, seqLen, batch, n')
  {}

  /** The closed form of a cell measured on the plain engine. */
  ghost predicate CellIs(ctx: SweepContext, seqLen: nat, batch: nat, nSamples: nat, c: Cell)
    requires ctx.blockSize > 0
  {
    && ValidCell(c) && c.seqLen == seqLen && c.batchSize == batch && c.nSamples == nSamples
    && c.totalTokens == CellTokens(ctx, seqLen, batch)
    && c.baselineBytes == ctx.baselineBytes
    && (forall i :: 0 <= i < |c.decodeSamples| ==> c.decodeSamples[i] == CellBytes(ctx, seqLen, batch))
    && (forall i :: 0 <= i < |c.prefillSamples| ==> c.prefillSamples[i] == CellPrefillBytes(ctx, seqLen, batch))
    && P50Bytes(c) == CellBytes(ctx, seqLen, batch) as real
  }

  /**
   A cell on the plain engine never fails: its samples and token count have closed
   forms, the pool is empty afterwards, and no other cell's ids have been used.
   */
  lemma CellOnFake(ctx: SweepContext, pool: nat, seqLen: nat, batch: nat, nSamples: nat, s: FakeState)
    requires GoodCell(ctx, pool, seqLen, batch) && nSamples > 0
    requires Quiet(PlainSetup(pool, ctx.blockSize), s) && Clear(s, ctx.campaignId, seqLen, batch, 0)
    ensures var run := CellOutcome(FakeBehaviour(PlainSetup(pool, ctx.blockSize)), ctx, seqLen, batch, nSamples, batch, s);
            && run.1.Ok? && CellIs(ctx, seqLen, batch, nSamples, run.1.value)
            && Quiet(PlainSetup(pool, ctx.blockSize), run.0)
            && OthersClear(s, run.0, ctx.campaignId, seqLen, batch)
  {
    hide SamplesUpTo, FakeBehaviour, Clear, Quiet, OthersClear, CellBytes, CellPrefillBytes, CellTokens, BuildCell, CellIs;
    SamplesOnFake(ctx, pool, seqLen, batch, s, nSamples);
    var run := SamplesUpTo(FakeBehaviour(PlainSetup(pool, ctx.blockSize)), ctx, seqLen, batch, s, nSamples);
    UniformCell(ctx, pool, seqLen, batch, run.1.value);
  }

  lemma UniformCell(ctx: SweepContext, pool: nat, seqLen: nat, batch: nat, rs: seq<SampleReadings>)
    requires GoodCell(ctx, pool, seqLen, batch) && rs != []
    requires forall r :: r in rs ==>
               && r.kvBytesDecode == CellBytes(ctx, seqLen, batch) && r.liveTokensDecode == CellTokens(ctx, seqLen, batch)
               && r.kvBytesPrefill == CellPrefillBytes(ctx, seqLen, batch)
    ensures var c := BuildCell(ctx, seqLen, batch, rs);
            c.Ok? && CellIs(ctx, seqLen, batch, |rs|, c.value)
  {
    hide CellBytes, CellPrefillBytes, P50Bytes;
    assert forall i :: 0 <= i < |rs| ==> rs[i] in rs;
    TokensPositive(batch, seqLen + CellDecodeTokens(ctx.decodeTokens) - 1);
    var c := BuildCell(ctx, seqLen, batch, rs).value;
    ConstantMedian(c, CellBytes(ctx, seqLen, batch));
  }

  lemma TokensPositive(a: nat, b: int)
    requires a > 0 && b > 0
    ensures a * b > 0
  {}

  lemma ConstantMedian(c: Cell, v: int)
    requires c.decodeSamples != [] && forall i :: 0 <= i < |c.decodeSamples| ==> c.decodeSamples[i] == v
    ensures P50Bytes(c) == v as real
  {
    var xs := Reals(c.decodeSamples);
    PercentilesAgree(xs, 0.5);
    PercentileBetween(xs, 0.5, v as real, v as real);
  }
}
