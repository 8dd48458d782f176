/** `run_cell` of bench/kv_scaling/measure.py and the cell record of bench/kv_scaling/schema.py. */
module CellRun {
  import opened Prelude
  import opened Engine
  import opened Sampler
  import opened SamplerSoundness
  import opened RequestIds
  import opened Percentile
  import opened RealArith

  datatype SweepContext = SweepContext(
    campaignId: string,
    theoryBpt: int,
    baselineBytes: int,
    blockSize: int,
    decodeTokens: int,
    maxBatchedTokens: int)

  datatype Cell = Cell(
    seqLen: int,
    batchSize: int,
    nSamples: int,
    decodeSamples: seq<int>,
    prefillSamples: seq<int>,
    totalTokens: int,
    baselineBytes: int)

  datatype CellError =
    | BadSampleCount | PromptCountMismatch | DivisionByZero
    | SampleFailed(error: SampleError)
    | NotDeterministic
    | InvalidCell

  const EXTENDED_DECODE_TOKENS := 5 * 6

  /** Ceiling of `batch * seqLen / maxBatchedTokens`, by Python's floor division. */
  function PrefillChunks(batch: int, seqLen: int, maxBatchedTokens: int): int
    requires maxBatchedTokens != 0
  {
    -FloorDiv(-batch * seqLen, maxBatchedTokens)
  }

  /** It is the ceiling of the quotient, whatever the signs. */
  lemma ChunksAreCeiling(batch: int, seqLen: int, maxBatchedTokens: int)
    requires maxBatchedTokens != 0
    ensures var q := (batch * seqLen) as real / maxBatchedTokens as real;
            q <= PrefillChunks(batch, seqLen, maxBatchedTokens) as real < q + 1.0
  {
    var c, x := PrefillChunks(batch, seqLen, maxBatchedTokens), batch * seqLen;
    assert -batch * seqLen == -x;
    if maxBatchedTokens > 0 {
      assert (c - 1) * maxBatchedTokens < x <= c * maxBatchedTokens;
      CeilingBounds(x, maxBatchedTokens, c);
    } else {
      assert (c - 1) * maxBatchedTokens > x >= c * maxBatchedTokens;
      CeilingBounds(-x, -maxBatchedTokens, c);
      assert x as real / maxBatchedTokens as real == (-x) as real / (-maxBatchedTokens) as real;
    }
  }

  lemma CeilingBounds(x: int, m: int, c: int)
    requires m > 0 && (c - 1) * m < x <= c * m
    ensures var q := x as real / m as real; q <= c as real < q + 1.0
  {
    var r := m as real;
    CastProduct(c, m);
    CastProduct(c - 1, m);
    QuotientBounds(x as real, r, c as real);
    QuotientBounds(x as real, r, (c - 1) as real);
    assert Quot(x as real, r) == x as real / r;
  }

  function CellDecodeTokens(decodeTokens: int): int {
    Max(decodeTokens, EXTENDED_DECODE_TOKENS)
  }

  /** The arguments of the i-th `sample_decode_window` call of a cell. */
  function SampleConfig(ctx: SweepContext, seqLen: int, batch: nat, i: nat): Config
    requires ctx.maxBatchedTokens != 0
  {
    Config(seq(batch, k requires 0 <= k < batch => RequestId(ctx.campaignId, seqLen, batch, i, k)),
           batch,
           seq(batch, _ => seqLen),
           CellDecodeTokens(ctx.decodeTokens),
           true,
           PrefillChunks(batch, seqLen, ctx.maxBatchedTokens),
           ctx.theoryBpt,
           ctx.blockSize)
  }

  /** The first `n` samples of a cell. */
  function SamplesUpTo<S>(b: Behaviour<S>, ctx: SweepContext, seqLen: int, batch: nat, s: S, n: nat)
    : (S, Result<seq<SampleReadings>, SampleError>)
    requires ctx.maxBatchedTokens != 0
    decreases n
  {
    if n == 0 then (s, Ok([]))
    else
      var (s1, front) := SamplesUpTo(b, ctx, seqLen, batch, s, n - 1);
      if front.Err? then (s1, front)
      else
        var run := Sample(b, SampleConfig(ctx, seqLen, batch, n - 1), s1);
        (run.state, if run.result.Err? then Err(run.result.error) else Ok(front.value + [run.result.value]))
  }

  /** The schema's field constraints. */
  predicate ValidCell(c: Cell) {
    && c.seqLen > 0 && c.batchSize > 0 && c.nSamples > 0
    && |c.decodeSamples| == c.nSamples && |c.prefillSamples| == c.nSamples
    && c.totalTokens > 0 && c.baselineBytes >= 0
  }

  function DecodeBytes(rs: seq<SampleReadings>): seq<int> {
    seq(|rs|, i requires 0 <= i < |rs| => rs[i].kvBytesDecode)
  }

  function PrefillBytes(rs: seq<SampleReadings>): seq<int> {
    seq(|rs|, i requires 0 <= i < |rs| => rs[i].kvBytesPrefill)
  }

  function BuildCell(ctx: SweepContext, seqLen: int, batch: nat, rs: seq<SampleReadings>): Result<Cell, CellError>
    requires rs != []
  {
    if exists i :: 0 <= i < |rs| && rs[i].liveTokensDecode != rs[0].liveTokensDecode then Err(NotDeterministic)
    else
      var c := Cell(seqLen, batch, |rs|, DecodeBytes(rs), PrefillBytes(rs), rs[0].liveTokensDecode, ctx.baselineBytes);
      if ValidCell(c) then Ok(c) else Err(InvalidCell)
  }

  function CellOutcome<S>(b: Behaviour<S>, ctx: SweepContext, seqLen: int, batch: int, nSamples: int, promptCount: nat, s: S)
    : (S, Result<Cell, CellError>)
  {
    if nSamples <= 0 then (s, Err(BadSampleCount))
    else if promptCount != batch then (s, Err(PromptCountMismatch))
    else if ctx.maxBatchedTokens == 0 then (s, Err(DivisionByZero))
    else
      var (s1, rs) := SamplesUpTo(b, ctx, seqLen, batch, s, nSamples);
      if rs.Err? then (s1, Err(SampleFailed(rs.error)))
      else
        SamplesLength(b, ctx, seqLen, batch, s, nSamples);
        (s1, BuildCell(ctx, seqLen, batch, rs.value))
  }

  lemma NoSamples<S>(b: Behaviour<S>, ctx: SweepContext, seqLen: int, batch: nat, s: S)
    requires ctx.maxBatchedTokens != 0
    ensures SamplesUpTo(b, ctx, seqLen, batch, s, 0) == (s, Ok([]))
  {}

  /** One more sample of a cell that succeeds. */
  lemma SamplesNext<S>(b: Behaviour<S>, ctx: SweepContext, seqLen: int, batch: nat, s: S, n: nat)
    requires ctx.maxBatchedTokens != 0 && n > 0 && SamplesUpTo(b, ctx, seqLen, batch, s, n).1.Ok?
    ensures var (s1, front) := SamplesUpTo(b, ctx, seqLen, batch, s, n - 1);
            var r := Sample(b, SampleConfig(ctx, seqLen, batch, n - 1), s1).result;
            front.Ok? && r.Ok? && SamplesUpTo(b, ctx, seqLen, batch, s, n).1.value == front.value + [r.value]
  {
    hide Sample, SampleConfig;
  }

  lemma {:induction false} SamplesLength<S>(b: Behaviour<S>, ctx: SweepContext, seqLen: int, batch: nat, s: S, n: nat)
    requires ctx.maxBatchedTokens != 0 && SamplesUpTo(b, ctx, seqLen, batch, s, n).1.Ok?
    ensures |SamplesUpTo(b, ctx, seqLen, batch, s, n).1.value| == n
  {
    hide Sample, SampleConfig, SamplesUpTo;
    if n == 0 {
      NoSamples(b, ctx, seqLen, batch, s);
    } else {
      SamplesNext(b, ctx, seqLen, batch, s, n);
      SamplesLength(b, ctx, seqLen, batch, s, n - 1);
    }
  }

  lemma {:induction false} SampleErrorStays<S>(b: Behaviour<S>, ctx: SweepContext, seqLen: int, batch: nat, s: S, i: nat, n: nat)
    requires ctx.maxBatchedTokens != 0 && i <= n && SamplesUpTo(b, ctx, seqLen, batch, s, i).1.Err?
    ensures SamplesUpTo(b, ctx, seqLen, batch, s, n) == SamplesUpTo(b, ctx, seqLen, batch, s, i)
    decreases n - i
  {
    hide Sample;
    if i < n {
      SampleErrorStays(b, ctx, seqLen, batch, s, i + 1, n);
    }
  }

  method RunCell<S>(driver: Driver<S>, ctx: SweepContext, seqLen: int, batch: int, nSamples: int, promptCount: nat)
    returns (r: Result<Cell, CellError>)
    modifies driver
    ensures (driver.state, r) == CellOutcome(driver.engine, ctx, seqLen, batch, nSamples, promptCount, old(driver.state))
  {
    hide Sample, SampleConfig;
    if nSamples <= 0 {
      return Err(BadSampleCount);
    }
    if promptCount != batch {
      return Err(PromptCountMismatch);
    }
    if ctx.maxBatchedTokens == 0 {
      return Err(DivisionByZero);
    }
    var readings: seq<SampleReadings> := [];
    for i := 0 to nSamples
      invariant SamplesUpTo(driver.engine, ctx, seqLen, batch, old(driver.state), i) == (driver.state, Ok(readings))
      invariant |readings| == i
    {
      var reading := SampleDecodeWindow(driver, SampleConfig(ctx, seqLen, batch, i));
      if reading.Err? {
        SampleErrorStays(driver.engine, ctx, seqLen, batch, old(driver.state), i + 1, nSamples);
        return Err(SampleFailed(reading.error));
      }
      readings := readings + [reading.value];
    }
    r := BuildCell(ctx, seqLen, batch, readings);
  }

  // ---------- the cell's computed fields ----------

  function Reals(xs: seq<int>): (rs: seq<real>)
    ensures |rs| == |xs|
    ensures forall i :: 0 <= i < |xs| ==> rs[i] == xs[i] as real
  {
    seq(|xs|, i requires 0 <= i < |xs| => xs[i] as real)
  }

  function P50Bytes(c: Cell): real
    requires c.decodeSamples != []
  {
    SchemaPercentile(SortReals(Reals(c.decodeSamples)), 0.5)
  }

  function MeasuredBytesPerToken(c: Cell): real
    requires c.decodeSamples != [] && c.totalTokens > 0
  {
    Quot(P50Bytes(c), c.totalTokens as real)
  }

  /** The cell's p50 is the median of its decode samples, and bytes per token are that over its live tokens. */
  lemma P50IsMedian(c: Cell, s: seq<real>)
    requires c.decodeSamples != [] && Sorted(s) && multiset(s) == multiset(Reals(c.decodeSamples))
    ensures s != [] && P50Bytes(c) == Median(s)
    ensures c.totalTokens > 0 ==> MeasuredBytesPerToken(c) * c.totalTokens as real == Median(s)
  {
    hide RunnerPercentile, SchemaPercentile, SortReals, Median, Sorted, Reals;
    var xs := Reals(c.decodeSamples);
    SameLength(s, xs);
    HalfIsMedian(xs, s);
    PercentilesAgree(xs, 0.5);
    if c.totalTokens > 0 {
      Rescaled(P50Bytes(c), c.totalTokens as real);
    }
  }

  lemma Rescaled(a: real, b: real)
    requires b != 0.0
    ensures Quot(a, b) * b == a
  {}

  // ---------- the error bound of a cell, for any engine ----------

  /** What every sample of a returned cell looks like. */
  ghost predicate SampleInBounds(ctx: SweepContext, seqLen: int, batch: nat, r: SampleReadings) {
    && r.liveTokensDecode >= batch * (seqLen + 1)
    && r.liveTokensDecode <= r.usedBlocksDecode * ctx.blockSize <= r.liveTokensDecode + batch * ctx.blockSize + 64
    && r.kvBytesDecode == r.usedBlocksDecode * ctx.blockSize * ctx.theoryBpt
    && r.kvBytesPrefill <= r.kvBytesDecode
    && seqLen > 0 && batch > 0 && ctx.theoryBpt > 0 && ctx.blockSize > 0
  }

  lemma OneSampleInBounds<S>(b: Behaviour<S>, ctx: SweepContext, seqLen: int, batch: nat, s: S, i: nat)
    requires ctx.maxBatchedTokens != 0 && Sample(b, SampleConfig(ctx, seqLen, batch, i), s).result.Ok?
    ensures SampleInBounds(ctx, seqLen, batch, Sample(b, SampleConfig(ctx, seqLen, batch, i), s).result.value)
  {
    hide Sample, MaxSteps, RequestId, PrefillChunks;
    var c := SampleConfig(ctx, seqLen, batch, i);
    var p, d, last := SampleSound(b, c, s);
    var r := Sample(b, c, s).result.value;
    assert batch > 0 && c.promptLens[0] == seqLen;
    HeldAtLeast(b, c, AddUpTo(b, c, s, |c.ids|).0, d, |c.ids|, seqLen);
    MulMonotone(r.usedBlocksPrefill, r.usedBlocksDecode, ctx.blockSize);
    MulMonotone(r.usedBlocksPrefill * ctx.blockSize, r.usedBlocksDecode * ctx.blockSize, ctx.theoryBpt);
  }

  lemma {:induction false} SamplesInBounds<S>(b: Behaviour<S>, ctx: SweepContext, seqLen: int, batch: nat, s: S, n: nat)
    requires ctx.maxBatchedTokens != 0 && SamplesUpTo(b, ctx, seqLen, batch, s, n).1.Ok?
    ensures forall r :: r in SamplesUpTo(b, ctx, seqLen, batch, s, n).1.value ==> SampleInBounds(ctx, seqLen, batch, r)
    decreases n
  {
    hide Sample, SampleInBounds, SampleConfig, SamplesUpTo;
    if n == 0 {
      NoSamples(b, ctx, seqLen, batch, s);
    } else {
      SamplesNext(b, ctx, seqLen, batch, s, n);
      SamplesInBounds(b, ctx, seqLen, batch, s, n - 1);
      OneSampleInBounds(b, ctx, seqLen, batch, SamplesUpTo(b, ctx, seqLen, batch, s, n - 1).0, n - 1);
    }
  }

  lemma ScaledBounds(live: int, slots: int, slack: int, theory: int)
    requires live <= slots <= live + slack && theory >= 0
    ensures theory * live <= slots * theory <= theory * (live + slack)
  {
    MulMonotone(live, slots, theory);
    MulMonotone(slots, live + slack, theory);
  }

  /** A cell whose samples, and so whose median, lie within the gate's slack of the theory. */
  ghost predicate WithinSlack(ctx: SweepContext, seqLen: int, batch: int, c: Cell) {
    var slack := batch * ctx.blockSize + 64;
    && ValidCell(c) && c.batchSize == batch && c.seqLen == seqLen && ctx.theoryBpt > 0 && ctx.blockSize > 0
    && c.totalTokens >= batch * (seqLen + 1)
    && (forall i :: 0 <= i < |c.decodeSamples| ==>
          && c.prefillSamples[i] <= c.decodeSamples[i]
          && ctx.theoryBpt * c.totalTokens <= c.decodeSamples[i] <= ctx.theoryBpt * (c.totalTokens + slack))
    && (ctx.theoryBpt * c.totalTokens) as real <= P50Bytes(c) <= (ctx.theoryBpt * (c.totalTokens + slack)) as real
  }

  lemma MedianWithinSlack(ctx: SweepContext, seqLen: int, batch: nat, rs: seq<SampleReadings>, c: Cell)
    requires rs != [] && BuildCell(ctx, seqLen, batch, rs) == Ok(c)
    requires forall r :: r in rs ==> SampleInBounds(ctx, seqLen, batch, r)
    ensures WithinSlack(ctx, seqLen, batch, c)
  {
    var slack := batch * ctx.blockSize + 64;
    var lo, hi := ctx.theoryBpt * c.totalTokens, ctx.theoryBpt * (c.totalTokens + slack);
    assert SampleInBounds(ctx, seqLen, batch, rs[0]);
    forall i | 0 <= i < |rs| ensures lo <= c.decodeSamples[i] <= hi && c.prefillSamples[i] <= c.decodeSamples[i] {
      assert SampleInBounds(ctx, seqLen, batch, rs[i]);
      ScaledBounds(c.totalTokens, rs[i].usedBlocksDecode * ctx.blockSize, slack, ctx.theoryBpt);
    }
    var xs := Reals(c.decodeSamples);
    PercentilesAgree(xs, 0.5);
    PercentileBetween(xs, 0.5, lo as real, hi as real);
  }

  /**
   Whatever engine produced it, a returned cell's samples all lie within the
   gate's slack of the theory, and so does their median.
   */
  lemma CellWithinSlack<S>(b: Behaviour<S>, ctx: SweepContext, seqLen: int, batch: int, n: int, prompts: nat, s: S)
    requires CellOutcome(b, ctx, seqLen, batch, n, prompts, s).1.Ok?
    ensures WithinSlack(ctx, seqLen, batch, CellOutcome(b, ctx, seqLen, batch, n, prompts, s).1.value)
  {
    hide SamplesUpTo, BuildCell, WithinSlack, SampleInBounds;
    SamplesInBounds(b, ctx, seqLen, batch, s, n);
    SamplesLength(b, ctx, seqLen, batch, s, n);
    var rs := SamplesUpTo(b, ctx, seqLen, batch, s, n).1.value;
    MedianWithinSlack(ctx, seqLen, batch, rs, BuildCell(ctx, seqLen, batch, rs).value);
  }

  /** Cell-level error bound: measured bytes per token against theory, for any engine. */
  lemma CellErrorBound<S>(b: Behaviour<S>, ctx: SweepContext, seqLen: int, batch: int, n: int, prompts: nat, s: S)
    requires CellOutcome(b, ctx, seqLen, batch, n, prompts, s).1.Ok?
    ensures var c := CellOutcome(b, ctx, seqLen, batch, n, prompts, s).1.value;
            var theory := ctx.theoryBpt as real;
            && ValidCell(c) && batch * (seqLen + 1) > 0
            && theory <= MeasuredBytesPerToken(c)
                      <= theory + Prod(theory, Quot((batch * ctx.blockSize + 64) as real, (batch * (seqLen + 1)) as real))
  {
    hide CellOutcome, WithinSlack, MeasuredBytesPerToken;
    CellWithinSlack(b, ctx, seqLen, batch, n, prompts, s);
    SlackIsRelative(ctx, seqLen, batch, CellOutcome(b, ctx, seqLen, batch, n, prompts, s).1.value);
  }

  lemma SlackIsRelative(ctx: SweepContext, seqLen: int, batch: int, c: Cell)
    requires WithinSlack(ctx, seqLen, batch, c)
    ensures ValidCell(c) && batch * (seqLen + 1) > 0
    ensures var theory := ctx.theoryBpt as real;
            theory <= MeasuredBytesPerToken(c)
                   <= theory + Prod(theory, Quot((batch * ctx.blockSize + 64) as real, (batch * (seqLen + 1)) as real))
  {
    hide P50Bytes;
    PositiveBatch(batch, seqLen, ctx.blockSize);
    RelativeError(ctx.theoryBpt, c.totalTokens, batch * (seqLen + 1), batch * ctx.blockSize + 64, P50Bytes(c));
  }

  lemma PositiveBatch(batch: int, seqLen: int, blockSize: int)
    requires batch > 0 && seqLen > 0 && blockSize > 0
    ensures batch * (seqLen + 1) > 0 && batch * blockSize >= 0
  {}

  /** Slack shrinks relative to a live count that is at least `least`. */
  lemma RelativeError(theory: int, live: int, least: int, slack: int, p50: real)
    requires theory > 0 && live >= least > 0 && slack >= 0
    requires (theory * live) as real <= p50 <= (theory * (live + slack)) as real
    ensures theory as real <= Quot(p50, live as real) <= theory as real + Prod(theory as real, Quot(slack as real, least as real))
  {
    var t, l, m, k := theory as real, live as real, least as real, slack as real;
    CastProduct(theory, live);
    CastProduct(theory, live + slack);
    DivMul(k, m);
    SlackSpread(t, l, m, k, Quot(k, m));
    QuotientBounds(p50, l, t);
    QuotientBounds(p50, l, t + Prod(t, Quot(k, m)));
  }

  lemma CastProduct(a: int, b: int)
    ensures (a * b) as real == Prod(a as real, b as real)
  {}

  lemma SlackSpread(t: real, l: real, m: real, k: real, q: real)
    requires t > 0.0 && l >= m > 0.0 && k >= 0.0 && Prod(q, m) == k
    ensures Prod(t, l + k) <= Prod(t + Prod(t, q), l)
  {
    ProductSign(q, m);
    MulMono(m, l, q);
    MulMono(k, Prod(l, q), t);
    assert Prod(t, l + k) == t * l + k * t;
    assert Prod(t + Prod(t, q), l) == t * l + (t * q) * l;
    assert (t * q) * l == (l * q) * t;
  }
}
