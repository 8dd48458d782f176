# GoodputLab: a verified model of the measurement core and the control plane

GoodputLab measures KV-cache growth per token on a serving engine and steers a small fleet of
serving pools. This project models, in Dafny, the parts of it whose correctness is not visible in
any one function:

* **the sampler** (`Engine`, `Sampler`, `SamplerSoundness`, `SamplerCompleteness`): the step loop that
  gates every block reading, against an engine that may answer anything. An engine is any state type
  with any functions for its six calls, so a statement about every `Behaviour` holds against an engine
  that lies; the sampler is characterised exactly on what such an engine answers;
* **the CPU stand-in engine** (`FakeEngine`, `Stagger`, `StaggerOutcome`, `FakeCells`): the block
  allocator with per-request state, generalised so that request `i` first runs on an arbitrary step;
* **the rung-0 pipeline** (`RequestIds`, `CellRun`, `LeastSquares`, `GridFit`, `Knee`, `DryRun`,
  `DryRunTheory`, `DryRunDuplicates`, `DryRunGate`, `DryRunPasses`, `DryRunRefusals`, `Percentile`): cells,
  percentiles, regression, knee, gate and pool sizing, up to one theorem from allocator steps to the
  fitted slope and one that says exactly when the gate passes;
* **the router and the KV tier** (`Recency`, `OrderedDict`, `Pools`, `Router`, `RouterTheory`,
  `RouterSalts`, `KvTier`): two LRU stores, one theory of recency for both, and the salts that make
  the router's cache harmless;
* **the controller and the autoscaler** (`Pid`, `Autoscaler`, `AutoscalerTheory`,
  `PoolIndependence`, `AutoscalerLive`): anti-windup, closed-loop safety, monotonicity, independence;
* **the smaller loops** (`Arrival`, `SpecDecode`, `Matrix`, `MatrixTheory`, `MatrixReport`): ON/OFF
  arrivals, the speculative-decoding window, and the resumable benchmark sweep.

Code that works by changing things step by step is imperative Dafny here too: a class or a method with
loops, whose contract equates its result and new state with a function of the old state. The theorems
are then lemmas about those functions. `dafny verify dfyconfig.toml` checks the whole project.

## Conventions

* Python floats are exact `real`s, and `round` is half-to-even. Products and quotients of reals appear
  as `Prod` and `Quot`, so that long formulas stay linear for the solver.
* Exceptions are failure values: `Result`, `Option` or a `Raised` answer. State that the code has
  already changed when it raises is changed in the model as well.
* A mutable object passed to a function becomes its value, and the method that owns it is proved to
  return exactly that function's result.
* Random draws, clock readings and the outcome of a measurement are inputs, over which every statement
  quantifies.

## Where the code and its documentation differ

The model follows the code.

* `bench/kv_scaling/measure.py:855-857` says the fake pipeline must land "never below" the injected slope,
  at most one block of rounding above it, with R^2 of at least 0.98. Each of the three can fail on a
  correct pipeline: `DryRunTheory.MixedRemaindersRefused` (slope 0),
  `DryRunRefusals.SteepRemaindersRefused` (slope sixteen times too high) and
  `DryRunRefusals.ScatteredBatchesRefused` (congruent lengths, R^2 about 0.82).
  `DryRunGate.GatePassesIff` says for every grid of distinct positive sizes, from its parameters alone,
  whether the dry run passes and which refusal it ends in; `DryRunTheory.NeverBelowIff` is the "never
  below" part, `DryRunTheory.DryRunRecoversSlope` the slope on congruent lengths, and
  `DryRunPasses.LongGridsPass` and `DefaultGridPasses` where the gate is no obstacle.
* `bench/kv_scaling/measure.py:421-425` refuses a sample as too staggered when decode was never read.
  Prefill and decode are set in the same iteration, so the branch is dead
  (`SamplerSoundness.NeverTooStaggered`).
* `bench/runpod_matrix.py:114-120` says a cell whose file carries another id will be re-run.
  `run_cell` returns the foreign result instead, so the cell is listed as pending for ever
  (`MatrixTheory.MismatchNeverHeals`); a sweep shrinks the pending list by its completions exactly when
  it gets to no such file (`MatrixTheory.ShrinksByCompletedIff`, `MatrixTheory.LenientShrinksIff`).
* `bench/runpod_matrix.py:146-148` says `run_all` runs every cell regardless of stored JSON. A sweep
  executes a cell exactly when no earlier cell breaks it off and the cell's file is absent or corrupt
  (`MatrixTheory.ExecutedIff`), so `run_all` runs every cell if and only if no cell has a file that
  parses (`MatrixTheory.RunAllExecutesAllIff`).
* `control/router.py:7` says batch traffic ignores the cache. The code does not distinguish it:
  `RouterTheory.BatchFollowsCache` is a batch request sent to a busier cached pool. Over all runs the
  cache leaves batch traffic alone if and only if the salts keep the pools' keys apart on the prefixes in
  use, the cache has no room or no pool admits batch requests (`RouterSalts.BatchIgnoresCacheIff`);
  salts that do so defeat affinity too (`RouterTheory.SaltingDefeatsAffinity`), and a constant salt keeps
  it (`RouterTheory.ConstantSaltAffinity`).
* `spec/eagle.py:8` says speculative decoding refuses to operate in disaggregated topologies. The
  gate only sets the initial flag, and `enable()` does not look at the topology
  (`SpecDecode.EnableDefeatsGate`); no round runs on a disaggregated topology if and only if none comes
  while the last toggle is `enable()` (`SpecDecode.GateHoldsIff`).
* `control/pid.py` and the gain schema allow a negative `kp`, and then a deeper queue can be answered
  with a shrink (`AutoscalerTheory.NegativeGainShrinks`). More load never gets a smaller move if and only
  if the effective gain is nonnegative, the dwell window blocks every move, or one replica count is
  allowed (`AutoscalerTheory.MonotoneIff`).
* `spec/eagle.py:118-151` accepts a negative draft count: the counters move before the result model
  refuses it, and acceptances can then exceed proposals (`SpecDecode.NegativeDraftBreaksTotals`);
  `SpecDecode.RoundKeepsOrderIff` says exactly when a round keeps them ordered.
* `loadgen/arrival.py:80` says ON/OFF offsets are strictly increasing. An exponential draw can be zero,
  and then an offset repeats (`Arrival.ZeroDrawRepeats`); they are strictly increasing exactly when no
  draw within a phase, after its first, is zero (`Arrival.ScheduleSound`).

## Model

| member | source | states |
|---|---|---|
| Sampler.SampleDecodeWindow | bench/kv_scaling/measure.py:253-445 | The sampler over any engine is the function `Sample`; once stepping starts `end_sample` is called exactly once on every outcome, before that never, and at most `MaxSteps` engine steps run. |
| Sampler.StepLoop | bench/kv_scaling/measure.py:344-418 | The step loop with its early exits is the bounded iteration of one turn, within the step budget. |
| Sampler.ReadAfterStep | bench/kv_scaling/measure.py:365-413 | After a step: gate, one prefill reading, decode refrozen while everyone is alive, and stop when the engine is drained. |
| Sampler.AbsorbOutputs | bench/kv_scaling/measure.py:357-364 | Folding one step's outputs into the counters: it succeeds exactly when every output names a known request and reports no negative count, and refuses at the first that does not; each counter grows by the tokens reported for its request, and a request is finished exactly when it was or an output says so. |
| Sampler.AbsorbMeaning | bench/kv_scaling/measure.py:357-364 | The same of the function `Absorb`, without naming how one output is folded in. |
| SamplerSoundness.SampleSound | bench/kv_scaling/measure.py:343-445 | For any engine, lying or not: if readings come back, everybody is done by some iteration within the budget; prefill was read at the first iteration by which everybody had started and decode at the last at which nobody was done. Each reading is the blocks the engine answered there against the prompt lengths plus the tokens the engine had reported, passed the two-sided gate, and decode is at least prefill in blocks and tokens. Both are stated on the calls to the engine, not on the loop. |
| SamplerSoundness.CountersAreReports | bench/kv_scaling/measure.py:357-364 | After k iterations every counter is the sum of what the engine reported in its first k steps, a request is flagged exactly when it was reported finished, and the engine is where those calls leave it. |
| SamplerSoundness.EveryReadingGated | bench/kv_scaling/measure.py:344-390 | Of a sample that returns, every reading of every iteration passed the gate, before the step as well as after it and also while only part of the batch was alive. |
| SamplerSoundness.UngatedIsRefused | bench/kv_scaling/measure.py:217-250 | A reading that fails the accounting is refused with its error before the step, and the engine does not step. |
| SamplerSoundness.EntersIff | bench/kv_scaling/measure.py:279-313 | The engine is touched only on well-formed arguments; stepping, and the clean-up that goes with it, starts exactly when the engine then takes every request. |
| SamplerCompleteness.RunningIff | bench/kv_scaling/measure.py:344-413 | The loop is still running after k iterations exactly when in each of them the engine answered, its outputs could be read, both readings passed the gate, not everybody was done, and nobody was done before everybody had started. |
| SamplerCompleteness.SampleSucceedsIff | bench/kv_scaling/measure.py:253-445 | The sampler returns readings if and only if its arguments are well formed, the engine takes every request, and its answers then make a good run: everybody started by some iteration p, nobody done until after d >= p, everybody by a last one within the budget, every call up to the end of the sample answered, every output readable, every reading gated, and no fewer blocks at d than at p. |
| SamplerSoundness.NeverTooStaggered | bench/kv_scaling/measure.py:421-425 | For any engine, the "too staggered to read" refusal cannot happen. |
| FakeEngine.FakeEngineDriver.AddRequest | bench/kv_scaling/measure.py:545-563 | Adding a request is the function `Added` and keeps the block accounting. |
| FakeEngine.FakeEngineDriver.Step | bench/kv_scaling/measure.py:577-588 | One engine step over the request table is the function `Stepped`; it keeps the accounting unless the pool refuses, and the request table sound even then. |
| FakeEngine.FakeEngineDriver.SyncPool | bench/kv_scaling/measure.py:533-540 | The pool counter becomes the sum over scheduled unfreed requests, or the pool refuses and keeps its counter. |
| FakeEngine.FakeEngineDriver.EndSample | bench/kv_scaling/measure.py:600-603 | Ending a sample frees everything, leaves the pool empty, never raises and restores the accounting, also after a step that the pool refused. |
| FakeEngine.AddKeeps | bench/kv_scaling/measure.py:545-563 | From a valid state an add raises exactly on a duplicate id, a token budget below one or an empty prompt, changes nothing then, and never takes a block. |
| FakeEngine.StepKeeps | bench/kv_scaling/measure.py:533-540 | From a sound request table a step raises exactly when the new demand exceeds the pool, keeping the pool counter; otherwise used blocks are the sum of the ceilings; flags agree with counters in either case. |
| FakeEngine.EndKeeps | bench/kv_scaling/measure.py:600-603 | From any sound request table, whatever the pool counter says, the end of a sample frees every request, empties the pool and restores the accounting. |
| FakeEngine.UnfinishedMeaning | bench/kv_scaling/measure.py:590-591 | The unfinished count is the number of requests not flagged finished. |
| Stagger.GateAt | bench/kv_scaling/measure.py:345-390 | On a well-formed call a truthful engine's readings pass the gate on every step of every schedule. |
| StaggerOutcome.StaggeredSample | bench/kv_scaling/measure.py:323-445 | For a well-formed call on an engine with nothing running, whose i-th request first runs on step s_i, and a pool of any size: the exact result of the sampler. The engine refuses when some step up to the last one the loop takes needs more blocks than the pool has; otherwise the spread of the s_i and the step budget decide, with the decode reading the sum of ceilings of p_i + D - 1 - (s_i - min s) and the prefill reading the one at step max s. The pool is empty afterwards whatever the result. |
| StaggerOutcome.StaggeredOnLargePool | bench/kv_scaling/measure.py:1017-1030 | On a pool that holds the whole batch one token short of its end, as the dry run sizes it, no step is refused and the result depends on the spread and the budget alone. |
| StaggerOutcome.SampleEndsEmpty | bench/kv_scaling/measure.py:444-445 | For any arguments and any state of the stand-in engine, a sample that entered its `try` block leaves every request freed and the pool empty, however it ended. |
| StaggerOutcome.StaggerSucceedsIff | bench/kv_scaling/measure.py:323-431 | With `ignore_eos`, such a sample succeeds if and only if max s - min s <= D - 2, max s <= prefill chunks + 9, and every step t with 0 < t < max s + D fits the pool. |
| RequestIds.RequestIdInjective | bench/kv_scaling/measure.py:712 | Within one campaign, request ids of different cells, samples or positions never collide. |
| CellRun.RunCell | bench/kv_scaling/measure.py:665-747 | Running a cell over any engine is the function `CellOutcome`: argument checks, samples in order, first failure, determinism check, schema check. |
| CellRun.ChunksAreCeiling | bench/kv_scaling/measure.py:609-611 | The number of prefill chunks is the ceiling of batch * seq_len over the token budget, whatever the signs. |
| CellRun.P50IsMedian | bench/kv_scaling/schema.py:91-111 | The p50 of a cell is the median of its decode samples, the middle one or the mean of the two middle ones, and bytes per token times live tokens give it back. |
| CellRun.CellWithinSlack | bench/kv_scaling/measure.py:708-744 | Whatever engine produced it, every decode sample of a returned cell and their median lie within the gate's slack of theory times live tokens. |
| CellRun.CellErrorBound | bench/kv_scaling/schema.py:91-111 | For any engine, measured bytes per token lie between theory and theory times one plus (batch * block + 64) / (batch * (seq_len + 1)). |
| FakeCells.SampleOnFake | bench/kv_scaling/measure.py:489-603 | On the plain engine, quiet and with this sample's ids unused, a sample of a cell that fits the pool succeeds with closed-form bytes, at prefill and at decode, and closed-form tokens, and leaves the engine at rest. |
| FakeCells.CellOnFake | bench/kv_scaling/measure.py:665-747 | A cell that fits the pool never fails on the plain engine, quiet and with the cell's ids unused: all samples equal the closed forms, at prefill and at decode, the pool is empty afterwards and no other cell's ids were used. |
| LeastSquares.FitIsOptimal | bench/kv_scaling/measure.py:768-785 | Of two or more points whose x-values vary, no line has smaller squared error than the returned slope and intercept, and no other line has as small an error. |
| LeastSquares.VarianceDecomposition | bench/kv_scaling/schema.py:114-122 | For such points SST = SSE + slope * Sxy with 0 <= SSE <= SST, so the returned R^2 always meets the schema's 0..1 constraint. |
| LeastSquares.FitSucceedsIff | bench/kv_scaling/measure.py:763-785 | The fit is returned exactly when the points match in number, there are two or more, their x-values vary and the slope meets the schema. |
| LeastSquares.CollinearRecovered | bench/kv_scaling/measure.py:768-785 | The slope and intercept of collinear points whose x-values vary are recovered exactly with no residual, and with R^2 = 1 when the line is sloped. |
| LeastSquares.ZeroVarianceIffConstant | bench/kv_scaling/measure.py:770-772 | The zero-variance refusal fires exactly on constant x-values. |
| LeastSquares.FitStatistics | bench/kv_scaling/measure.py:776-779 | R^2 is one minus the share of the squared error in the total when the y-values vary and 0 when they do not; the residual variance times n - 2 is the squared error, and 0 for two points. |
| Percentile.PercentilesAgree | bench/cell_runner.py:53-64 | The cell runner's interpolation equals the schema's on every nonempty list and every q in [0, 1]. |
| Percentile.PercentileInterpolates | bench/kv_scaling/schema.py:35-44 | With the samples in ascending order and q * (n - 1) = k + t, 0 <= t <= 1, both percentiles are (1 - t) times the k-th sample plus t times the next. |
| Percentile.HalfIsMedian | bench/cell_runner.py:53-64 | At q = 0.5 that is the median. |
| Percentile.FewSamples | bench/cell_runner.py:53-58 | One sample is its own percentile, and the runner reports 0 of none. |
| Percentile.PercentileBetween | bench/kv_scaling/schema.py:35-44 | For q in [0, 1] a percentile of a nonempty list lies between any bounds on the samples. |
| Percentile.PercentileMonotoneInQ | bench/kv_scaling/schema.py:35-44 | Percentiles of a nonempty list are monotone in q over [0, 1]. |
| Percentile.PercentileMonotoneInSamples | bench/cell_runner.py:53-64 | For q in [0, 1], raising the samples of a nonempty list position by position never lowers a percentile. |
| Percentile.PercentilePermutation | bench/cell_runner.py:53-64 | For q in [0, 1], percentiles do not depend on the order of the samples. |
| Percentile.PercentileEnds | bench/kv_scaling/schema.py:35-44 | On a nonempty list q = 0 and q = 1 give the least and the greatest sample. |
| GridFit.PaddedSlope | bench/kv_scaling/measure.py:750-785 | When the token counts vary, fitting theory * (tokens + padding) gives theory * (1 + Cov(tokens, padding) / Var(tokens)). |
| GridFit.CongruentGridSlope | bench/kv_scaling/measure.py:847-871 | On a product grid of lengths of at least a positive shortest one, with varying token counts and constant nonnegative padding per request, that slope lies in [theory, theory * (1 + padding / shortest length)]. |
| Knee.KneeIsSmallest | bench/kv_scaling/measure.py:788-813 | Among measured cells and a nonnegative overhead the knee is found exactly when some cell's bytes reach the overhead; it reports such a cell of least token count, the first listed of that count, with the share its bytes have of overhead plus bytes. |
| DryRun.RunDryRun | bench/kv_scaling/measure.py:973-1086 | The dry run, loops and driver included, is the function `Outcome` of its parameters. |
| DryRun.PoolMeaning | bench/kv_scaling/measure.py:1006-1030 | The pool is the asked size, or 64 blocks more than the cell that needs the most if that is more; every prompt counts with at least 30 decoded tokens in whole blocks. |
| DryRun.StepBudget | bench/kv_scaling/measure.py:609-645 | A dry-run cell's step budget is one step for each 8192 prompt tokens begun, one for each decoded token, at least 30, and 8 more. |
| DryRunTheory.EarlyRefusals | bench/kv_scaling/measure.py:1001-1035 | Fewer than two cells are refused first, then a zero block size by the division that sizes the pool, a negative one and an overhead that is not positive, each exactly then. |
| DryRunTheory.SweepClosedForm | bench/kv_scaling/measure.py:1006-1063 | On every grid of distinct positive sizes the sweep succeeds: no gate, duplicate-id, pool or determinism error in the auto-sized pool, and every cell has its closed form. |
| DryRunDuplicates.SweepSucceedsIffDistinct | bench/kv_scaling/measure.py:554-555 | On positive sizes the sweep succeeds if and only if no size is listed twice; otherwise it fails with the engine's refusal of a reused request id. |
| DryRunTheory.DryRunRecoversSlope | bench/kv_scaling/measure.py:847-871 | Rung 0 end to end: for distinct positive sizes with congruent seq_lens the slope fitted from allocator steps lies in [theory, theory * (1 + e / minL)], so the slope half of the gate passes and only R^2 or the knee can still refuse. |
| DryRunTheory.SingleBatchExact | bench/kv_scaling/measure.py:1064-1069 | With one batch size and congruent seq_lens, on a grid of distinct positive sizes, the slope is exactly the injected one with R^2 = 1, and the dry run passes exactly when some cell's bytes reach the overhead. |
| DryRunTheory.NeverBelowIff | bench/kv_scaling/measure.py:855-857 | "Never below" holds on any grid of distinct positive sizes if and only if padding and token counts do not anticorrelate. |
| DryRunTheory.MixedRemaindersRefused | bench/kv_scaling/measure.py:847-871 | A concrete grid with mixed remainders whose correct pipeline the slope gate refuses. |
| DryRunGate.RoundedFit | bench/kv_scaling/measure.py:768-785 | For theory * (tokens + padding) with varying tokens and positive theory, any bound on the fitted slope, and any positive one on R^2, is equivalent to an inequality in the variances and the covariance of tokens and padding. |
| DryRunGate.GatePassesIff | bench/kv_scaling/measure.py:847-871 | For every grid of distinct positive sizes the dry run's end is decided by its parameters: it passes if and only if the padding's covariance with the tokens is within the slope's two tolerances, tokens explain 98 percent of the rounded tokens' variance and some cell's bytes reach the overhead; otherwise which refusal it is. |
| DryRunPasses.LongGridsPass | bench/kv_scaling/measure.py:847-871 | On distinct positive sizes with congruent seq_lens whose shortest live length is at least seven times the padding, the gate never refuses: the dry run passes if and only if some cell's bytes reach the overhead. |
| DryRunPasses.DefaultGridPasses | bench/kv_scaling/measure.py:998-999 | With no sizes given, the default block size and at most 30 decode tokens, the dry run passes if and only if the overhead is at most 131584 tokens' worth of bytes; up to 544 tokens' worth the knee is the smallest cell, of 541 tokens. |
| DryRunPasses.CampaignReported | bench/kv_scaling/measure.py:1064-1077 | A dry run that passes on distinct positive sizes reports one cell for each size of the grid in order, with the injected overhead and bytes per token, a slope off by the covariance of padding and tokens, and as its knee a cell of least token count whose bytes reach the overhead. |
| DryRunRefusals.SteepRemaindersRefused | bench/kv_scaling/measure.py:855-857 | A concrete grid not below the injected slope that the gate refuses as too steep. |
| DryRunRefusals.ScatteredBatchesRefused | bench/kv_scaling/measure.py:870-871 | A concrete grid with congruent lengths that the gate refuses for its R^2. |
| Recency.AccessSuffix | control/router.py:166-198 | On a list of distinct keys, touching a key and trimming to capacity commutes with taking the last keys that fit: the mutable LRU step refines the recency list. |
| Recency.RecentByLastUse | control/router.py:166-198 | The recency list is exactly the distinct keys of the history ordered by last use. |
| Recency.Survives | control/router.py:166-198 | A key stays cached while it is not touched again and fewer than capacity other keys are touched after it. |
| Recency.Evicted | control/router.py:196-198 | A key not touched again is gone once capacity other distinct keys were touched after it. |
| Router.Router.Route | control/router.py:143-205 | Routing one request on the mutable cache and registry is the function `Routed`. |
| Router.Router.SelectAdmissible | control/router.py:219-246 | Pool selection is the function `Select`. |
| Router.Router.RegisterPool | control/router.py:109-110 | After registering, the pool's state is the new one, every other pool's is unchanged, and the registration order is kept with a new pool last. |
| Router.Router.UpdateDepth | control/router.py:112-114 | A depth update sets the known pool's depth, at least zero, and nothing else of it; every other pool and the order are unchanged, and an unknown pool changes nothing. |
| RouterTheory.AdmissibleIff | control/router.py:209-217 | A pool admits a request exactly when it is healthy and 100 * depth < headroom * capacity, or the request is interactive and the bypass is on. |
| RouterTheory.SelectMeaning | control/router.py:219-246 | A pool is selected exactly when some registered pool admits the request; RAG takes an admitting tier pool, otherwise the admitting pool of least depth, ties by name in alphabetical order. |
| Pools.RankIsAlphabetical | control/router.py:242 | The tie-breaking rank of the pools is the alphabetical order of their names. |
| RouterTheory.RagPrefersTier | control/router.py:231-240 | RAG goes to the tier pool whenever that pool, registered once, admits it. |
| RouterTheory.AdmissionComplete | control/router.py:156-217 | A request is admitted exactly when some registered pool admits it, by health, queue and capacity or the bypass, and always to such a pool, cache hit or not. |
| RouterTheory.DecisionMeaning | control/router.py:143-205 | From a cache without repeated keys, each reason is given exactly in its case: no pools, an entry under the looked-up key whose pool admits the request, no pool that admits, or the selected pool; the key is reported, and the no-history counter moves exactly on requests that meet a pool and are not answered from the cache. |
| RouterTheory.HistoryBalance | control/router.py:179-184 | From a valid cache, over any run of requests, updates and registrations, the no-history counter and the answers from the cache add up to the requests that met a registered pool. |
| RouterTheory.RouteIsAccess | control/router.py:156-205 | From a valid cache, one request is one LRU access of its key, or leaves the cache alone. |
| RouterTheory.CacheIsRecent | control/router.py:143-205 | From a valid cache, after any run of requests, updates and registrations, the cache's keys are the last `prefix_cache_size` distinct keys touched, in order of last touch. |
| RouterTheory.StackInclusion | control/router.py:166-198 | Where some pool always admits, the keys held at a smaller cache size are among those held at a larger one. |
| RouterTheory.HitIffRecent | control/router.py:166-176 | With interactive bypass, only interactive requests and only healthy pools, a request hits exactly when its key is among the last distinct keys that fit. |
| RouterTheory.HitsMonotone | control/router.py:143-205 | Under those conditions the hit count is nondecreasing in cache size. |
| RouterTheory.HitsWithoutEviction | control/router.py:143-205 | Under them the hit count equals requests minus distinct keys when nothing is evicted. |
| RouterTheory.SaltingDefeatsAffinity | control/router.py:64-76 | If no two pools' keys meet on the prefixes seen so far, pool and admission of every request equal those of a router without a cache, over any run. |
| RouterSalts.BatchIgnoresCacheIff | control/router.py:7 | Over every run from an empty router on a set of prefixes, batch requests are placed and admitted as by a router without a cache if and only if no two pools' keys meet on those prefixes, the cache has no room, or the headroom threshold admits nobody. |
| RouterSalts.CacheNeverMattersIff | control/router.py:156-205 | The same for requests of every class, where the last case also needs the interactive bypass to be off. |
| RouterTheory.BatchFollowsCache | control/router.py:166-176 | A run from an empty router after which a batch request follows the cache to a busier pool than the selected one. |
| RouterTheory.ConstantSaltAffinity | control/router.py:156-176 | With a constant salt and a valid cache, a prefix admitted once and not requested in between returns to its pool while that pool admits it and fewer than cache-size other keys were touched since. |
| KvTier.MockLmcacheClient.Store | kv/lmcache_client.py:101-113 | Storing, with its eviction loop, is the function `Stored`. |
| KvTier.MockLmcacheClient.LookupPrefix | kv/lmcache_client.py:70-82 | A lookup is the function `LookedUp`. |
| KvTier.StoreIsAccess | kv/lmcache_client.py:101-113 | From a valid state with a capacity of at least 1 a store is one LRU access, keeps bytes equal to the resident sizes and balances insertions against residents and evictions. |
| KvTier.StoreSucceedsIff | kv/lmcache_client.py:101-113 | A store raises exactly when its key is not resident and the capacity is below one. |
| KvTier.LookupIsTouch | kv/lmcache_client.py:70-82 | From a valid state a lookup touches a resident key, hits exactly when it is resident and drawn, and moves the hit counter then and the miss counter otherwise. |
| KvTier.Conservation | kv/lmcache_client.py:50-113 | With a capacity of at least 1, over every run: bytes are the sum of resident sizes, the hit counter is the number of lookups that hit, hits and misses are all lookups, and every insertion is resident, pushed out or evicted by request. |
| KvTier.SizesAreGiven | kv/lmcache_client.py:101-113 | Over every run a resident entry keeps the size it was stored with when it came in; storing a resident key does not change it. |
| KvTier.TierIsRecent | kv/lmcache_client.py:50-113 | With a capacity of at least 1 and without explicit evictions, the tier's keys are the last capacity distinct keys touched. |
| Pid.PidController.Update | control/pid.py:66-87 | One controller step is `Output` and `Next`; a nonpositive `dt` is refused before any state changes. |
| Pid.OutputOnHistory | control/pid.py:66-87 | After any history of updates and resets from a new controller the output is kp * e + ki * (I + e * dt) + kd * (e - e0) / dt, clamped, where e0 is the error of the last accepted update since the last reset and I the errors times steps of those whose own output was not clamped. |
| Pid.DerivativeAnswersChange | control/pid.py:73 | The derivative answers the change of the error: a repeated error gets exactly the output of the controller without it, a rising one no less and a falling one no more, strictly when kd is positive and neither output is clamped. |
| Pid.NeverWindsUp | control/pid.py:66-87 | With kd = 0, nonnegative gains and an output range that contains zero, from an integral whose contribution lies in the range, every reachable state keeps it there, for any errors. |
| Pid.LeavesRailAtOnce | control/pid.py:75-84 | Under those conditions and with kp or ki positive, the first error of the opposite sign takes the output strictly off the saturated rail. |
| Pid.WindupBounded | control/pid.py:66-87 | From a fresh controller, also with a derivative term, bounded errors and time steps bounded below keep the integral's contribution under one bound over runs of any length. |
| Autoscaler.PoolAutoscaler.TickAll | control/autoscaler.py:101-178 | A tick over all pools, with shared mutable controllers, is the function `Tick`; a refused `dt` stops it where the code raises. |
| Autoscaler.RoundIsNearest | control/autoscaler.py:128 | Rounding gives the one integer within one half of its argument, even when two are. |
| Autoscaler.MoveIsNearest | control/autoscaler.py:122-128 | Before floor and ceiling the move is the integer nearest to step * (2 * (raw - min) / span - 1), ties to even. |
| AutoscalerTheory.TickMeaning | control/autoscaler.py:117-178 | One tick of one pool from its inputs: that move on the controller's output, taken to the nearest allowed replica count, held at zero while a shrink must wait for requests in flight or any move for the dwell time, with its reason, its drain flag and the flip it leaves behind. |
| AutoscalerTheory.StepSafe | control/autoscaler.py:117-149 | One decision from an in-bounds count, with valid settings and an output range that is not empty: within the step, result in bounds, no shrink with requests in flight, dwell respected. |
| AutoscalerTheory.ClosedLoopSafe | control/autoscaler.py:111-178 | From an in-bounds count, with valid settings and positive time steps: at every tick of every closed-loop run replicas stay in bounds, moves stay within the step and a busy pool never shrinks. |
| AutoscalerTheory.FlipsSpaced | control/autoscaler.py:142-168 | With a positive dwell time and no flip yet, any two flips of a pool are at least that far apart, for any topologies and depths it is handed and with no assumption on the clock. |
| AutoscalerTheory.FlipsInWindow | control/autoscaler.py:142-168 | And any window of length T >= 0 holds at most floor(T / dwell) + 1 of them. |
| AutoscalerTheory.LoopIsLane | scripts/autoscaler_live.py:203-227 | A closed loop makes exactly the decisions of its pool on the readings the loop feeds back. |
| AutoscalerTheory.MonotoneInLoad | control/autoscaler.py:117-149 | From equal state with nonnegative effective gain, a deeper queue and a busier pool never get a smaller move, through clamping, rounding, bounds, drain and dwell. |
| AutoscalerTheory.MonotoneIff | control/autoscaler.py:117-149 | More load never gets a smaller move if and only if the effective gain is nonnegative, the dwell window is blocking, or only one replica count is allowed. |
| AutoscalerTheory.NonnegativeKpMonotone | control/pid.py:22-29 | A nonnegative `kp` suffices for that, the schema keeping the other gains nonnegative. |
| AutoscalerTheory.NegativeGainShrinks | control/pid.py:22-29 | With the negative `kp` the schema allows, a deeper queue can turn a growth into a shrink. |
| PoolIndependence.ThrashStaysZero | control/autoscaler.py:158-168 | With a dwell of at least 240 s, or without metrics, no tick ever raises the thrash counter. |
| PoolIndependence.ThrashCounts | control/autoscaler.py:158-168 | With metrics, over any run from no flips, with any controllers, the thrash counter grows by exactly the flips that come less than 240 s after their pool's previous flip, over all pools. |
| PoolIndependence.RunIsLane | control/autoscaler.py:99-178 | With distinct controller objects, each pool of a many-pool run evolves and decides as its own controller on its own readings. |
| PoolIndependence.PoolFlipsSpaced | control/autoscaler.py:142-168 | Over any run of many pools, with their own controllers, shared ones or none, from a state in which the pool has not flipped: with a positive dwell time its flips are spaced by it, and a window of length T >= 0 holds at most floor(T / dwell) + 1 of them. |
| PoolIndependence.Independence | control/autoscaler.py:99-178 | With distinct controller objects, a run over many pools gives each pool exactly the decisions of a single-pool autoscaler fed that pool's inputs and clock. |
| PoolIndependence.SharedControllerInteracts | control/autoscaler.py:112-119 | With a shared controller object a pool's move can differ from the one it would get alone. |
| AutoscalerLive.RunExperiment | scripts/autoscaler_live.py:186-234 | In the live script drain violations are always 0, recorded replicas stay in 1..8, its `max(1, ...)` never acts, and its flip count and every record, with replicas, move and running requests, are those of the closed loop; with no dwell time and a queue that stays seven or more above the target it ends with 1 + ticks replicas, at most eight. |
| AutoscalerLive.FirstLiveDecision | scripts/autoscaler_live.py:203-227 | The first decision in numbers: 0.08 of the error plus 0.01 of error times tick length, clamped to one either way and rounded to nearest even, with nothing to shrink yet. |
| AutoscalerLive.OverloadFills | scripts/autoscaler_live.py:203-227 | Without a dwell time, a queue that stays seven or more above the target adds a replica at every tick until there are eight. |
| Arrival.OnOffArrival.Sample | loadgen/arrival.py:79-108 | Whenever the draws reach the end of each ON phase that starts before the duration, the nested loops terminate, produce exactly the schedule, never take the safety stop and spend one draw per offset plus one per cycle. |
| Arrival.DivergingEnds | loadgen/arrival.py:98-103 | Draws whose sums are unbounded reach the end of every phase of every sample. |
| Arrival.BoundedAwayDiverges | loadgen/arrival.py:98-103 | Draws bounded away from zero have unbounded sums. |
| Arrival.PhaseMeaning | loadgen/arrival.py:98-103 | When the draws reach the phase's end, its arrivals are the running sums of consecutive draws that stay below it, and the next draw crosses it. |
| Arrival.CycleVisited | loadgen/arrival.py:88-107 | A cycle is visited exactly when k * (on + off) < duration; the visits stay within the computed cycle count. |
| Arrival.ScheduleMeaning | loadgen/arrival.py:79-108 | The schedule, cycle by cycle: each visited cycle contributes the running sums of its own consecutive draws from its start that stay below its end, the next draw crosses that end, and the following cycle draws on from there. |
| Arrival.ScheduleSound | loadgen/arrival.py:79-108 | For nonnegative draws that reach every visited phase's end, offsets never fall, lie in [0, duration) and inside the ON window of a visited cycle, and they are strictly increasing exactly when no draw within a phase, after its first, is zero. |
| Arrival.PositiveNoZeroGap | loadgen/arrival.py:79-108 | Positive draws therefore give strictly increasing offsets. |
| Arrival.ZeroDrawRepeats | loadgen/arrival.py:79-108 | A concrete stream with one zero draw whose schedule repeats an offset. |
| Arrival.SamplePoisson | loadgen/arrival.py:36-51 | For nonnegative draws, Poisson offsets are their running sums, never falling, and strictly increasing exactly when no draw after the first is zero; a negative count is refused. |
| Arrival.Iterate | loadgen/arrival.py:151-165 | The scheduler yields a prefix of the requests in order, as many as both lists allow, with nondecreasing timestamps: the start plus the offset in whole nanoseconds, the fraction cut off. |
| Arrival.ArrivalInNs | loadgen/arrival.py:156 | A timestamp is the start plus the offset times 1,000,000,000, truncated toward zero. |
| Arrival.RunOnOff | loadgen/arrival.py:125-157 | Generator and scheduler together: a prefix of the requests, each at its scheduled offset in whole nanoseconds, timestamps nondecreasing and inside the window. |
| SpecDecode.SpecDecoder.ProposeAndVerify | spec/eagle.py:118-151 | One round is `Execute` with the accepted tokens drawn; a disabled decoder declines, a negative count raises after the state moved. |
| SpecDecode.HitsMeaning | spec/eagle.py:128-132 | The accepted drafts of a round are exactly those whose own draw falls below the target rate, in order. |
| SpecDecode.SpecDecoder.constructor | spec/eagle.py:76-90 | A decoder starts enabled exactly when asked to and its topology is not one of the two disaggregated ones. |
| SpecDecode.WindowIsSuffix | spec/eagle.py:118-138 | From a fresh decoder, through any toggles, the window is the last `min_window` bins of the rounds that ran and the totals are their sums. |
| SpecDecode.DisablesExactlyAtFirstTrip | spec/eagle.py:140-145 | Without manual toggles the decoder disables at exactly the first round by which a full window holds too few good rounds, never earlier, and is frozen from then on. |
| SpecDecode.TripsIsFails | spec/eagle.py:134-145 | The window's mean falls below the threshold exactly when, of the last `min_window` rounds, fewer than that share reached the threshold with their own acceptances, a round without drafts counting as rate 0. |
| SpecDecode.SomeStop | spec/eagle.py:140-145 | Every history has such a stopping point. |
| SpecDecode.GateHoldsIff | spec/eagle.py:88-116 | On a disaggregated topology no round runs if and only if none comes while the last toggle is `enable()`; until then the decoder's window and totals stay empty and its flag is the last toggle. |
| SpecDecode.EnableDefeatsGate | spec/eagle.py:110-112 | On both disaggregated topologies, `enable()` followed by a round runs that round. |
| SpecDecode.TotalsOrdered | spec/eagle.py:136-138 | With nonnegative draft counts and no more hits than drafts, acceptances never exceed proposals, through any toggles. |
| SpecDecode.RoundKeepsOrderIff | spec/eagle.py:118-151 | From ordered totals, a round keeps acceptances within proposals for every accept pattern if and only if its draft count is nonnegative or covered by the slack. |
| SpecDecode.NegativeDraftBreaksTotals | spec/eagle.py:118-151 | A first round of -1 drafts leaves -1 proposals and 0 acceptances. |
| Matrix.CellIdInjective | bench/schema/cell_schema.py:55-57 | A cell id determines topology, model, rate and mix. |
| Matrix.BenchMatrix.PendingCellSpecs | bench/runpod_matrix.py:114-142 | The directory scan, in any order, lists exactly the cells without a valid file. |
| Matrix.BenchMatrix.RunOne | bench/cell_runner.py:256-270 | Running one cell skips any parseable file, re-executes over a corrupt one and stores what was measured. |
| Matrix.BenchMatrix.RunSpecs | bench/runpod_matrix.py:156-186 | The sweep loop with failures and early stops is the function `Sweep`. |
| Matrix.BenchMatrix.RunPending | bench/runpod_matrix.py:150-152 | `run_pending` is the sweep over the pending cells. |
| MatrixTheory.CellsDistinct | bench/runpod_matrix.py:60-81 | Duplicate-free lists give exactly `total_cells` cells, no two with the same id. |
| MatrixTheory.CellsInOrder | bench/runpod_matrix.py:60-81 | Every combination of topology, model, rate and mix is the cell at its place in nested-loop order, with the matrix's warm-up and measured counts. |
| MatrixTheory.SweepPreserves | bench/cell_runner.py:256-270 | Over any sweep, a file that parses is never changed and its cell never executed. |
| MatrixTheory.SweepAccounting | bench/runpod_matrix.py:156-186 | After any number of cells of a sweep over the pending cells of a duplicate-free matrix, completions equal the cells taken off the pending list plus those answered from foreign files, through any failures and stops. |
| MatrixTheory.ShrinksByCompletedIff | bench/runpod_matrix.py:150-186 | A sweep over the pending cells, cut after any number of them, shrinks the pending list by exactly its completions if and only if no cell up to the first that breaks it off has a file with another id. |
| MatrixTheory.SweepReaches | bench/runpod_matrix.py:156-186 | A sweep of distinct cells attempts exactly those up to the first that breaks it off, a failed or not reconciled cell under the strict flag, and halts exactly there. |
| MatrixTheory.SweepReports | bench/runpod_matrix.py:160-186 | The report of a sweep of distinct cells, read off the cells it reaches: completed and failed are those answered and not, the total duration is the sum of the answers', and every file is what its cell was left with. |
| MatrixTheory.LenientShrinksIff | bench/runpod_matrix.py:150-186 | Without the strict flag: if and only if no pending cell has a file with another id. |
| MatrixTheory.CampaignAccounting | bench/runpod_matrix.py:9-11 | On a duplicate-free matrix, over any number of sittings, each cut short after any cell, dying in the middle of one, stopped or failing, from a directory with no foreign ids: total completions equal the cells taken off the pending list, and no foreign id appears. |
| MatrixTheory.CampaignPreserves | bench/cell_runner.py:256-270 | Through any number of such sittings a file that parses is never changed and its cell never executed. |
| MatrixTheory.MismatchNeverHeals | bench/runpod_matrix.py:134-140 | A file with another id keeps its cell pending through every such campaign, without a re-run. |
| MatrixTheory.ExecutedIff | bench/cell_runner.py:256-270 | Over any sweep of distinct cells, a cell is executed exactly when no earlier cell breaks the sweep off, the sweep is not cut before it, and its file is absent or corrupt. |
| MatrixTheory.RunAllExecutesAllIff | bench/runpod_matrix.py:146-148 | An unstopped `run_all` over distinct cells executes every cell if and only if no cell has a file that parses. |
| MatrixTheory.RunAllSkipsStored | bench/runpod_matrix.py:146-148 | Sweeping the whole matrix executes nothing and reports every cell completed when every cell's file parses. |
| MatrixTheory.SweepFinishes | bench/runpod_matrix.py:150-152 | On a duplicate-free matrix, from a directory with no foreign ids, when no measurement fails, one uninterrupted sweep leaves nothing pending. |
| MatrixReport.ScanRaw | bench/matrix_report.py:44-71 | The scan returns the valid ids and the corrupt or mismatched cell files, ignoring other artifacts. |
| MatrixReport.SweepCompletionReport | bench/matrix_report.py:74-106 | The missing ids are exactly the ids of the pending cells, grouped by topology with the groups summing to the missing count, out of the distinct ids of the matrix, and the percentage is that of the cells on disk, 100 for an empty matrix. |

## Left out

- Float rounding: all arithmetic on floats is exact, so nothing is said about rounding or overflow.
- LeastSquares: `residual_se` is modelled as its square, because exact reals have no square root here.
- SHA-256: the prefix key is an abstract function of pool and prefix; where keys must not collide across pools, that is assumed of the prefixes in use.
- Random distributions: draws are arbitrary inputs, and that exponential draws reach every phase end with probability one is not stated.
- Prompt text and tokenizers: a request is its id, length and budget; `build_exact_length_prompts` is not part of the model.
- `VllmEngineDriver`, block-pool probing, theory resolution and the GPU sweep: they depend on foreign engine objects.
- `abort_request`, cost preflight, artifact writers, `validate_against_theory` and plots: no property beyond their own bodies.
- The type check on `num_gpu_blocks` in the sampler: block totals are integers here.
- `publish_metrics` and metric registries: only the thrash counter is modelled.
- Capacity percentages, tier names, tier policy and reconcile deltas: single expressions.
- SpecDecoder policy objects: the policy is fixed at construction, so decoders that share and mutate one policy object are not modelled.
- Sub-directories, unreadable files and concurrent writers in the cells directory: the directory is a map from stems to files, and a file either parses or does not.
- Matrix.CellSpec: the derived seed and the metrics of a result are not modelled; a result is its id, reconcile flag and duration.
- The sorted order of the report's missing ids and corrupt names: they are sets here.
- HTTP, asyncio, subprocesses, the disaggregation proxy, the mock server and the command lines.
