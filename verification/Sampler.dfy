/** `sample_decode_window` of bench/kv_scaling/measure.py: the step loop and its gates. */
module Sampler {
  import opened Prelude
  import opened Engine

  datatype Config = Config(
    ids: seq<string>,
    promptCount: nat,
    promptLens: seq<int>,
    decodeTokens: int,
    ignoreEos: bool,
    prefillChunks: int,
    theoryBpt: int,
    blockSize: int)

  datatype SampleError =
    | NoRequests | LengthMismatch | BadPromptLen | BadDecodeTokens | BadTheory | BadBlockSize | BadPoolTotal
    | EngineRaised
    | NegativeUsed | TooManyBlocks | TooFewBlocks
    | UnknownRequest | NegativeTokens
    | FinishedBeforePrefill | DidNotFinish | PrefillNeverCompleted | TooStaggered | BlocksFreed

  /** One block reading: blocks used, and the live tokens the gate compared them with. */
  datatype Reading = Reading(used: int, live: int)

  /** The locals of the step loop; `finished` is the set of ids whose flag is true. */
  datatype Loop = Loop(
    generated: map<string, int>,
    finished: set<string>,
    prefill: Option<Reading>,
    decode: Option<Reading>)

  datatype SampleReadings = SampleReadings(
    kvBytesPrefill: int, kvBytesDecode: int,
    liveTokensPrefill: int, liveTokensDecode: int,
    usedBlocksPrefill: int, usedBlocksDecode: int)

  // ---------- the consistency gate ----------

  function CheckBlocks(used: int, live: int, batch: nat, blockSize: int, fullyScheduled: bool): Result<(), SampleError> {
    var slots := used * blockSize;
    if used < 0 then Err(NegativeUsed)
    else if slots > live + batch * blockSize + 64 then Err(TooManyBlocks)
    else if fullyScheduled && slots < live then Err(TooFewBlocks)
    else Ok(())
  }

  /** What the gate promises about a reading of a fully scheduled batch. */
  ghost predicate Consistent(c: Config, r: Reading) {
    0 <= r.used && r.live <= r.used * c.blockSize <= r.live + |c.ids| * c.blockSize + 64
  }

  // ---------- loop state ----------

  /** The counters cover exactly the batch, as the two dict comprehensions make them. */
  predicate Tracks(c: Config, l: Loop) {
    && |c.promptLens| == |c.ids|
    && (forall id | id in c.ids :: id in l.generated)
    && (forall id | id in l.generated :: id in c.ids)
    && (forall id | id in l.finished :: id in c.ids)
  }

  /** Live tokens of the first `n` requests: finished requests hold no cache. */
  function LiveUpTo(c: Config, l: Loop, n: nat): int
    requires Tracks(c, l) && n <= |c.ids|
  {
    if n == 0 then 0
    else
      var id := c.ids[n - 1];
      LiveUpTo(c, l, n - 1)
      + if id in l.finished then 0 else c.promptLens[n - 1] + l.generated[id]
  }

  function Live(c: Config, l: Loop): int
    requires Tracks(c, l)
  {
    LiveUpTo(c, l, |c.ids|)
  }

  /** Every unfinished request has generated at least one token. */
  predicate Scheduled(c: Config, l: Loop)
    requires Tracks(c, l)
  {
    forall i :: 0 <= i < |c.ids| && c.ids[i] !in l.finished ==> l.generated[c.ids[i]] >= 1
  }

  predicate AllFinished(c: Config, l: Loop) {
    forall i :: 0 <= i < |c.ids| ==> c.ids[i] in l.finished
  }

  /** One output of a known request. */
  function Bump(l: Loop, o: StepOutput): Loop
    requires o.requestId in l.generated
  {
    l.(generated := l.generated[o.requestId := l.generated[o.requestId] + o.newTokens],
       finished := if o.finished then l.finished + {o.requestId} else l.finished)
  }

  /** Folds one step's outputs into the counters. */
  function Absorb(l: Loop, outs: seq<StepOutput>): Result<Loop, SampleError>
    decreases |outs|
  {
    if outs == [] then Ok(l)
    else
      var o := outs[0];
      if o.requestId !in l.generated then Err(UnknownRequest)
      else if o.newTokens < 0 then Err(NegativeTokens)
      else Absorb(Bump(l, o), outs[1..])
  }

  lemma {:induction false} AbsorbTracks(c: Config, l: Loop, outs: seq<StepOutput>)
    requires Tracks(c, l) && Absorb(l, outs).Ok?
    ensures var l' := Absorb(l, outs).value;
            && Tracks(c, l') && l.finished <= l'.finished
            && l'.prefill == l.prefill && l'.decode == l.decode
            && forall id :: id in l.generated ==> l.generated[id] <= l'.generated[id]
    decreases |outs|
  {
    if outs != [] {
      AbsorbTracks(c, Bump(l, outs[0]), outs[1..]);
    }
  }

  /** Tokens that one step's outputs report for a request. */
  function TokensFor(outs: seq<StepOutput>, id: string): int {
    if outs == [] then 0
    else (if outs[0].requestId == id then outs[0].newTokens else 0) + TokensFor(outs[1..], id)
  }

  /** One step's outputs say that the request has finished. */
  ghost predicate EndsIn(outs: seq<StepOutput>, id: string) {
    exists k :: 0 <= k < |outs| && outs[k].requestId == id && outs[k].finished
  }

  ghost predicate Readable(l: Loop, outs: seq<StepOutput>) {
    forall k :: 0 <= k < |outs| ==> outs[k].requestId in l.generated && outs[k].newTokens >= 0
  }

  /** The first output of a list that cannot be read, and the refusal it gets. */
  ghost predicate FirstUnreadable(l: Loop, outs: seq<StepOutput>, k: nat, e: SampleError) {
    && k < |outs| && Readable(l, outs[..k])
    && if outs[k].requestId !in l.generated then e == UnknownRequest else outs[k].newTokens < 0 && e == NegativeTokens
  }

  /** Each counter grows by the tokens reported for its request; finished are those reported so. */
  ghost predicate Absorbs(l: Loop, outs: seq<StepOutput>, m: Loop) {
    && m.generated.Keys == l.generated.Keys
    && (forall id :: id in l.generated ==> m.generated[id] == l.generated[id] + TokensFor(outs, id))
    && (forall id :: id in m.finished <==> id in l.finished || EndsIn(outs, id))
    && m.prefill == l.prefill && m.decode == l.decode
  }

  /** What folding a step's outputs into the counters comes to. */
  lemma {:induction false} AbsorbMeaning(l: Loop, outs: seq<StepOutput>)
    ensures var r := Absorb(l, outs);
            && (r.Ok? <==> Readable(l, outs))
            && (r.Ok? ==> Absorbs(l, outs, r.value))
            && (r.Err? ==> exists k: nat :: FirstUnreadable(l, outs, k, r.error))
    decreases |outs|
  {
    if outs != [] {
      var o, rest := outs[0], outs[1..];
      if o.requestId in l.generated && o.newTokens >= 0 {
        var l1 := Bump(l, o);
        AbsorbMeaning(l1, rest);
        EndsInCons(outs);
        assert forall k :: 1 <= k < |outs| ==> outs[k] == rest[k - 1];
        if Absorb(l1, rest).Err? {
          var k: nat :| FirstUnreadable(l1, rest, k, Absorb(l1, rest).error);
          assert outs[..k + 1] == [o] + rest[..k];
          assert FirstUnreadable(l, outs, k + 1, Absorb(l, outs).error);
        }
      } else {
        assert FirstUnreadable(l, outs, 0, Absorb(l, outs).error);
      }
    }
  }

  lemma EndsInCons(outs: seq<StepOutput>)
    requires outs != []
    ensures forall id :: EndsIn(outs, id) <==> (outs[0].requestId == id && outs[0].finished) || EndsIn(outs[1..], id)
  {
    forall id | EndsIn(outs[1..], id) ensures EndsIn(outs, id) {
      var k :| 0 <= k < |outs[1..]| && outs[1..][k].requestId == id && outs[1..][k].finished;
      assert outs[k + 1] == outs[1..][k];
    }
    forall id | EndsIn(outs, id) && !(outs[0].requestId == id && outs[0].finished) ensures EndsIn(outs[1..], id) {
      var k :| 0 <= k < |outs| && outs[k].requestId == id && outs[k].finished;
      assert outs[1..][k - 1] == outs[k];
    }
  }

  /** Prefill is read once, decode is refrozen while every request is still alive. */
  function Record(l: Loop, r: Reading, scheduled: bool): Loop {
    var l1 := if l.prefill.None? && scheduled then l.(prefill := Some(r)) else l;
    if l1.prefill.Some? && l1.finished == {} then l1.(decode := Some(r)) else l1
  }

  // ---------- one iteration, the loop, the whole sample ----------

  datatype Turn<S> =
    | Next(state: S, loop: Loop)
    | Stop(state: S, loop: Loop)
    | Refuse(state: S, error: SampleError)

  /** The half of an iteration before and including the engine step. */
  function BeforeStep<S>(b: Behaviour<S>, c: Config, s: S, l: Loop): Turn<S>
    requires Tracks(c, l)
  {
    var (s1, free) := b.numFreeBlocks(s);
    if free.Raised? then Refuse(s1, EngineRaised)
    else
      var gate := CheckBlocks(b.totalBlocks - free.value, Live(c, l), |c.ids|, c.blockSize, Scheduled(c, l));
      if gate.Err? then Refuse(s1, gate.error)
      else
        var (s2, outs) := b.step(s1);
        if outs.Raised? then Refuse(s2, EngineRaised)
        else match Absorb(l, outs.value)
          case Err(e) => Refuse(s2, e)
          case Ok(l') => Next(s2, l')
  }

  /** The half of an iteration after the engine step. */
  function AfterStep<S>(b: Behaviour<S>, c: Config, s: S, l: Loop): Turn<S>
    requires Tracks(c, l)
  {
    if AllFinished(c, l) then
      if l.decode.None? then Stop(s, l)
      else
        var (s1, n) := b.numUnfinished(s);
        if n.Raised? then Refuse(s1, EngineRaised) else Stop(s1, l)
    else
      var (s1, free) := b.numFreeBlocks(s);
      if free.Raised? then Refuse(s1, EngineRaised)
      else
        var r := Reading(b.totalBlocks - free.value, Live(c, l));
        var gate := CheckBlocks(r.used, r.live, |c.ids|, c.blockSize, Scheduled(c, l));
        if gate.Err? then Refuse(s1, gate.error)
        else if l.prefill.None? && l.finished != {} then Refuse(s1, FinishedBeforePrefill)
        else Next(s1, Record(l, r, Scheduled(c, l)))
  }

  lemma BeforeStepTracks<S>(b: Behaviour<S>, c: Config, s: S, l: Loop)
    requires Tracks(c, l) && BeforeStep(b, c, s, l).Next?
    ensures var l' := BeforeStep(b, c, s, l).loop;
            && Tracks(c, l') && l.finished <= l'.finished
            && l'.prefill == l.prefill && l'.decode == l.decode
            && forall id :: id in l.generated ==> l.generated[id] <= l'.generated[id]
  {
    var s1 := b.numFreeBlocks(s).0;
    AbsorbTracks(c, l, b.step(s1).1.value);
  }

  function Iterate<S>(b: Behaviour<S>, c: Config, s: S, l: Loop): (t: Turn<S>)
    requires Tracks(c, l)
    ensures !t.Refuse? ==> Tracks(c, t.loop)
  {
    var t := BeforeStep(b, c, s, l);
    if t.Next? then
      BeforeStepTracks(b, c, s, l);
      AfterStep(b, c, t.state, t.loop)
    else t
  }

  /** One loop iteration as a function value; the counters are always in step with the batch. */
  type TurnFunction<!S> = (S, Loop) -> Turn<S>

  function TurnOf<S>(b: Behaviour<S>, c: Config): TurnFunction<S> {
    (s, l) => if Tracks(c, l) then Iterate(b, c, s, l) else Refuse(s, LengthMismatch)
  }

  /** The `for ... else` loop with `fuel` iterations left. */
  function RunTurns<S>(f: TurnFunction<S>, s: S, l: Loop, fuel: nat): (S, Result<Loop, SampleError>)
    decreases fuel
  {
    if fuel == 0 then (s, Err(DidNotFinish))
    else
      match f(s, l)
      case Refuse(s', e) => (s', Err(e))
      case Stop(s', l') => (s', Ok(l'))
      case Next(s', l') => RunTurns(f, s', l', fuel - 1)
  }

  function RunLoop<S>(b: Behaviour<S>, c: Config, s: S): (S, Result<Loop, SampleError>) {
    RunTurns(TurnOf(b, c), s, StartLoop(c), MaxSteps(c))
  }

  function Conclude(c: Config, l: Loop): Result<SampleReadings, SampleError> {
    if l.prefill.None? then Err(PrefillNeverCompleted)
    else if l.decode.None? then Err(TooStaggered)
    else
      var p, d := l.prefill.value, l.decode.value;
      if d.used < p.used then Err(BlocksFreed)
      else Ok(SampleReadings(p.used * c.blockSize * c.theoryBpt, d.used * c.blockSize * c.theoryBpt,
                             p.live, d.live, p.used, d.used))
  }

  function ConcludeRun(c: Config, ran: Result<Loop, SampleError>): Result<SampleReadings, SampleError> {
    if ran.Err? then Err(ran.error) else Conclude(c, ran.value)
  }

  function Validate(c: Config, totalBlocks: int): Result<(), SampleError> {
    if |c.ids| == 0 then Err(NoRequests)
    else if !(c.promptCount == |c.ids| && |c.promptLens| == |c.ids|) then Err(LengthMismatch)
    else if exists i :: 0 <= i < |c.promptLens| && c.promptLens[i] <= 0 then Err(BadPromptLen)
    else if c.decodeTokens < 1 then Err(BadDecodeTokens)
    else if c.theoryBpt <= 0 then Err(BadTheory)
    else if c.blockSize <= 0 then Err(BadBlockSize)
    else if totalBlocks <= 0 then Err(BadPoolTotal)
    else Ok(())
  }

  /** What the sampler asks of its arguments. */
  ghost predicate WellFormed(c: Config, totalBlocks: int) {
    && |c.ids| > 0 && c.promptCount == |c.ids| == |c.promptLens|
    && (forall i :: 0 <= i < |c.promptLens| ==> c.promptLens[i] > 0)
    && c.decodeTokens >= 1 && c.theoryBpt > 0 && c.blockSize > 0 && totalBlocks > 0
  }

  lemma ValidateIff(c: Config, totalBlocks: int)
    ensures Validate(c, totalBlocks).Ok? <==> WellFormed(c, totalBlocks)
  {}

  /** Adds the first `n` requests. */
  function AddUpTo<S>(b: Behaviour<S>, c: Config, s: S, n: nat): (S, Reply<()>)
    requires n <= |c.ids| == |c.promptLens|
  {
    if n == 0 then (s, Answer(()))
    else
      var (s1, r) := AddUpTo(b, c, s, n - 1);
      if r.Raised? then (s1, r)
      else b.addRequest(s1, Request(c.ids[n - 1], c.promptLens[n - 1], c.decodeTokens, c.ignoreEos))
  }

  function StartLoop(c: Config): Loop {
    Loop(map id | id in c.ids :: 0, {}, None, None)
  }

  /** Step budget: a nonpositive `range` runs no iteration. */
  function MaxSteps(c: Config): nat {
    Max(0, c.prefillChunks + c.decodeTokens + 8)
  }

  /** A finished call: the engine's state, the outcome, and whether the `try` block was entered. */
  datatype SampleRun<S> = SampleRun(state: S, result: Result<SampleReadings, SampleError>, entered: bool)

  function Sample<S>(b: Behaviour<S>, c: Config, s: S): SampleRun<S> {
    var v := Validate(c, b.totalBlocks);
    if v.Err? then SampleRun(s, Err(v.error), false)
    else
      var (s0, added) := AddUpTo(b, c, s, |c.ids|);
      if added.Raised? then SampleRun(s0, Err(EngineRaised), false)
      else
        var (s1, ran) := RunLoop(b, c, s0);
        var (s2, ended) := b.endSample(s1);
        SampleRun(s2, if ended.Raised? then Err(EngineRaised) else ConcludeRun(c, ran), true)
  }

  // ---------- the imperative form ----------

  method AbsorbOutputs(l: Loop, outs: seq<StepOutput>) returns (r: Result<Loop, SampleError>)
    ensures r == Absorb(l, outs)
    ensures r.Ok? <==> Readable(l, outs)
    ensures r.Ok? ==> Absorbs(l, outs, r.value)
    ensures r.Err? ==> exists k: nat :: FirstUnreadable(l, outs, k, r.error)
  {
    hide Readable, Absorbs, FirstUnreadable;
    AbsorbMeaning(l, outs);
    var cur := l;
    for i := 0 to |outs|
      invariant Absorb(l, outs) == Absorb(cur, outs[i..])
    {
      var o := outs[i];
      assert outs[i..][0] == o && outs[i..][1..] == outs[i + 1..];
      if o.requestId !in cur.generated {
        return Err(UnknownRequest);
      }
      if o.newTokens < 0 {
        return Err(NegativeTokens);
      }
      cur := Bump(cur, o);
    }
    return Ok(cur);
  }

  /** Read, gate, step, absorb. */
  method GateAndStep<S>(driver: Driver<S>, c: Config, l: Loop) returns (t: Turn<S>)
    requires Tracks(c, l)
    modifies driver`state, driver`stepCalls
    ensures t == BeforeStep(driver.engine, c, old(driver.state), l) && driver.state == t.state
    ensures driver.stepCalls <= old(driver.stepCalls) + 1
    ensures t.Refuse? && t.error in {NegativeUsed, TooManyBlocks, TooFewBlocks} ==> driver.stepCalls == old(driver.stepCalls)
  {
    var free := driver.NumFreeBlocks();
    if free.Raised? {
      return Refuse(driver.state, EngineRaised);
    }
    var used := driver.engine.totalBlocks - free.value;
    var gate := CheckBlocks(used, Live(c, l), |c.ids|, c.blockSize, Scheduled(c, l));
    if gate.Err? {
      return Refuse(driver.state, gate.error);
    }
    var outs := driver.Step();
    if outs.Raised? {
      return Refuse(driver.state, EngineRaised);
    }
    var absorbed := AbsorbOutputs(l, outs.value);
    match absorbed
    case Err(e) => t := Refuse(driver.state, e);
    case Ok(l') => t := Next(driver.state, l');
  }

  /** Stop when everything finished; otherwise read, gate and record. */
  method ReadAfterStep<S>(driver: Driver<S>, c: Config, l: Loop) returns (t: Turn<S>)
    requires Tracks(c, l)
    modifies driver`state
    ensures t == AfterStep(driver.engine, c, old(driver.state), l) && driver.state == t.state
  {
    if AllFinished(c, l) {
      if l.decode.Some? {
        var n := driver.NumUnfinished();
        if n.Raised? {
          return Refuse(driver.state, EngineRaised);
        }
      }
      return Stop(driver.state, l);
    }
    var free := driver.NumFreeBlocks();
    if free.Raised? {
      return Refuse(driver.state, EngineRaised);
    }
    var reading := Reading(driver.engine.totalBlocks - free.value, Live(c, l));
    var scheduled := Scheduled(c, l);
    var gate := CheckBlocks(reading.used, reading.live, |c.ids|, c.blockSize, scheduled);
    if gate.Err? {
      return Refuse(driver.state, gate.error);
    }
    if l.prefill.None? && l.finished != {} {
      return Refuse(driver.state, FinishedBeforePrefill);
    }
    return Next(driver.state, Record(l, reading, scheduled));
  }

  /** One pass through the loop body. */
  method OneIteration<S>(driver: Driver<S>, c: Config, l: Loop) returns (t: Turn<S>)
    requires Tracks(c, l)
    modifies driver`state, driver`stepCalls
    ensures t == TurnOf(driver.engine, c)(old(driver.state), l) && driver.state == t.state
    ensures t.Next? ==> Tracks(c, t.loop)
    ensures driver.stepCalls <= old(driver.stepCalls) + 1
  {
    ghost var s := driver.state;
    t := GateAndStep(driver, c, l);
    if t.Next? {
      BeforeStepTracks(driver.engine, c, s, l);
      t := ReadAfterStep(driver, c, t.loop);
    }
    assert t == Iterate(driver.engine, c, s, l);
  }

  /** The body of the `try` block up to the end of the `for` loop. */
  method StepLoop<S>(driver: Driver<S>, c: Config, ghost f: TurnFunction<S>) returns (r: Result<Loop, SampleError>)
    requires |c.ids| == |c.promptLens| && f == TurnOf(driver.engine, c)
    modifies driver`state, driver`stepCalls
    ensures (driver.state, r) == RunTurns(f, old(driver.state), StartLoop(c), MaxSteps(c))
    ensures driver.stepCalls <= old(driver.stepCalls) + MaxSteps(c)
  {
    hide TurnOf, Iterate;
    var max := MaxSteps(c);
    var l := StartLoop(c);
    for stepIdx := 0 to max
      invariant Tracks(c, l)
      invariant driver.stepCalls <= old(driver.stepCalls) + stepIdx
      invariant RunTurns(f, old(driver.state), StartLoop(c), max) == RunTurns(f, driver.state, l, max - stepIdx)
    {
      var t := OneIteration(driver, c, l);
      match t
      case Refuse(_, e) => return Err(e);
      case Stop(_, l') => return Ok(l');
      case Next(_, l') => l := l';
    }
    return Err(DidNotFinish);
  }

  method SampleDecodeWindow<S>(driver: Driver<S>, c: Config) returns (r: Result<SampleReadings, SampleError>)
    modifies driver
    ensures var run := Sample(driver.engine, c, old(driver.state));
            && driver.state == run.state && r == run.result
            && driver.endCalls == old(driver.endCalls) + (if run.entered then 1 else 0)
            && (!run.entered ==> driver.stepCalls == old(driver.stepCalls))
    ensures driver.stepCalls <= old(driver.stepCalls) + MaxSteps(c)
  {
    var v := Validate(c, driver.engine.totalBlocks);
    if v.Err? {
      return Err(v.error);
    }
    for i := 0 to |c.ids|
      invariant var added := AddUpTo(driver.engine, c, old(driver.state), i);
                added.0 == driver.state && added.1.Answer?
      invariant driver.stepCalls == old(driver.stepCalls) && driver.endCalls == old(driver.endCalls)
    {
      var a := driver.AddRequest(Request(c.ids[i], c.promptLens[i], c.decodeTokens, c.ignoreEos));
      assert AddUpTo(driver.engine, c, old(driver.state), i + 1) == (driver.state, a);
      if a.Raised? {
        AddRaised(driver.engine, c, old(driver.state), i + 1, |c.ids|);
        return Err(EngineRaised);
      }
    }
    var ran := StepLoop(driver, c, TurnOf(driver.engine, c));
    var ended := driver.EndSample();
    if ended.Raised? {
      return Err(EngineRaised);
    }
    match ran
    case Err(e) => r := Err(e);
    case Ok(l) => r := Conclude(c, l);
  }

  /** Once an `add_request` raises, no later one is made. */
  lemma {:induction false} AddRaised<S>(b: Behaviour<S>, c: Config, s: S, i: nat, n: nat)
    requires i <= n <= |c.ids| == |c.promptLens|
    requires AddUpTo(b, c, s, i).1.Raised?
    ensures AddUpTo(b, c, s, n) == AddUpTo(b, c, s, i)
    decreases n - i
  {
    if i < n {
      AddRaised(b, c, s, i + 1, n);
    }
  }
}
