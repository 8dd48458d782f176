/** The exact outcome of sampling a truthful staggered engine. */
module StaggerOutcome {
  import opened Prelude
  import opened Engine
  import opened Sampler
  import opened FakeEngine
  import opened Stagger

  // ---------- one turn ----------

  /** `lo` and `hi` are the earliest and the latest first step of the batch. */
  ghost predicate Spread(p: Setup, c: Config, lo: nat, hi: nat) {
    && (forall i: nat :: i < |c.ids| ==> lo <= p.firstStep(i) <= hi)
    && (exists i: nat :: i < |c.ids| && p.firstStep(i) == lo)
    && (exists i: nat :: i < |c.ids| && p.firstStep(i) == hi)
  }

  /** Everything fixed during one sample; `early` are the requests of earlier samples. */
  ghost predicate Scene(p: Setup, c: Config, early: seq<FakeRequest>, lo: nat, hi: nat) {
    && Shape(p, c) && DistinctStrings(c.ids) && Spread(p, c, lo, hi)
    && (forall k :: 0 <= k < |early| ==> early[k].finished && early[k].freed)
  }

  /** The pool holds what the batch needs after step `t`. */
  ghost predicate Fits(p: Setup, c: Config, t: nat)
    requires Shape(p, c)
  {
    UsedBy(p, RequestsAt(p, c, |c.ids|, t)) <= p.totalBlocks
  }

  /** Some step after `t` and up to `last` needs more than the pool has. */
  ghost predicate OverflowsBy(fits: nat -> bool, t: nat, last: nat) {
    exists k: nat :: t < k <= last && !fits(k)
  }

  lemma OverflowSplits(fits: nat -> bool, t: nat, last: nat)
    requires t < last
    ensures OverflowsBy(fits, t, last) <==> !fits(t + 1) || OverflowsBy(fits, t + 1, last)
  {}

  /** Who has finished, read off the step count. */
  lemma FinishedAt(p: Setup, c: Config, l: Loop, i: nat, t: nat)
    requires Shape(p, c) && InStep(p, c, l, t) && i < |c.ids|
    ensures Tracks(c, l)
    ensures c.ids[i] in l.finished <==> t + 1 >= p.firstStep(i) + Limit(p, c)
  {
    assert Gen(p.firstStep(i), Limit(p, c), t) >= Limit(p, c) <==> t + 1 >= p.firstStep(i) + Limit(p, c);
  }

  /** The three loop tests, read off the step count. */
  lemma TestsAt(p: Setup, c: Config, early: seq<FakeRequest>, lo: nat, hi: nat, l: Loop, t: nat)
    requires Scene(p, c, early, lo, hi) && InStep(p, c, l, t)
    ensures Scheduled(c, l) <==> t >= hi
    ensures AllFinished(c, l) <==> t + 1 >= hi + Limit(p, c)
    ensures l.finished != {} <==> t + 1 >= lo + Limit(p, c)
  {
    hide InStep, Scheduled, Limit;
    ScheduledIsStarted(p, c, l, t);
    var a: nat :| a < |c.ids| && p.firstStep(a) == lo;
    var z: nat :| z < |c.ids| && p.firstStep(z) == hi;
    forall i: nat | i < |c.ids| ensures c.ids[i] in l.finished <==> t + 1 >= p.firstStep(i) + Limit(p, c) {
      FinishedAt(p, c, l, i, t);
    }
    FinishedAt(p, c, l, a, t);
    if l.finished != {} {
      var id :| id in l.finished;
      assert id in c.ids;
    }
  }

  lemma SyncAt(p: Setup, c: Config, early: seq<FakeRequest>, lo: nat, hi: nat, t: nat, stale: nat)
    requires Scene(p, c, early, lo, hi)
    ensures var (s', r) := Sync(p, FakeState(early + RequestsAt(p, c, |c.ids|, t), stale, t, |c.ids|));
            if Fits(p, c, t) then s' == EngineAt(p, c, early, t) && r == Answer(()) else r.Raised?
  {
    UsedByConcat(p, early, RequestsAt(p, c, |c.ids|, t));
    FreedHoldNothing(p, early);
  }

  lemma EngineSteps(p: Setup, c: Config, early: seq<FakeRequest>, lo: nat, hi: nat, t: nat)
    requires Scene(p, c, early, lo, hi)
    ensures var (s', r) := Stepped(p, EngineAt(p, c, early, t));
            if Fits(p, c, t + 1) then s' == EngineAt(p, c, early, t + 1) && r == Answer(OutputsAt(p, c, |c.ids|, t))
            else r.Raised?
  {
    hide StepAll, Sync, Stepped, OutputsAt, Spread, Fits;
    StepAllAt(p, c, early, |c.ids|, t);
    SyncAt(p, c, early, lo, hi, t + 1, UsedBy(p, RequestsAt(p, c, |c.ids|, t)));
    SteppedForm(p, EngineAt(p, c, early, t), early + RequestsAt(p, c, |c.ids|, t + 1), OutputsAt(p, c, |c.ids|, t));
  }

  lemma SteppedForm(p: Setup, s: FakeState, rs: seq<FakeRequest>, outs: seq<StepOutput>)
    requires p.blockSize > 0 && StepAll(p, s.steps + 1, s.requests) == (rs, outs)
    ensures var (s', r) := Sync(p, FakeState(rs, s.used, s.steps + 1, s.added));
            Stepped(p, s) == (s', if r.Raised? then Raised else Answer(outs))
  {}

  /**
   A schedule: the engine's state and the reading after each step, whether the step fits the
   pool, and the three step numbers that matter.
   */
  datatype Script<!S> = Script(state: nat -> S, reading: nat -> Reading, fits: nat -> bool, lo: nat, hi: nat, limit: nat)

  /** What one loop iteration does from step `t` of a schedule. */
  ghost predicate TurnIs<S>(sc: Script<S>, inStep: (Loop, nat) -> bool, l: Loop, t: nat, u: Turn<S>) {
    if !sc.fits(t + 1) then
      u.Refuse? && u.error == EngineRaised
    else if t + 2 >= sc.hi + sc.limit then
      u.Stop? && u.state == sc.state(t + 1) && u.loop.prefill == l.prefill && u.loop.decode == l.decode
    else if l.prefill.None? && t + 2 >= sc.lo + sc.limit then
      u.Refuse? && u.error == FinishedBeforePrefill
    else
      && u.Next? && u.state == sc.state(t + 1) && inStep(u.loop, t + 1)
      && u.loop.prefill == (if l.prefill.None? && t + 1 >= sc.hi then Some(sc.reading(t + 1)) else l.prefill)
      && u.loop.decode == (if u.loop.prefill.Some? && t + 2 < sc.lo + sc.limit then Some(sc.reading(t + 1)) else l.decode)
  }

  ghost predicate Follows<S(!new)>(f: TurnFunction<S>, sc: Script<S>, inStep: (Loop, nat) -> bool) {
    forall l: Loop, t: nat {:trigger f(sc.state(t), l)} :: inStep(l, t) ==> TurnIs(sc, inStep, l, t, f(sc.state(t), l))
  }

  // ---------- whole runs of a schedule ----------

  /** Spread at most `limit - 2`: the readings the loop holds after `t` steps. */
  ghost predicate ReadSoFar<S>(sc: Script<S>, l: Loop, t: nat)
    requires sc.lo + sc.limit >= 2
  {
    if t < sc.hi then l.prefill.None? && l.decode.None?
    else
      && l.prefill == Some(sc.reading(sc.hi))
      && l.decode == Some(sc.reading(Min(t, sc.lo + sc.limit - 2)))
  }

  lemma {:induction false} TightRun<S(!new)>(f: TurnFunction<S>, sc: Script<S>, inStep: (Loop, nat) -> bool,
                                             l: Loop, t: nat, fuel: nat)
    requires Follows(f, sc, inStep) && inStep(l, t)
    requires sc.hi + 2 <= sc.lo + sc.limit && t + 1 < sc.hi + sc.limit && sc.lo <= sc.hi
    requires ReadSoFar(sc, l, t)
    ensures var (s', r) := RunTurns(f, sc.state(t), l, fuel);
            if OverflowsBy(sc.fits, t, Min(t + fuel, sc.hi + sc.limit - 1)) then r == Err(EngineRaised)
            else if t + fuel + 1 >= sc.hi + sc.limit then
              && s' == sc.state(sc.hi + sc.limit - 1)
              && r.Ok?
              && r.value.prefill == Some(sc.reading(sc.hi))
              && r.value.decode == Some(sc.reading(sc.lo + sc.limit - 2))
            else r == Err(DidNotFinish)
    decreases fuel
  {
    hide OverflowsBy;
    if fuel > 0 {
      OverflowSplits(sc.fits, t, Min(t + fuel, sc.hi + sc.limit - 1));
      NoOverflowLeft(sc.fits, t + 1);
      var u := f(sc.state(t), l);
      assert TurnIs(sc, inStep, l, t, u);
      if u.Next? {
        TightRun(f, sc, inStep, u.loop, t + 1, fuel - 1);
      }
    } else {
      NoOverflowLeft(sc.fits, t);
    }
  }

  lemma NoOverflowLeft(fits: nat -> bool, t: nat)
    ensures !OverflowsBy(fits, t, t)
  {}

  lemma {:induction false} WideRun<S(!new)>(f: TurnFunction<S>, sc: Script<S>, inStep: (Loop, nat) -> bool,
                                            l: Loop, t: nat, fuel: nat)
    requires Follows(f, sc, inStep) && inStep(l, t)
    requires sc.lo + sc.limit <= sc.hi + 1 && t + 1 < sc.lo + sc.limit && sc.lo <= sc.hi
    requires l.prefill.None? && l.decode.None?
    ensures var r := RunTurns(f, sc.state(t), l, fuel).1;
            if OverflowsBy(sc.fits, t, Min(t + fuel, sc.lo + sc.limit - 1)) then r == Err(EngineRaised)
            else if t + fuel + 1 < sc.lo + sc.limit then r == Err(DidNotFinish)
            else if sc.lo == sc.hi then r.Ok? && r.value.prefill.None?
            else r == Err(FinishedBeforePrefill)
    decreases fuel
  {
    hide OverflowsBy;
    if fuel > 0 {
      OverflowSplits(sc.fits, t, Min(t + fuel, sc.lo + sc.limit - 1));
      NoOverflowLeft(sc.fits, t + 1);
      var u := f(sc.state(t), l);
      assert TurnIs(sc, inStep, l, t, u);
      if u.Next? {
        WideRun(f, sc, inStep, u.loop, t + 1, fuel - 1);
      }
    } else {
      NoOverflowLeft(sc.fits, t);
    }
  }

  // ---------- the engine follows its schedule ----------

  ghost function ScriptOf(p: Setup, c: Config, early: seq<FakeRequest>, lo: nat, hi: nat): Script<FakeState>
    requires Shape(p, c)
  {
    Script((t: nat) => EngineAt(p, c, early, t), (t: nat) => ReadingAt(p, c, t), FitsOf(p, c), lo, hi, Limit(p, c))
  }

  ghost function FitsOf(p: Setup, c: Config): nat -> bool
    requires Shape(p, c)
  {
    (t: nat) => Fits(p, c, t)
  }

  ghost function InStepOf(p: Setup, c: Config): (Loop, nat) -> bool
    requires Shape(p, c)
  {
    (l: Loop, t: nat) => InStep(p, c, l, t)
  }

  /** One iteration of an engine that answers, with gates that pass. */
  lemma TurnForm<S>(b: Behaviour<S>, c: Config, s: S, l: Loop, used: int,
                    outs: seq<StepOutput>, s': S, m: Loop, r: Reading)
    requires Tracks(c, l) && Tracks(c, m)
    requires b.numFreeBlocks(s) == (s, Answer(b.totalBlocks - used))
    requires CheckBlocks(used, Live(c, l), |c.ids|, c.blockSize, Scheduled(c, l)).Ok?
    requires b.step(s) == (s', Answer(outs)) && Absorb(l, outs) == Ok(m)
    requires b.numUnfinished(s').0 == s' && b.numUnfinished(s').1.Answer?
    requires b.numFreeBlocks(s') == (s', Answer(b.totalBlocks - r.used)) && r.live == Live(c, m)
    requires CheckBlocks(r.used, r.live, |c.ids|, c.blockSize, Scheduled(c, m)).Ok?
    ensures TurnOf(b, c)(s, l)
         == if AllFinished(c, m) then Stop(s', m)
            else if m.prefill.None? && m.finished != {} then Refuse(s', FinishedBeforePrefill)
            else Next(s', Record(m, r, Scheduled(c, m)))
  {
    assert BeforeStep(b, c, s, l) == Next(s', m);
  }

  lemma RecordKeeps(p: Setup, c: Config, l: Loop, r: Reading, scheduled: bool, t: nat)
    requires Shape(p, c) && InStep(p, c, l, t)
    ensures InStep(p, c, Record(l, r, scheduled), t)
  {}

  lemma FakeAnswers(p: Setup, b: Behaviour<FakeState>, s: FakeState)
    requires p.blockSize > 0 && b == FakeBehaviour(p)
    ensures b.numFreeBlocks(s) == (s, Answer(b.totalBlocks - s.used))
    ensures b.numUnfinished(s).0 == s && b.numUnfinished(s).1.Answer?
    ensures b.totalBlocks == p.totalBlocks && b.step(s) == Stepped(p, s) && b.endSample(s) == Ended(p, s)
  {}

  lemma AbsorbedInStep(p: Setup, c: Config, l: Loop, t: nat, m: Loop)
    requires Shape(p, c) && InStep(p, c, l, t) && Absorbed(p, c, l, |c.ids|, t, m)
    ensures Tracks(c, l) && Tracks(c, m) && InStep(p, c, m, t + 1)
  {}

  /** An iteration whose engine step overflows the pool. */
  lemma TurnRaises<S>(b: Behaviour<S>, c: Config, s: S, l: Loop, used: int)
    requires Tracks(c, l)
    requires b.numFreeBlocks(s) == (s, Answer(b.totalBlocks - used))
    requires CheckBlocks(used, Live(c, l), |c.ids|, c.blockSize, Scheduled(c, l)).Ok?
    requires b.step(s).1.Raised?
    ensures var u := TurnOf(b, c)(s, l); u.Refuse? && u.error == EngineRaised
  {}

  lemma TurnOverflows(p: Setup, c: Config, early: seq<FakeRequest>, lo: nat, hi: nat, l: Loop, t: nat)
    requires Scene(p, c, early, lo, hi) && InStep(p, c, l, t) && !Fits(p, c, t + 1)
    ensures var u := TurnOf(FakeBehaviour(p), c)(EngineAt(p, c, early, t), l); u.Refuse? && u.error == EngineRaised
  {
    hide FakeBehaviour, TurnOf, Stepped, CheckBlocks, Live, Scheduled, UsedBy, TokensAt, Fits;
    var b, s := FakeBehaviour(p), EngineAt(p, c, early, t);
    GateAt(p, c, l, t);
    EngineSteps(p, c, early, lo, hi, t);
    FakeAnswers(p, b, s);
    TurnRaises(b, c, s, l, s.used);
  }

  lemma TurnAt(p: Setup, c: Config, early: seq<FakeRequest>, lo: nat, hi: nat, l: Loop, t: nat) returns (m: Loop)
    requires Scene(p, c, early, lo, hi) && InStep(p, c, l, t) && Fits(p, c, t + 1)
    ensures InStep(p, c, m, t + 1) && m.prefill == l.prefill && m.decode == l.decode
    ensures TurnOf(FakeBehaviour(p), c)(EngineAt(p, c, early, t), l)
         == var s' := EngineAt(p, c, early, t + 1);
            if AllFinished(c, m) then Stop(s', m)
            else if m.prefill.None? && m.finished != {} then Refuse(s', FinishedBeforePrefill)
            else Next(s', Record(m, ReadingAt(p, c, t + 1), Scheduled(c, m)))
  {
    hide FakeBehaviour, TurnOf, Stepped, InStep, CheckBlocks, Absorb, OutputsAt, ReadingAt, Tracks, EngineAt, Live,
         Scheduled, AllFinished, Record, Fits;
    m := NextCounters(p, c, early, lo, hi, l, t);
    var b, s, s' := FakeBehaviour(p), EngineAt(p, c, early, t), EngineAt(p, c, early, t + 1);
    FakeAnswers(p, b, s);
    FakeAnswers(p, b, s');
    TurnForm(b, c, s, l, s.used, OutputsAt(p, c, |c.ids|, t), s', m, ReadingAt(p, c, t + 1));
  }

  /** The facts about steps `t` and `t + 1` that one iteration rests on. */
  lemma NextCounters(p: Setup, c: Config, early: seq<FakeRequest>, lo: nat, hi: nat, l: Loop, t: nat) returns (m: Loop)
    requires Scene(p, c, early, lo, hi) && InStep(p, c, l, t) && Fits(p, c, t + 1)
    ensures InStep(p, c, m, t + 1) && m.prefill == l.prefill && m.decode == l.decode
    ensures Tracks(c, l) && Tracks(c, m) && p.blockSize > 0
    ensures Absorb(l, OutputsAt(p, c, |c.ids|, t)) == Ok(m)
    ensures Stepped(p, EngineAt(p, c, early, t)) == (EngineAt(p, c, early, t + 1), Answer(OutputsAt(p, c, |c.ids|, t)))
    ensures CheckBlocks(EngineAt(p, c, early, t).used, Live(c, l), |c.ids|, c.blockSize, Scheduled(c, l)).Ok?
    ensures EngineAt(p, c, early, t + 1).used == ReadingAt(p, c, t + 1).used && ReadingAt(p, c, t + 1).live == Live(c, m)
    ensures CheckBlocks(ReadingAt(p, c, t + 1).used, Live(c, m), |c.ids|, c.blockSize, Scheduled(c, m)).Ok?
  {
    hide Stepped, CheckBlocks, Absorb, OutputsAt, Scheduled, Live, UsedBy, TokensAt, Fits;
    GateAt(p, c, l, t);
    EngineSteps(p, c, early, lo, hi, t);
    m := AbsorbAt(p, c, l, |c.ids|, t);
    AbsorbedInStep(p, c, l, t, m);
    GateAt(p, c, m, t + 1);
  }

  lemma TurnOnScript(p: Setup, c: Config, early: seq<FakeRequest>, lo: nat, hi: nat, l: Loop, t: nat,
                     m: Loop, sc: Script<FakeState>, inStep: (Loop, nat) -> bool, u: Turn<FakeState>)
    requires Scene(p, c, early, lo, hi) && InStep(p, c, m, t + 1) && m.prefill == l.prefill && m.decode == l.decode
    requires sc.lo == lo && sc.hi == hi && sc.limit == Limit(p, c)
    requires inStep == InStepOf(p, c) && sc.fits(t + 1)
    requires u == if AllFinished(c, m) then Stop(sc.state(t + 1), m)
                  else if m.prefill.None? && m.finished != {} then Refuse(sc.state(t + 1), FinishedBeforePrefill)
                  else Next(sc.state(t + 1), Record(m, sc.reading(t + 1), Scheduled(c, m)))
    ensures TurnIs(sc, inStep, l, t, u)
  {
    hide InStep, Scheduled, AllFinished, Limit;
    FinishedAt(p, c, m, 0, t + 1);
    TestsAt(p, c, early, lo, hi, m, t + 1);
    RecordKeeps(p, c, m, sc.reading(t + 1), Scheduled(c, m), t + 1);
  }

  lemma EngineFollows(p: Setup, c: Config, early: seq<FakeRequest>, lo: nat, hi: nat,
                      f: TurnFunction<FakeState>, sc: Script<FakeState>, inStep: (Loop, nat) -> bool)
    requires Scene(p, c, early, lo, hi)
    requires f == TurnOf(FakeBehaviour(p), c) && sc == ScriptOf(p, c, early, lo, hi) && inStep == InStepOf(p, c)
    ensures Follows(f, sc, inStep)
  {
    forall l: Loop, t: nat | inStep(l, t) ensures TurnIs(sc, inStep, l, t, f(sc.state(t), l)) {
      if Fits(p, c, t + 1) {
        var m := TurnAt(p, c, early, lo, hi, l, t);
        TurnOnScript(p, c, early, lo, hi, l, t, m, sc, inStep, f(sc.state(t), l));
      } else {
        TurnOverflows(p, c, early, lo, hi, l, t);
      }
    }
  }

  // ---------- adding the batch ----------

  ghost predicate AddedSoFar(p: Setup, c: Config, s: FakeState, n: nat, s': FakeState)
    requires Shape(p, c) && n <= |c.ids|
  {
    s' == FakeState(s.requests + RequestsAt(p, c, n, 0), 0, 0, n) && Valid(p, s')
  }

  lemma AddNext(p: Setup, c: Config, s: FakeState, n: nat, s': FakeState)
    requires Ready(p, c, s) && Shape(p, c) && n < |c.ids| && AddedSoFar(p, c, s, n, s')
    ensures var (s'', r) := Added(p, s', Request(c.ids[n], c.promptLens[n], c.decodeTokens, c.ignoreEos));
            r.Answer? && AddedSoFar(p, c, s, n + 1, s'')
  {
    FreshId(p, c, s, n);
    AddKeeps(p, s', Request(c.ids[n], c.promptLens[n], c.decodeTokens, c.ignoreEos));
    assert s.requests + RequestsAt(p, c, n + 1, 0) == (s.requests + RequestsAt(p, c, n, 0)) + [RequestAt(p, c, n, 0)];
  }

  lemma {:induction false} AddAt(p: Setup, c: Config, s: FakeState, n: nat)
    requires Ready(p, c, s) && Shape(p, c) && n <= |c.ids|
    ensures var (s', r) := AddUpTo(FakeBehaviour(p), c, s, n);
            r.Answer? && AddedSoFar(p, c, s, n, s')
  {
    if n == 0 {
      FreedHoldNothing(p, s.requests);
      assert s.requests + RequestsAt(p, c, 0, 0) == s.requests;
    } else {
      AddAt(p, c, s, n - 1);
      AddNext(p, c, s, n - 1, AddUpTo(FakeBehaviour(p), c, s, n - 1).0);
    }
  }

  lemma {:induction false} RequestsAtIndex(p: Setup, c: Config, n: nat, t: nat)
    requires Shape(p, c) && n <= |c.ids|
    ensures forall i: nat :: i < n ==> RequestsAt(p, c, n, t)[i] == RequestAt(p, c, i, t)
  {
    if n > 0 {
      RequestsAtIndex(p, c, n - 1, t);
    }
  }

  lemma FreshId(p: Setup, c: Config, s: FakeState, n: nat)
    requires Ready(p, c, s) && Shape(p, c) && n < |c.ids|
    ensures var rs := s.requests + RequestsAt(p, c, n, 0);
            !exists i :: 0 <= i < |rs| && rs[i].id == c.ids[n]
  {
    RequestsAtIndex(p, c, n, 0);
  }

  lemma StartsInStep(p: Setup, c: Config)
    requires Shape(p, c)
    ensures InStep(p, c, StartLoop(c), 0)
  {}

  // ---------- the outcome ----------

  /** Blocks held after `t` steps by a batch whose every request is alive and scheduled. */
  ghost function AliveBlocks(p: Setup, c: Config, n: nat, t: nat): int
    requires p.blockSize > 0 && n <= |c.ids| == |c.promptLens|
  {
    if n == 0 then 0
    else AliveBlocks(p, c, n - 1, t) + CeilDiv(c.promptLens[n - 1] + t + 1 - p.firstStep(n - 1), p.blockSize)
  }

  ghost function AliveTokens(p: Setup, c: Config, n: nat, t: nat): int
    requires n <= |c.ids| == |c.promptLens|
  {
    if n == 0 then 0
    else AliveTokens(p, c, n - 1, t) + c.promptLens[n - 1] + t + 1 - p.firstStep(n - 1)
  }

  lemma RequestWhenAlive(p: Setup, c: Config, lo: nat, hi: nat, i: nat, t: nat)
    requires Shape(p, c) && Spread(p, c, lo, hi) && i < |c.ids| && hi <= t && t + 1 < lo + Limit(p, c)
    ensures var r := RequestAt(p, c, i, t);
            var x := c.promptLens[i] + t + 1 - p.firstStep(i);
            !r.finished && r.promptLen + r.generated == x && Blocks(p, r) == CeilDiv(x, p.blockSize)
  {
    var x := c.promptLens[i] + t + 1 - p.firstStep(i);
    CeilDivMonotone(0, x, p.blockSize);
    CeilDivUnique(0, p.blockSize, 0);
  }

  lemma {:induction false} UsedWhenAlive(p: Setup, c: Config, lo: nat, hi: nat, n: nat, t: nat)
    requires Shape(p, c) && Spread(p, c, lo, hi) && n <= |c.ids| && hi <= t && t + 1 < lo + Limit(p, c)
    ensures UsedBy(p, RequestsAt(p, c, n, t)) == AliveBlocks(p, c, n, t)
  {
    hide RequestAt, Blocks, Spread, Limit, CeilDiv, Gen, RequestsAt, UsedBy, Shape;
    ShapeNames(p, c);
    if n == 0 {
      NobodyYet(p, c, [], t);
    } else {
      UsedWhenAlive(p, c, lo, hi, n - 1, t);
      UsedNext(p, c, n, t);
      RequestWhenAlive(p, c, lo, hi, n - 1, t);
    }
  }

  lemma {:induction false} TokensWhenAlive(p: Setup, c: Config, lo: nat, hi: nat, n: nat, t: nat)
    requires Shape(p, c) && Spread(p, c, lo, hi) && n <= |c.ids| && hi <= t && t + 1 < lo + Limit(p, c)
    ensures TokensAt(p, c, n, t) == AliveTokens(p, c, n, t)
  {
    hide RequestAt, Blocks, Spread, Limit;
    if n > 0 {
      TokensWhenAlive(p, c, lo, hi, n - 1, t);
      RequestWhenAlive(p, c, lo, hi, n - 1, t);
    }
  }

  lemma {:induction false} AliveBlocksGrow(p: Setup, c: Config, n: nat, t: nat, t': nat)
    requires p.blockSize > 0 && n <= |c.ids| == |c.promptLens| && t <= t'
    ensures AliveBlocks(p, c, n, t) <= AliveBlocks(p, c, n, t')
  {
    if n > 0 {
      AliveBlocksGrow(p, c, n - 1, t, t');
      CeilDivMonotone(c.promptLens[n - 1] + t + 1 - p.firstStep(n - 1), c.promptLens[n - 1] + t' + 1 - p.firstStep(n - 1),
                      p.blockSize);
    }
  }

  /** Both readings of a batch of spread `lo..hi`, as the sampler packages them. */
  ghost function ReadingsFor(p: Setup, c: Config, lo: nat, hi: nat): SampleReadings
    requires p.blockSize > 0 && |c.promptLens| == |c.ids| && c.decodeTokens >= 0 && lo + Limit(p, c) >= 2
  {
    var n, last := |c.ids|, lo + Limit(p, c) - 2;
    var before, at := AliveBlocks(p, c, n, hi), AliveBlocks(p, c, n, last);
    SampleReadings(before * c.blockSize * c.theoryBpt, at * c.blockSize * c.theoryBpt,
                   AliveTokens(p, c, n, hi), AliveTokens(p, c, n, last), before, at)
  }

  /**
   The outcome, from the configuration alone.  Readings are possible exactly when
   the spread of first steps leaves one step with everyone scheduled and nobody
   finished, and the budget reaches the last finish.
   */
  ghost function Outcome(p: Setup, c: Config, lo: nat, hi: nat): Result<SampleReadings, SampleError>
    requires p.blockSize > 0 && |c.promptLens| == |c.ids| && c.decodeTokens >= 0
  {
    var limit := Limit(p, c);
    if hi + 2 <= lo + limit then
      if hi + limit - 1 <= MaxSteps(c) then Ok(ReadingsFor(p, c, lo, hi)) else Err(DidNotFinish)
    else if lo + limit - 1 > MaxSteps(c) then Err(DidNotFinish)
    else if lo == hi then Err(PrefillNeverCompleted)
    else Err(FinishedBeforePrefill)
  }

  /** The last engine step that a sample can get to. */
  ghost function LastStep(p: Setup, c: Config, lo: nat, hi: nat): nat
    requires c.decodeTokens >= 0 && lo + Limit(p, c) >= 1 && hi + Limit(p, c) >= 1
  {
    Min(MaxSteps(c), (if hi + 2 <= lo + Limit(p, c) then hi else lo) + Limit(p, c) - 1)
  }

  /** The outcome on any pool: the engine raises exactly when a step that the sample gets to does not fit. */
  ghost function PoolOutcome(p: Setup, c: Config, lo: nat, hi: nat): Result<SampleReadings, SampleError>
    requires Shape(p, c) && lo + Limit(p, c) >= 1 && hi + Limit(p, c) >= 1
  {
    if OverflowsBy(FitsOf(p, c), 0, LastStep(p, c, lo, hi)) then Err(EngineRaised) else Outcome(p, c, lo, hi)
  }

  /** A pool that holds the batch at full length never overflows. */
  lemma LargePoolFits(p: Setup, c: Config, last: nat)
    requires Shape(p, c) && Capacity(p, c, |c.ids|) <= p.totalBlocks
    ensures !OverflowsBy(FitsOf(p, c), 0, last)
  {
    hide UsedBy, Capacity;
    forall k: nat | 0 < k <= last ensures FitsOf(p, c)(k) {
      UsedWithinCapacity(p, c, |c.ids|, k);
    }
  }

  lemma TightOutcome(p: Setup, c: Config, lo: nat, hi: nat, l: Loop)
    requires Shape(p, c) && Spread(p, c, lo, hi) && hi + 2 <= lo + Limit(p, c)
    requires l.prefill == Some(ReadingAt(p, c, hi)) && l.decode == Some(ReadingAt(p, c, lo + Limit(p, c) - 2))
    ensures Conclude(c, l) == Ok(ReadingsFor(p, c, lo, hi))
  {
    hide Limit, UsedBy, RequestsAt, TokensAt, AliveBlocks, AliveTokens, Spread, Shape;
    ShapeNames(p, c);
    var last := lo + Limit(p, c) - 2;
    UsedWhenAlive(p, c, lo, hi, |c.ids|, hi);
    UsedWhenAlive(p, c, lo, hi, |c.ids|, last);
    TokensWhenAlive(p, c, lo, hi, |c.ids|, hi);
    TokensWhenAlive(p, c, lo, hi, |c.ids|, last);
    AliveBlocksGrow(p, c, |c.ids|, hi, last);
  }

  /** How the loop ends: with both readings, out of budget, or refusing. */
  ghost predicate LoopEnds(p: Setup, c: Config, early: seq<FakeRequest>, lo: nat, hi: nat,
                           run: (FakeState, Result<Loop, SampleError>))
    requires Shape(p, c) && 1 <= lo <= hi
  {
    if OverflowsBy(FitsOf(p, c), 0, LastStep(p, c, lo, hi)) then run.1 == Err(EngineRaised)
    else if hi + 2 <= lo + Limit(p, c) then
      if hi + Limit(p, c) - 1 <= MaxSteps(c) then
        && run.0 == EngineAt(p, c, early, hi + Limit(p, c) - 1)
        && run.1.Ok?
        && run.1.value.prefill == Some(ReadingAt(p, c, hi))
        && run.1.value.decode == Some(ReadingAt(p, c, lo + Limit(p, c) - 2))
      else run.1 == Err(DidNotFinish)
    else if lo + Limit(p, c) - 1 > MaxSteps(c) then run.1 == Err(DidNotFinish)
    else if lo == hi then run.1.Ok? && run.1.value.prefill.None?
    else run.1 == Err(FinishedBeforePrefill)
  }

  /** A schedule the loop follows, and the end the loop comes to on it. */
  lemma LoopOutcome(p: Setup, c: Config, early: seq<FakeRequest>, lo: nat, hi: nat,
                    f: TurnFunction<FakeState>, sc: Script<FakeState>, inStep: (Loop, nat) -> bool)
    requires Scene(p, c, early, lo, hi)
    requires sc == ScriptOf(p, c, early, lo, hi) && inStep == InStepOf(p, c) && Follows(f, sc, inStep)
    requires 1 <= lo <= hi
    ensures LoopEnds(p, c, early, lo, hi, RunTurns(f, EngineAt(p, c, early, 0), StartLoop(c), MaxSteps(c)))
  {
    hide EngineAt, RunTurns, Follows, InStep, ReadingAt, OverflowsBy, Fits;
    StartsInStep(p, c);
    FirstStepPositive(p, c, lo, hi);
    ScriptEnds(f, sc, inStep, StartLoop(c), MaxSteps(c));
    assert sc.state(0) == EngineAt(p, c, early, 0);
  }

  /** `LoopEnds` for an arbitrary schedule. */
  lemma ScriptEnds<S(!new)>(f: TurnFunction<S>, sc: Script<S>, inStep: (Loop, nat) -> bool, l: Loop, fuel: nat)
    requires Follows(f, sc, inStep) && inStep(l, 0) && l.prefill.None? && l.decode.None?
    requires 1 <= sc.lo <= sc.hi && sc.limit >= 1
    ensures var run := RunTurns(f, sc.state(0), l, fuel);
            var last := Min(fuel, (if sc.hi + 2 <= sc.lo + sc.limit then sc.hi else sc.lo) + sc.limit - 1);
            if OverflowsBy(sc.fits, 0, last) then run.1 == Err(EngineRaised)
            else if sc.hi + 2 <= sc.lo + sc.limit then
              if sc.hi + sc.limit - 1 <= fuel then
                && run.0 == sc.state(sc.hi + sc.limit - 1)
                && run.1.Ok?
                && run.1.value.prefill == Some(sc.reading(sc.hi))
                && run.1.value.decode == Some(sc.reading(sc.lo + sc.limit - 2))
              else run.1 == Err(DidNotFinish)
            else if sc.lo + sc.limit - 1 > fuel then run.1 == Err(DidNotFinish)
            else if sc.lo == sc.hi then run.1.Ok? && run.1.value.prefill.None?
            else run.1 == Err(FinishedBeforePrefill)
  {
    hide OverflowsBy;
    if sc.hi + 2 <= sc.lo + sc.limit {
      TightRun(f, sc, inStep, l, 0, fuel);
    } else {
      WideRun(f, sc, inStep, l, 0, fuel);
    }
  }

  lemma FirstStepPositive(p: Setup, c: Config, lo: nat, hi: nat)
    requires Shape(p, c) && Spread(p, c, lo, hi)
    ensures 1 <= lo <= hi && Limit(p, c) >= 1
  {
    var a: nat :| a < |c.ids| && p.firstStep(a) == lo;
  }

  // ---------- the whole sample ----------

  /** The engine after a sample that returned readings: its requests are all finished. */
  ghost function RestedAfter(p: Setup, c: Config, s: FakeState, hi: nat): FakeState
    requires Shape(p, c)
  {
    FakeState(s.requests + RequestsAt(p, c, |c.ids|, hi + Limit(p, c) - 1), 0, 0, 0)
  }

  lemma ReadyIsScene(p: Setup, c: Config, s: FakeState, lo: nat, hi: nat)
    requires Ready(p, c, s) && Shape(p, c) && Spread(p, c, lo, hi)
    ensures Scene(p, c, s.requests, lo, hi) && 1 <= lo <= hi && Limit(p, c) >= 1
  {
    FirstStepPositive(p, c, lo, hi);
  }

  lemma {:induction false} FreeAllFreed(rs: seq<FakeRequest>)
    requires forall i :: 0 <= i < |rs| ==> rs[i].freed
    ensures FreeAll(rs) == rs
  {
    FreeAllPointwise(rs);
  }

  lemma LastFinish(p: Setup, c: Config, lo: nat, hi: nat, t: nat)
    requires Shape(p, c) && Spread(p, c, lo, hi) && t == hi + Limit(p, c) - 1
    ensures forall i: nat :: i < |c.ids| ==> RequestAt(p, c, i, t).freed
  {}

  lemma AllFreed(p: Setup, c: Config, early: seq<FakeRequest>, lo: nat, hi: nat, t: nat)
    requires Shape(p, c) && Spread(p, c, lo, hi) && t == hi + Limit(p, c) - 1
    requires forall k :: 0 <= k < |early| ==> early[k].freed
    ensures forall i :: 0 <= i < |early + RequestsAt(p, c, |c.ids|, t)| ==> (early + RequestsAt(p, c, |c.ids|, t))[i].freed
  {
    hide Limit, Spread, RequestsAt, RequestAt;
    LastFinish(p, c, lo, hi, t);
    RequestsAtIndex(p, c, |c.ids|, t);
  }

  lemma EndAnswers(p: Setup, s: FakeState)
    requires p.blockSize > 0
    ensures Ended(p, s).1.Answer?
  {
    FreeAllPointwise(s.requests);
    FreedHoldNothing(p, FreeAll(s.requests));
  }

  lemma EndAt(p: Setup, c: Config, s: FakeState, lo: nat, hi: nat)
    requires Scene(p, c, s.requests, lo, hi)
    ensures Ended(p, EngineAt(p, c, s.requests, hi + Limit(p, c) - 1)) == (RestedAfter(p, c, s, hi), Answer(()))
  {
    hide Limit, Spread, UsedBy, RequestsAt, RequestAt, FreeAll;
    FirstStepPositive(p, c, lo, hi);
    var t := hi + Limit(p, c) - 1;
    var rs := s.requests + RequestsAt(p, c, |c.ids|, t);
    AllFreed(p, c, s.requests, lo, hi, t);
    FreeAllFreed(rs);
    FreedHoldNothing(p, rs);
  }

  /** Every sample that entered its `try` block leaves the pool empty and every request freed, however it ended. */
  lemma SampleEndsEmpty(p: Setup, c: Config, s: FakeState)
    requires p.blockSize > 0
    ensures var run := Sample(FakeBehaviour(p), c, s);
            run.entered ==>
              && run.state.used == 0 && run.state.steps == 0 && run.state.added == 0
              && forall i :: 0 <= i < |run.state.requests| ==> run.state.requests[i].freed
  {
    if Validate(c, p.totalBlocks).Ok? {
      var s1 := RunLoop(FakeBehaviour(p), c, AddUpTo(FakeBehaviour(p), c, s, |c.ids|).0).0;
      hide RunLoop, AddUpTo, Validate;
      FreeAllPointwise(s1.requests);
      FreedHoldNothing(p, FreeAll(s1.requests));
    }
  }

  /**
   Stagger characterisation.  For a truthful engine whose i-th request starts on step
   `firstStep(i)`, on any pool: the sampler's result is `PoolOutcome`, and the sample leaves
   the pool empty whatever the result.
   */
  lemma StaggeredSample(p: Setup, c: Config, s: FakeState, lo: nat, hi: nat)
    requires Ready(p, c, s) && Shape(p, c) && Spread(p, c, lo, hi)
    ensures 1 <= lo <= hi
    ensures var run := Sample(FakeBehaviour(p), c, s);
            && run.entered
            && run.result == PoolOutcome(p, c, lo, hi)
            && run.state.used == 0
            && (run.result.Ok? ==> run.state == RestedAfter(p, c, s, hi))
  {
    hide FakeBehaviour, RunLoop, Sample, AddUpTo, EngineAt, RestedAfter, PoolOutcome, LoopEnds, Ended;
    ReadyIsScene(p, c, s, lo, hi);
    var b, s0 := FakeBehaviour(p), EngineAt(p, c, s.requests, 0);
    FakeAnswers(p, b, s0);
    var s1, ran := LoopOf(p, c, s.requests, lo, hi);
    AddAll(p, c, s, lo, hi);
    SampleForm(b, c, s, s0, s1, ran);
    EndOfSample(p, c, s, lo, hi, s1, ran);
    FakeAnswers(p, b, s1);
    EndAnswers(p, s1);
    SampleEndsEmpty(p, c, s);
  }

  /** On a pool that can hold the whole batch the result is the pool's size aside. */
  lemma StaggeredOnLargePool(p: Setup, c: Config, s: FakeState, lo: nat, hi: nat)
    requires Ready(p, c, s) && Shape(p, c) && Spread(p, c, lo, hi)
    requires Capacity(p, c, |c.ids|) <= p.totalBlocks
    ensures var run := Sample(FakeBehaviour(p), c, s);
            && run.entered
            && run.result == Outcome(p, c, lo, hi)
            && run.state.used == 0
            && (run.result.Ok? ==> run.state == RestedAfter(p, c, s, hi))
  {
    hide FakeBehaviour, Sample, RestedAfter, Outcome, OverflowsBy, Fits, Ready, Spread;
    StaggeredSample(p, c, s, lo, hi);
    LargePoolFits(p, c, LastStep(p, c, lo, hi));
  }

  lemma LoopOf(p: Setup, c: Config, early: seq<FakeRequest>, lo: nat, hi: nat)
    returns (s1: FakeState, ran: Result<Loop, SampleError>)
    requires Scene(p, c, early, lo, hi) && 1 <= lo <= hi
    ensures RunLoop(FakeBehaviour(p), c, EngineAt(p, c, early, 0)) == (s1, ran)
    ensures LoopEnds(p, c, early, lo, hi, (s1, ran))
  {
    hide FakeBehaviour, TurnOf, EngineAt, RunTurns, Follows, LoopEnds;
    var f, sc, inStep := TurnOf(FakeBehaviour(p), c), ScriptOf(p, c, early, lo, hi), InStepOf(p, c);
    EngineFollows(p, c, early, lo, hi, f, sc, inStep);
    LoopOutcome(p, c, early, lo, hi, f, sc, inStep);
    var run := RunLoop(FakeBehaviour(p), c, EngineAt(p, c, early, 0));
    s1, ran := run.0, run.1;
  }

  lemma EndOfSample(p: Setup, c: Config, s: FakeState, lo: nat, hi: nat, s1: FakeState, ran: Result<Loop, SampleError>)
    requires Ready(p, c, s) && Scene(p, c, s.requests, lo, hi) && 1 <= lo <= hi
    requires LoopEnds(p, c, s.requests, lo, hi, (s1, ran))
    ensures ConcludeRun(c, ran) == PoolOutcome(p, c, lo, hi)
    ensures PoolOutcome(p, c, lo, hi).Ok? ==> Ended(p, s1) == (RestedAfter(p, c, s, hi), Answer(()))
  {
    hide OverflowsBy, Fits, Spread, Shape, Ready, Limit, ReadingsFor, RestedAfter, Ended, EngineAt;
    ShapeNames(p, c);
    FirstStepPositive(p, c, lo, hi);
    if hi + 2 <= lo + Limit(p, c) && ran.Ok? {
      TightOutcome(p, c, lo, hi, ran.value);
      EndAt(p, c, s, lo, hi);
    }
  }

  lemma AddAll(p: Setup, c: Config, s: FakeState, lo: nat, hi: nat)
    requires Ready(p, c, s) && Scene(p, c, s.requests, lo, hi)
    ensures AddUpTo(FakeBehaviour(p), c, s, |c.ids|).0 == EngineAt(p, c, s.requests, 0)
    ensures AddUpTo(FakeBehaviour(p), c, s, |c.ids|).1.Answer?
  {
    AddAt(p, c, s, |c.ids|);
    UsedByConcat(p, s.requests, RequestsAt(p, c, |c.ids|, 0));
    FreedHoldNothing(p, s.requests);
  }

  /** A sample whose calls to add and to end do not raise. */
  lemma SampleForm<S>(b: Behaviour<S>, c: Config, s: S, s0: S, s1: S, ran: Result<Loop, SampleError>)
    requires Validate(c, b.totalBlocks).Ok?
    requires AddUpTo(b, c, s, |c.ids|).0 == s0 && AddUpTo(b, c, s, |c.ids|).1.Answer?
    requires RunLoop(b, c, s0) == (s1, ran)
    ensures var run := Sample(b, c, s);
            && run.entered && run.state == b.endSample(s1).0
            && (b.endSample(s1).1.Answer? ==> run.result == ConcludeRun(c, ran))
  {}

  /**
   Success, in the caller's terms: the spread of first steps, the step budget, and a pool that
   holds what every step up to the last finish needs.
   */
  lemma StaggerSucceedsIff(p: Setup, c: Config, s: FakeState, lo: nat, hi: nat)
    requires Ready(p, c, s) && Shape(p, c) && Spread(p, c, lo, hi) && c.ignoreEos
    ensures Sample(FakeBehaviour(p), c, s).result.Ok? <==>
              && hi - lo <= c.decodeTokens - 2 && hi <= c.prefillChunks + 9
              && forall t: nat :: 0 < t < hi + c.decodeTokens ==> Fits(p, c, t)
  {
    hide Ready, Spread, Sample, FakeBehaviour, Fits, ReadingsFor;
    StaggeredSample(p, c, s, lo, hi);
    var fits := FitsOf(p, c);
    assert OverflowsBy(fits, 0, hi + c.decodeTokens - 1)
      <==> !forall t: nat :: 0 < t < hi + c.decodeTokens ==> Fits(p, c, t) by {
      if OverflowsBy(fits, 0, hi + c.decodeTokens - 1) {
        var k: nat :| 0 < k <= hi + c.decodeTokens - 1 && !fits(k);
        assert !Fits(p, c, k);
      } else {
        forall t: nat | 0 < t < hi + c.decodeTokens ensures Fits(p, c, t) {
          assert fits(t);
        }
      }
    }
  }
}
