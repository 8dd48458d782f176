/** Exactly when a sample returns readings, for every engine, in terms of what the engine answered. */
module SamplerCompleteness {
  import opened Prelude
  import opened Engine
  import opened Sampler
  import opened SamplerSoundness

  // ---------- what an iteration needs of the engine ----------

  /** The step's outputs name requests of the batch and report no negative count. */
  ghost predicate Legible(c: Config, outs: seq<StepOutput>) {
    forall k :: 0 <= k < |outs| ==> outs[k].requestId in c.ids && outs[k].newTokens >= 0
  }

  /** Iteration `k` up to its step: the reading is answered and passes the gate, and the step's outputs can be read. */
  ghost predicate StepsWell<S>(b: Behaviour<S>, c: Config, s: S, k: nat)
    requires k > 0 && |c.promptLens| == |c.ids|
  {
    && b.numFreeBlocks(EngineAfter(b, s, k - 1)).1.Answer?
    && Accounted(c, UsedBefore(b, s, k), HeldLive(b, c, s, k - 1, |c.ids|), AllStarted(b, c, s, k - 1))
    && StepOf(b, s, k).1.Answer? && Legible(c, OutputsOf(b, s, k))
  }

  /** The reading after the step is answered and passes the gate. */
  ghost predicate ReadsWell<S>(b: Behaviour<S>, c: Config, s: S, k: nat)
    requires k > 0 && |c.promptLens| == |c.ids|
  {
    && b.numFreeBlocks(StepOf(b, s, k).0).1.Answer?
    && Accounted(c, UsedAfter(b, s, k), HeldLive(b, c, s, k, |c.ids|), AllStarted(b, c, s, k))
  }

  /** Nobody is done before everybody has started. */
  ghost predicate InOrder<S>(b: Behaviour<S>, c: Config, s: S, k: nat)
    requires k > 0
  {
    SomeDone(b, c, s, k) ==> !SomeUnstarted(b, c, s, k - 1)
  }

  /** Iteration `k` goes on to the next. */
  ghost predicate GoesOn<S>(b: Behaviour<S>, c: Config, s: S, k: nat)
    requires k > 0 && |c.promptLens| == |c.ids|
  {
    StepsWell(b, c, s, k) && !AllDone(b, c, s, k) && ReadsWell(b, c, s, k) && InOrder(b, c, s, k)
  }

  // ---------- one iteration ----------

  /** A running loop is in step with the engine; prefill is read once everybody has started. */
  ghost predicate InStep<S>(b: Behaviour<S>, c: Config, s: S, k: nat, t: Turn<S>) {
    && |c.promptLens| == |c.ids|
    && t.Next? && t.state == EngineAfter(b, s, k) && Matches(b, c, s, k, t.loop)
    && (t.loop.prefill.None? <==> SomeUnstarted(b, c, s, k))
    && (t.loop.prefill.None? <==> t.loop.decode.None?)
  }

  lemma RunningInStep<S>(b: Behaviour<S>, c: Config, s: S, k: nat)
    requires |c.promptLens| == |c.ids| > 0 && Ran(b, c, s, k) && After(b, c, s, k).Next?
    ensures InStep(b, c, s, k, After(b, c, s, k))
  {
    hide After, Reported, DoneBy, EngineAfter, Matches, ReadAt, Grown;
    CountersAreReports(b, c, s, k);
    var p, d := ReadingsDated(b, c, s, k);
    var l := After(b, c, s, k).loop;
    if l.prefill.Some? {
      assert !SomeUnstarted(b, c, s, d) by {
        ReadStarted(b, c, s, d, l.decode.value);
      }
      Started(b, c, s, d, k);
    }
  }

  lemma ReadStarted<S>(b: Behaviour<S>, c: Config, s: S, k: nat, r: Reading)
    requires |c.promptLens| == |c.ids| && ReadAt(b, c, s, k, r)
    ensures !SomeUnstarted(b, c, s, k) && !SomeDone(b, c, s, k)
  {}

  lemma BeforeStepIff<S>(b: Behaviour<S>, c: Config, s: S, k: nat, t: Turn<S>)
    requires k > 0 && InStep(b, c, s, k - 1, t)
    ensures Tracks(c, t.loop)
    ensures BeforeStep(b, c, t.state, t.loop).Next? <==> StepsWell(b, c, s, k)
  {
    hide Reported, DoneBy, Accounted, AllStarted, Live, LiveUpTo, Scheduled, EngineAfter, HeldLive, Readable, Absorbs, Absorb,
         FirstUnreadable;
    var free := b.numFreeBlocks(t.state).1;
    LiveIsHeld(b, c, s, k - 1, t.loop, |c.ids|);
    LiveIsAll(c, t.loop);
    ScheduledIsStarted(b, c, s, k - 1, t.loop);
    if free.Answer? {
      GatePasses(c, b.totalBlocks - free.value, Live(c, t.loop), Scheduled(c, t.loop));
    }
    AbsorbMeaning(t.loop, OutputsOf(b, s, k));
    ReadableIffLegible(c, t.loop, OutputsOf(b, s, k));
  }

  lemma LiveIsAll(c: Config, l: Loop)
    requires Tracks(c, l)
    ensures Live(c, l) == LiveUpTo(c, l, |c.ids|)
  {}

  lemma ReadableIffLegible(c: Config, l: Loop, outs: seq<StepOutput>)
    requires Tracks(c, l)
    ensures Readable(l, outs) <==> Legible(c, outs)
  {}

  /** After the step, with the counters already those of iteration `k`. */
  lemma AfterStepIff<S>(b: Behaviour<S>, c: Config, s: S, k: nat, l: Loop)
    requires k > 0 && |c.promptLens| == |c.ids| && Matches(b, c, s, k, l)
    requires l.prefill.None? <==> SomeUnstarted(b, c, s, k - 1)
    ensures var t := AfterStep(b, c, StepOf(b, s, k).0, l);
            && (t.Next? <==> !AllDone(b, c, s, k) && ReadsWell(b, c, s, k) && InOrder(b, c, s, k))
            && (t.Stop? ==> AllDone(b, c, s, k) && t.loop == l)
  {
    hide Reported, DoneBy, Accounted, AllStarted, Live, LiveUpTo, Scheduled, EngineAfter, StepOf, HeldLive, AllDone,
         SomeUnstarted, SomeDone, AllFinished;
    var free := b.numFreeBlocks(StepOf(b, s, k).0).1;
    LiveIsHeld(b, c, s, k, l, |c.ids|);
    LiveIsAll(c, l);
    ScheduledIsStarted(b, c, s, k, l);
    if free.Answer? {
      GatePasses(c, b.totalBlocks - free.value, Live(c, l), Scheduled(c, l));
    }
  }

  /** The iteration that everybody is done in ends the loop, unless a last question to the engine raises. */
  lemma StopIff<S>(b: Behaviour<S>, c: Config, s: S, k: nat, l: Loop)
    requires k > 0 && |c.promptLens| == |c.ids| && Matches(b, c, s, k, l) && AllDone(b, c, s, k) && l.decode.Some?
    ensures var t, asked := AfterStep(b, c, StepOf(b, s, k).0, l), b.numUnfinished(StepOf(b, s, k).0);
            && (t.Stop? <==> asked.1.Answer?)
            && (t.Stop? ==> t.state == asked.0 && t.loop == l)
  {
    hide Reported, DoneBy, Live, Scheduled, StepOf, AllDone, AllFinished;
    ScheduledIsStarted(b, c, s, k, l);
  }

  lemma StepMatches<S>(b: Behaviour<S>, c: Config, s: S, k: nat, t: Turn<S>)
    requires k > 0 && InStep(b, c, s, k - 1, t) && BeforeStep(b, c, t.state, t.loop).Next?
    ensures var u := BeforeStep(b, c, t.state, t.loop);
            && u.state == StepOf(b, s, k).0 && Matches(b, c, s, k, u.loop)
            && u.loop.prefill == t.loop.prefill && u.loop.decode == t.loop.decode
            && Iterate(b, c, t.state, t.loop) == AfterStep(b, c, u.state, u.loop)
  {
    hide Live, Absorb, Accounted, BeforeStep, AfterStep, EngineAfter;
    BeforeStepMoves(b, c, t.state, t.loop);
  }

  lemma IterateIff<S>(b: Behaviour<S>, c: Config, s: S, k: nat, t: Turn<S>)
    requires k > 0 && InStep(b, c, s, k - 1, t)
    ensures var u := Iterate(b, c, t.state, t.loop);
            && (u.Next? <==> GoesOn(b, c, s, k))
            && (u.Stop? ==> StepsWell(b, c, s, k) && AllDone(b, c, s, k))
            && (t.loop.decode.Some? && StepsWell(b, c, s, k) && AllDone(b, c, s, k) ==>
                  var asked := b.numUnfinished(StepOf(b, s, k).0);
                  && (u.Stop? <==> asked.1.Answer?)
                  && (u.Stop? ==> u.state == asked.0 && u.loop.prefill == t.loop.prefill && u.loop.decode == t.loop.decode))
  {
    hide StepsWell, ReadsWell, InOrder, AllDone, SomeUnstarted, BeforeStep, AfterStep, Reported, DoneBy, EngineAfter, StepOf,
         Iterate;
    BeforeStepIff(b, c, s, k, t);
    var u := BeforeStep(b, c, t.state, t.loop);
    if u.Next? {
      StepMatches(b, c, s, k, t);
      AfterStepIff(b, c, s, k, u.loop);
      if AllDone(b, c, s, k) && u.loop.decode.Some? {
        StopIff(b, c, s, k, u.loop);
      }
    } else {
      Unstepped(b, c, t.state, t.loop);
    }
  }

  lemma Unstepped<S>(b: Behaviour<S>, c: Config, s: S, l: Loop)
    requires Tracks(c, l) && !BeforeStep(b, c, s, l).Next?
    ensures Iterate(b, c, s, l) == BeforeStep(b, c, s, l) && Iterate(b, c, s, l).Refuse?
  {
    hide Absorb, Live;
  }

  // ---------- whole runs ----------

  /** The loop is still running after `k` iterations exactly when each of them went on. */
  lemma {:induction false} RunningIff<S>(b: Behaviour<S>, c: Config, s: S, k: nat)
    requires |c.promptLens| == |c.ids| > 0
    ensures After(b, c, s, k).Next? <==> forall j: nat :: 0 < j <= k ==> GoesOn(b, c, s, j)
    ensures After(b, c, s, k).Next? ==> Ran(b, c, s, k)
  {
    hide GoesOn, Iterate, After, Matches, EngineAfter;
    TurnAfter(b, c, s, k);
    if k > 0 {
      RunningIff(b, c, s, k - 1);
      if After(b, c, s, k - 1).Next? {
        RunningInStep(b, c, s, k - 1);
        IterateIff(b, c, s, k, After(b, c, s, k - 1));
      }
    }
  }

  /** One more turn; a loop that ended stays ended. */
  lemma TurnAfter<S>(b: Behaviour<S>, c: Config, s: S, k: nat)
    requires |c.promptLens| == |c.ids|
    ensures After(b, c, s, 0).Next?
    ensures k > 0 && After(b, c, s, k - 1).Next? ==>
              var t := After(b, c, s, k - 1);
              Tracks(c, t.loop) && After(b, c, s, k) == Iterate(b, c, t.state, t.loop)
    ensures k > 0 && !After(b, c, s, k - 1).Next? ==> After(b, c, s, k) == After(b, c, s, k - 1)
  {
    if k > 0 {
      AfterTracks(b, c, s, k - 1);
    }
    hide Iterate;
  }

  /** A loop that stops in turn `n + 1`, within its budget, returns what it then holds. */
  lemma {:induction false} StopReturns<S>(f: TurnFunction<S>, s: S, l: Loop, k: nat, n: nat, fuel: nat)
    requires k <= n < k + fuel && Turns(f, s, l, n).Next? && Turns(f, s, l, n + 1).Stop?
    ensures var t, u := Turns(f, s, l, k), Turns(f, s, l, n + 1);
            t.Next? && RunTurns(f, t.state, t.loop, fuel) == (u.state, Ok(u.loop))
    decreases n - k
  {
    NextBefore(f, s, l, k, n);
    if k < n {
      NextBefore(f, s, l, k + 1, n);
      StopReturns(f, s, l, k + 1, n, fuel - 1);
    }
  }

  lemma {:induction false} NextBefore<S>(f: TurnFunction<S>, s: S, l: Loop, k: nat, n: nat)
    requires k <= n && Turns(f, s, l, n).Next?
    ensures Turns(f, s, l, k).Next?
  {
    if k < n {
      NextBefore(f, s, l, k, n - 1);
    }
  }

  // ---------- the engine's answers over a run ----------

  lemma {:induction false} TokensNonnegative(c: Config, outs: seq<StepOutput>, id: string)
    requires Legible(c, outs)
    ensures TokensFor(outs, id) >= 0
  {
    if outs != [] {
      assert Legible(c, outs[1..]);
      TokensNonnegative(c, outs[1..], id);
    }
  }

  /** Who has started has started. */
  lemma {:induction false} StartedStays<S>(b: Behaviour<S>, c: Config, s: S, p: nat, k: nat)
    requires p <= k && !SomeUnstarted(b, c, s, p)
    requires forall j: nat :: p < j <= k ==> Legible(c, OutputsOf(b, s, j))
    ensures !SomeUnstarted(b, c, s, k)
  {
    hide OutputsOf, Legible;
    if p < k {
      StartedStays(b, c, s, p, k - 1);
      forall i | 0 <= i < |c.ids| ensures Reported(b, s, c.ids[i], k) >= 1 {
        assert Reported(b, s, c.ids[i], k - 1) >= 1;
        TokensNonnegative(c, OutputsOf(b, s, k), c.ids[i]);
      }
    }
  }

  /** Who is done stays done. */
  lemma {:induction false} DoneStays<S>(b: Behaviour<S>, c: Config, s: S, k: nat, d: nat)
    requires k <= d && !SomeDone(b, c, s, d)
    ensures !SomeDone(b, c, s, k)
  {
    if k < d {
      assert forall i :: 0 <= i < |c.ids| && DoneBy(b, s, c.ids[i], d - 1) ==> DoneBy(b, s, c.ids[i], d);
      DoneStays(b, c, s, k, d - 1);
    }
  }

  // ---------- the theorem ----------

  /**
   What the engine answers in a run that ends in readings.  Everybody has started by
   iteration `p`, not before; nobody is done until after `d`; everybody is by `last`, not
   before, and within the budget.  Up to there every call is answered, every output can be
   read and every reading agrees with the tokens; and the blocks at `d` are no fewer than
   those at `p`.
   */
  ghost predicate RunsWell<S>(b: Behaviour<S>, c: Config, s: S, p: nat, d: nat, last: nat)
    requires |c.promptLens| == |c.ids|
  {
    && Window(b, c, s, p, d, last) && !SomeUnstarted(b, c, s, p) && !SomeDone(b, c, s, d)
    && (forall j: nat :: j < last ==> !AllDone(b, c, s, j))
    && (forall k: nat :: 0 < k <= last ==> StepsWell(b, c, s, k))
    && (forall k: nat :: 0 < k < last ==> ReadsWell(b, c, s, k))
    && UsedAfter(b, s, p) <= UsedAfter(b, s, d)
    && var asked := b.numUnfinished(StepOf(b, s, last).0);
       asked.1.Answer? && b.endSample(asked.0).1.Answer?
  }

  lemma GoesOnWell<S>(b: Behaviour<S>, c: Config, s: S, p: nat, d: nat, last: nat, k: nat)
    requires |c.promptLens| == |c.ids| && RunsWell(b, c, s, p, d, last) && p <= last
    ensures 0 < k < last ==> GoesOn(b, c, s, k)
    ensures p <= k < last ==> !SomeUnstarted(b, c, s, k)
  {
    hide AllDone, SomeUnstarted, SomeDone, Accounted, HeldLive, AllStarted, EngineAfter;
    forall j: nat | p < j <= k < last ensures Legible(c, OutputsOf(b, s, j)) {
      assert StepsWell(b, c, s, j);
    }
    if p <= k < last {
      StartedStays(b, c, s, p, k);
    }
    if 0 < k < last {
      if k <= d {
        DoneStays(b, c, s, k, d);
      } else {
        StartedStays(b, c, s, p, k - 1);
      }
    }
  }

  /** Such a run takes the loop to its end, with both readings in hand. */
  lemma WellReturns<S>(b: Behaviour<S>, c: Config, s: S, p: nat, d: nat, last: nat)
    requires |c.promptLens| == |c.ids| > 0 && RunsWell(b, c, s, p, d, last)
    ensures var (s1, ran) := RunLoop(b, c, s);
            && s1 == b.numUnfinished(StepOf(b, s, last).0).0 && ran.Ok?
            && ran.value.prefill.Some? && ran.value.prefill.value.used == UsedAfter(b, s, p)
            && ran.value.decode.Some? && ran.value.decode.value.used == UsedAfter(b, s, d)
  {
    hide GoesOn, StepsWell, ReadsWell, After, Iterate, Matches, EngineAfter, StepOf, UsedAfter, ReadAt, AllDone, SomeUnstarted,
         SomeDone, Grown, Ran;
    forall k: nat | k < last ensures 0 < k ==> GoesOn(b, c, s, k) {
      GoesOnWell(b, c, s, p, d, last, k);
    }
    GoesOnWell(b, c, s, p, d, last, last - 1);
    RunningIff(b, c, s, last - 1);
    var t := After(b, c, s, last - 1);
    RunningInStep(b, c, s, last - 1);
    TurnAfter(b, c, s, last);
    IterateIff(b, c, s, last, t);
    StopLoop(b, c, s, last);
    var p', d' := ReadingsDated(b, c, s, last - 1);
    ReadStarted(b, c, s, p', t.loop.prefill.value);
    ReadStarted(b, c, s, d', t.loop.decode.value);
    assert p' == p && d' == d;
    ReadUsed(b, c, s, p, t.loop.prefill.value);
    ReadUsed(b, c, s, d, t.loop.decode.value);
  }

  lemma ReadUsed<S>(b: Behaviour<S>, c: Config, s: S, k: nat, r: Reading)
    requires |c.promptLens| == |c.ids| && ReadAt(b, c, s, k, r)
    ensures r.used == UsedAfter(b, s, k)
  {}

  lemma StopLoop<S>(b: Behaviour<S>, c: Config, s: S, last: nat)
    requires 0 < last <= MaxSteps(c) && After(b, c, s, last - 1).Next? && After(b, c, s, last).Stop?
    ensures RunLoop(b, c, s) == (After(b, c, s, last).state, Ok(After(b, c, s, last).loop))
  {
    hide TurnOf;
    StopReturns(TurnOf(b, c), s, StartLoop(c), 0, last - 1, MaxSteps(c));
  }

  /** And a loop that ends with readings the sampler accepts is such a run. */
  lemma ReturnedWell<S>(b: Behaviour<S>, c: Config, s: S) returns (p: nat, d: nat, last: nat)
    requires |c.promptLens| == |c.ids| > 0 && RunLoop(b, c, s).1.Ok?
    requires Conclude(c, RunLoop(b, c, s).1.value).Ok? && b.endSample(RunLoop(b, c, s).0).1.Answer?
    ensures RunsWell(b, c, s, p, d, last)
  {
    hide RunLoop, GoesOn, StepsWell, ReadsWell, After, Iterate, Matches, EngineAfter, StepOf, UsedAfter, ReadAt, AllDone,
         SomeUnstarted, SomeDone, Grown;
    var l: Loop;
    l, p, d, last := StoppedRun(b, c, s);
    OneMoreDone(b, c, s, d, last);
    ReadStarted(b, c, s, p, l.prefill.value);
    ReadStarted(b, c, s, d, l.decode.value);
    ReadUsed(b, c, s, p, l.prefill.value);
    ReadUsed(b, c, s, d, l.decode.value);
    RunningIff(b, c, s, last - 1);
    RunningInStep(b, c, s, last - 1);
    Started(b, c, s, d, last - 1);
    TurnAfter(b, c, s, last);
    IterateIff(b, c, s, last, After(b, c, s, last - 1));
    StopLoop(b, c, s, last);
    forall k: nat | k < last ensures !AllDone(b, c, s, k) && (0 < k ==> StepsWell(b, c, s, k) && ReadsWell(b, c, s, k)) {
      GoesOnParts(b, c, s, k);
    }
  }

  lemma GoesOnParts<S>(b: Behaviour<S>, c: Config, s: S, k: nat)
    requires |c.promptLens| == |c.ids| > 0 && (k > 0 ==> GoesOn(b, c, s, k))
    ensures !AllDone(b, c, s, k) && (k > 0 ==> StepsWell(b, c, s, k) && ReadsWell(b, c, s, k))
  {
    assert !DoneBy(b, s, c.ids[0], 0);
  }

  /**
   The sampler returns readings exactly when its arguments are well formed, the engine
   takes every request, and the run then goes well.
   */
  lemma SampleSucceedsIff<S>(b: Behaviour<S>, c: Config, s: S)
    ensures Sample(b, c, s).result.Ok? <==>
              && WellFormed(c, b.totalBlocks)
              && AddUpTo(b, c, s, |c.ids|).1.Answer?
              && exists p: nat, d: nat, last: nat :: RunsWell(b, c, AddUpTo(b, c, s, |c.ids|).0, p, d, last)
  {
    hide RunLoop, RunsWell, AddUpTo, StepOf, UsedAfter;
    ValidateIff(c, b.totalBlocks);
    if Sample(b, c, s).result.Ok? {
      var s0 := AddUpTo(b, c, s, |c.ids|).0;
      var p, d, last := ReturnedWell(b, c, s0);
    } else if WellFormed(c, b.totalBlocks) && AddUpTo(b, c, s, |c.ids|).1.Answer? {
      var s0 := AddUpTo(b, c, s, |c.ids|).0;
      if p: nat, d: nat, last: nat :| RunsWell(b, c, s0, p, d, last) {
        WellReturns(b, c, s0, p, d, last);
        WellEnds(b, c, s0, p, d, last);
      }
    }
  }

  lemma WellEnds<S>(b: Behaviour<S>, c: Config, s: S, p: nat, d: nat, last: nat)
    requires |c.promptLens| == |c.ids| && RunsWell(b, c, s, p, d, last)
    ensures 0 < p && 0 < d && 0 < last && UsedAfter(b, s, p) <= UsedAfter(b, s, d)
    ensures b.endSample(b.numUnfinished(StepOf(b, s, last).0).0).1.Answer?
  {}
}
