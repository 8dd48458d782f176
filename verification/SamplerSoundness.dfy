/** What a returned sample means, for every engine, truthful or not. */
module SamplerSoundness {
  import opened Prelude
  import opened Engine
  import opened Sampler

  // ---------- what the engine itself did ----------

  function FreeOf(r: Reply<int>): int {
    if r.Answer? then r.value else 0
  }

  /** The engine after `k` iterations that went on: each one reads, steps and reads again. */
  ghost function EngineAfter<S>(b: Behaviour<S>, s: S, k: nat): S
    decreases k, 1
  {
    if k == 0 then s else b.numFreeBlocks(StepOf(b, s, k).0).0
  }

  /** The engine's answer to its `k`-th step, after the reading that precedes it. */
  ghost function StepOf<S>(b: Behaviour<S>, s: S, k: nat): (S, Reply<seq<StepOutput>>)
    requires k > 0
    decreases k, 0
  {
    b.step(b.numFreeBlocks(EngineAfter(b, s, k - 1)).0)
  }

  ghost function OutputsOf<S>(b: Behaviour<S>, s: S, k: nat): seq<StepOutput>
    requires k > 0
  {
    var r := StepOf(b, s, k).1;
    if r.Answer? then r.value else []
  }

  /** Blocks in use before and after the `k`-th step, as the engine answers. */
  ghost function UsedBefore<S>(b: Behaviour<S>, s: S, k: nat): int
    requires k > 0
  {
    b.totalBlocks - FreeOf(b.numFreeBlocks(EngineAfter(b, s, k - 1)).1)
  }

  ghost function UsedAfter<S>(b: Behaviour<S>, s: S, k: nat): int
    requires k > 0
  {
    b.totalBlocks - FreeOf(b.numFreeBlocks(StepOf(b, s, k).0).1)
  }

  /** Tokens the engine reported for a request in its first `k` steps. */
  ghost function Reported<S>(b: Behaviour<S>, s: S, id: string, k: nat): int {
    if k == 0 then 0 else Reported(b, s, id, k - 1) + TokensFor(OutputsOf(b, s, k), id)
  }

  /** The engine reported the request finished within its first `k` steps. */
  ghost predicate DoneBy<S>(b: Behaviour<S>, s: S, id: string, k: nat) {
    k > 0 && (DoneBy(b, s, id, k - 1) || EndsIn(OutputsOf(b, s, k), id))
  }

  /** Prompt lengths plus reported tokens of the first `n` requests. */
  ghost function Held<S>(b: Behaviour<S>, c: Config, s: S, k: nat, n: nat): int
    requires n <= |c.ids| == |c.promptLens|
  {
    if n == 0 then 0 else Held(b, c, s, k, n - 1) + c.promptLens[n - 1] + Reported(b, s, c.ids[n - 1], k)
  }

  /** The same, of those that are not done. */
  ghost function HeldLive<S>(b: Behaviour<S>, c: Config, s: S, k: nat, n: nat): int
    requires n <= |c.ids| == |c.promptLens|
  {
    if n == 0 then 0
    else
      HeldLive(b, c, s, k, n - 1)
      + if DoneBy(b, s, c.ids[n - 1], k) then 0 else c.promptLens[n - 1] + Reported(b, s, c.ids[n - 1], k)
  }

  lemma {:induction false} AllLive<S>(b: Behaviour<S>, c: Config, s: S, k: nat, n: nat)
    requires n <= |c.ids| == |c.promptLens| && forall i :: 0 <= i < n ==> !DoneBy(b, s, c.ids[i], k)
    ensures HeldLive(b, c, s, k, n) == Held(b, c, s, k, n)
  {
    hide DoneBy, Reported;
    if n > 0 {
      AllLive(b, c, s, k, n - 1);
    }
  }

  /** Everybody who is not done has been given a token. */
  ghost predicate AllStarted<S>(b: Behaviour<S>, c: Config, s: S, k: nat) {
    forall i :: 0 <= i < |c.ids| && !DoneBy(b, s, c.ids[i], k) ==> Reported(b, s, c.ids[i], k) >= 1
  }

  ghost predicate SomeUnstarted<S>(b: Behaviour<S>, c: Config, s: S, k: nat) {
    exists i :: 0 <= i < |c.ids| && Reported(b, s, c.ids[i], k) < 1
  }

  ghost predicate SomeDone<S>(b: Behaviour<S>, c: Config, s: S, k: nat) {
    exists i :: 0 <= i < |c.ids| && DoneBy(b, s, c.ids[i], k)
  }

  ghost predicate AllDone<S>(b: Behaviour<S>, c: Config, s: S, k: nat) {
    forall i :: 0 <= i < |c.ids| ==> DoneBy(b, s, c.ids[i], k)
  }

  // ---------- the gate ----------

  /** The block accounting: slots cover the live tokens once everybody has started, and never exceed them by much. */
  ghost predicate Accounted(c: Config, used: int, live: int, started: bool) {
    && used >= 0
    && used * c.blockSize <= live + |c.ids| * c.blockSize + 64
    && (started ==> live <= used * c.blockSize)
  }

  lemma GatePasses(c: Config, used: int, live: int, started: bool)
    ensures CheckBlocks(used, live, |c.ids|, c.blockSize, started).Ok? <==> Accounted(c, used, live, started)
  {}

  // ---------- runs of an arbitrary turn function ----------

  /** The loop after `k` turns; a loop that ended stays ended. */
  ghost function Turns<S>(f: TurnFunction<S>, s: S, l: Loop, k: nat): Turn<S> {
    if k == 0 then Next(s, l)
    else
      var t := Turns(f, s, l, k - 1);
      if t.Next? then f(t.state, t.loop) else t
  }

  /** A run that stops is some number of turns below the budget. */
  lemma {:induction false} RunStops<S>(f: TurnFunction<S>, s: S, l: Loop, k: nat, fuel: nat) returns (n: nat)
    requires var t := Turns(f, s, l, k); t.Next? && RunTurns(f, t.state, t.loop, fuel).1.Ok?
    ensures k <= n < k + fuel && Turns(f, s, l, n).Next? && Turns(f, s, l, n + 1).Stop?
    ensures var t := Turns(f, s, l, k);
            Turns(f, s, l, n + 1).loop == RunTurns(f, t.state, t.loop, fuel).1.value
    decreases fuel
  {
    n := k;
    if Turns(f, s, l, k + 1).Next? {
      n := RunStops(f, s, l, k + 1, fuel - 1);
    }
  }

  /** The loop after `k` iterations. */
  ghost function After<S>(b: Behaviour<S>, c: Config, s: S, k: nat): Turn<S> {
    Turns(TurnOf(b, c), s, StartLoop(c), k)
  }

  lemma {:induction false} AfterTracks<S>(b: Behaviour<S>, c: Config, s: S, k: nat)
    requires |c.promptLens| == |c.ids|
    ensures !After(b, c, s, k).Refuse? ==> Tracks(c, After(b, c, s, k).loop)
  {
    if k > 0 {
      AfterTracks(b, c, s, k - 1);
    }
  }

  /** Nobody has finished and everybody has generated at least one token. */
  ghost predicate AllAlive(c: Config, l: Loop)
  {
    Tracks(c, l) && l.finished == {} && forall id :: id in c.ids ==> l.generated[id] >= 1
  }

  // ---------- one iteration ----------

  /** What an iteration that goes on does to the readings; `used` is what the engine answered after its step. */
  ghost predicate Moved(c: Config, l: Loop, l': Loop, used: int)
    requires Tracks(c, l) && Tracks(c, l')
  {
    && (forall id :: id in c.ids ==> l.generated[id] <= l'.generated[id])
    && (l.prefill.Some? ==> l'.prefill == l.prefill)
    && (l.prefill.None? && l'.prefill.Some? ==> AllAlive(c, l') && l'.prefill == Some(Reading(used, Live(c, l'))))
    && (l'.prefill.None? ==> exists i :: 0 <= i < |c.ids| && l'.generated[c.ids[i]] < 1)
    && (if l'.prefill.Some? && l'.finished == {} then l'.decode == Some(Reading(used, Live(c, l'))) else l'.decode == l.decode)
    && Accounted(c, used, Live(c, l'), Scheduled(c, l'))
    && !AllFinished(c, l')
  }

  /** One iteration against the engine: reads, steps, absorbs what was reported, and reads again. */
  lemma IterateMoves<S>(b: Behaviour<S>, c: Config, s: S, l: Loop)
    requires Tracks(c, l) && !Iterate(b, c, s, l).Refuse?
    ensures var t, before := Iterate(b, c, s, l), b.numFreeBlocks(s);
            var (s2, outs) := b.step(before.0);
            var after := b.numFreeBlocks(s2);
            && Accounted(c, b.totalBlocks - FreeOf(before.1), Live(c, l), Scheduled(c, l))
            && outs.Answer?
            && (exists m :: Absorbs(l, outs.value, m) && m.generated == t.loop.generated && m.finished == t.loop.finished)
            && (t.Next? ==> t.state == after.0 && Moved(c, l, t.loop, b.totalBlocks - FreeOf(after.1)))
            && (t.Stop? ==> t.loop.prefill == l.prefill && t.loop.decode == l.decode && AllFinished(c, t.loop))
  {
    hide Live, Absorb, Accounted, Absorbs;
    BeforeStepMoves(b, c, s, l);
    var t := BeforeStep(b, c, s, l);
    AfterStepMoves(b, c, t.state, t.loop);
    var u := Iterate(b, c, s, l);
    assert u == AfterStep(b, c, t.state, t.loop);
    assert Absorbs(l, b.step(b.numFreeBlocks(s).0).1.value, t.loop);
  }

  lemma BeforeStepMoves<S>(b: Behaviour<S>, c: Config, s: S, l: Loop)
    requires Tracks(c, l) && BeforeStep(b, c, s, l).Next?
    ensures var t, before := BeforeStep(b, c, s, l), b.numFreeBlocks(s);
            var (s2, outs) := b.step(before.0);
            && Accounted(c, b.totalBlocks - FreeOf(before.1), Live(c, l), Scheduled(c, l))
            && outs.Answer? && t.state == s2 && Tracks(c, t.loop) && Absorbs(l, outs.value, t.loop)
            && t.loop.prefill == l.prefill && t.loop.decode == l.decode
            && forall id :: id in c.ids ==> l.generated[id] <= t.loop.generated[id]
  {
    hide Live, Absorb, Accounted, Absorbs;
    BeforeStepTracks(b, c, s, l);
    var (s1, free) := b.numFreeBlocks(s);
    GatePasses(c, b.totalBlocks - free.value, Live(c, l), Scheduled(c, l));
    AbsorbMeaning(l, b.step(s1).1.value);
  }

  lemma AfterStepMoves<S>(b: Behaviour<S>, c: Config, s: S, l: Loop)
    requires Tracks(c, l) && !AfterStep(b, c, s, l).Refuse?
    ensures var t, after := AfterStep(b, c, s, l), b.numFreeBlocks(s);
            && t.loop.generated == l.generated && t.loop.finished == l.finished && Tracks(c, t.loop)
            && (t.Next? ==> t.state == after.0 && Moved(c, l, t.loop, b.totalBlocks - FreeOf(after.1)))
            && (t.Stop? ==> t.loop == l && AllFinished(c, l))
  {
    if !AllFinished(c, l) {
      var r := Reading(b.totalBlocks - b.numFreeBlocks(s).1.value, Live(c, l));
      var scheduled := Scheduled(c, l);
      GatePasses(c, r.used, r.live, scheduled);
      SameLive(c, l, Record(l, r, scheduled), |c.ids|);
    }
  }

  /** Recording a reading does not change the live count. */
  lemma {:induction false} SameLive(c: Config, l: Loop, l': Loop, n: nat)
    requires Tracks(c, l) && Tracks(c, l') && n <= |c.ids|
    requires l.generated == l'.generated && l.finished == l'.finished
    ensures LiveUpTo(c, l, n) == LiveUpTo(c, l', n)
  {
    if n > 0 {
      SameLive(c, l, l', n - 1);
    }
  }

  lemma {:induction false} LiveGrows(c: Config, l: Loop, l': Loop, n: nat)
    requires Tracks(c, l) && Tracks(c, l') && n <= |c.ids|
    requires l.finished == {} == l'.finished
    requires forall id :: id in c.ids ==> l.generated[id] <= l'.generated[id]
    ensures LiveUpTo(c, l, n) <= LiveUpTo(c, l', n)
  {
    if n > 0 {
      LiveGrows(c, l, l', n - 1);
    }
  }

  // ---------- the loop's counters are what the engine reported ----------

  ghost predicate Matches<S>(b: Behaviour<S>, c: Config, s: S, k: nat, l: Loop) {
    && Tracks(c, l)
    && forall id :: id in c.ids ==> l.generated[id] == Reported(b, s, id, k) && (id in l.finished <==> DoneBy(b, s, id, k))
  }

  /** Iteration `k` ran. */
  ghost predicate Ran<S>(b: Behaviour<S>, c: Config, s: S, k: nat) {
    !After(b, c, s, k).Refuse? && (k > 0 ==> After(b, c, s, k - 1).Next?)
  }

  lemma AfterUnfolds<S>(b: Behaviour<S>, c: Config, s: S, k: nat)
    requires |c.promptLens| == |c.ids| && k > 0 && Ran(b, c, s, k)
    ensures var t := After(b, c, s, k - 1);
            && t.Next? && Tracks(c, t.loop) && Ran(b, c, s, k - 1)
            && Iterate(b, c, t.state, t.loop) == After(b, c, s, k)
            && Tracks(c, After(b, c, s, k).loop)
  {
    AfterTracks(b, c, s, k - 1);
    AfterTracks(b, c, s, k);
  }

  /** After `k` iterations every counter is what the engine reported in its first `k` steps. */
  lemma {:induction false} CountersAreReports<S>(b: Behaviour<S>, c: Config, s: S, k: nat)
    requires |c.promptLens| == |c.ids| && Ran(b, c, s, k)
    ensures Matches(b, c, s, k, After(b, c, s, k).loop)
    ensures After(b, c, s, k).Next? ==> After(b, c, s, k).state == EngineAfter(b, s, k)
    decreases k
  {
    hide After, Iterate, Moved, Accounted, Live, Scheduled;
    if k == 0 {
      StartMatches(b, c, s);
    } else {
      AfterUnfolds(b, c, s, k);
      CountersAreReports(b, c, s, k - 1);
      var t := After(b, c, s, k - 1);
      IterateMoves(b, c, t.state, t.loop);
    }
  }

  lemma StartMatches<S>(b: Behaviour<S>, c: Config, s: S)
    requires |c.promptLens| == |c.ids|
    ensures After(b, c, s, 0) == Next(s, StartLoop(c)) && Matches(b, c, s, 0, StartLoop(c)) && EngineAfter(b, s, 0) == s
  {}

  lemma {:induction false} LiveIsHeld<S>(b: Behaviour<S>, c: Config, s: S, k: nat, l: Loop, n: nat)
    requires |c.promptLens| == |c.ids| && n <= |c.ids| && Matches(b, c, s, k, l)
    ensures LiveUpTo(c, l, n) == HeldLive(b, c, s, k, n)
  {
    hide Reported, DoneBy;
    if n > 0 {
      LiveIsHeld(b, c, s, k, l, n - 1);
    }
  }

  lemma ScheduledIsStarted<S>(b: Behaviour<S>, c: Config, s: S, k: nat, l: Loop)
    requires |c.promptLens| == |c.ids| && Matches(b, c, s, k, l)
    ensures Scheduled(c, l) <==> AllStarted(b, c, s, k)
    ensures l.finished == {} <==> !SomeDone(b, c, s, k)
    ensures AllFinished(c, l) <==> AllDone(b, c, s, k)
    ensures (exists i :: 0 <= i < |c.ids| && l.generated[c.ids[i]] < 1) <==> SomeUnstarted(b, c, s, k)
  {
    hide Reported, DoneBy;
    if l.finished != {} {
      var id :| id in l.finished;
      assert id in c.ids;
    }
  }

  // ---------- whole runs ----------

  /**
   Iteration `k` read this with every request alive and started: blocks as the engine
   answered, tokens as the prompts and the engine's reports add up.
   */
  ghost predicate ReadAt<S>(b: Behaviour<S>, c: Config, s: S, k: nat, r: Reading)
    requires |c.promptLens| == |c.ids|
  {
    && k > 0 && !SomeDone(b, c, s, k) && !SomeUnstarted(b, c, s, k)
    && r == Reading(UsedAfter(b, s, k), Held(b, c, s, k, |c.ids|))
    && Consistent(c, r)
  }

  /** What the loop holds after an iteration at which it took a reading with everybody alive. */
  lemma ReadingTaken<S>(b: Behaviour<S>, c: Config, s: S, k: nat, r: Reading)
    requires |c.promptLens| == |c.ids| && k > 0 && Ran(b, c, s, k) && After(b, c, s, k).Next?
    requires var l := After(b, c, s, k).loop;
             && Matches(b, c, s, k, l) && AllAlive(c, l)
             && r == Reading(UsedAfter(b, s, k), Live(c, l)) && Accounted(c, r.used, r.live, Scheduled(c, l))
    ensures ReadAt(b, c, s, k, r)
  {
    hide After, Reported, DoneBy, UsedAfter;
    var l := After(b, c, s, k).loop;
    LiveIsHeld(b, c, s, k, l, |c.ids|);
    ScheduledIsStarted(b, c, s, k, l);
    AllLive(b, c, s, k, |c.ids|);
  }

  ghost predicate Grown<S>(b: Behaviour<S>, c: Config, s: S, d: nat, k: nat) {
    forall i :: 0 <= i < |c.ids| ==> Reported(b, s, c.ids[i], d) <= Reported(b, s, c.ids[i], k)
  }

  lemma {:induction false} HeldGrows<S>(b: Behaviour<S>, c: Config, s: S, d: nat, k: nat, n: nat)
    requires n <= |c.ids| == |c.promptLens| && Grown(b, c, s, d, k)
    ensures Held(b, c, s, d, n) <= Held(b, c, s, k, n)
  {
    hide Reported;
    if n > 0 {
      HeldGrows(b, c, s, d, k, n - 1);
    }
  }

  /** Both readings of a running loop, dated: the first iteration with everybody started, the last with nobody done. */
  ghost predicate Dated<S>(b: Behaviour<S>, c: Config, s: S, k: nat, l: Loop, p: nat, d: nat)
    requires |c.promptLens| == |c.ids|
  {
    && (l.prefill.Some? <==> l.decode.Some?)
    && (l.prefill.None? ==> forall j: nat :: j <= k ==> SomeUnstarted(b, c, s, j))
    && (l.prefill.Some? ==>
          && 1 <= p <= d <= k
          && ReadAt(b, c, s, p, l.prefill.value) && ReadAt(b, c, s, d, l.decode.value)
          && l.prefill.value.live <= l.decode.value.live
          && Grown(b, c, s, d, k)
          && (forall j: nat :: j < p ==> SomeUnstarted(b, c, s, j))
          && (forall j: nat :: d < j <= k ==> SomeDone(b, c, s, j)))
  }

  lemma {:induction false} ReadingsDated<S>(b: Behaviour<S>, c: Config, s: S, k: nat) returns (p: nat, d: nat)
    requires |c.promptLens| == |c.ids| > 0 && Ran(b, c, s, k) && After(b, c, s, k).Next?
    ensures Dated(b, c, s, k, After(b, c, s, k).loop, p, d)
    decreases k
  {
    hide After, Iterate, Dated, Tracks, Reported, DoneBy;
    p, d := 0, 0;
    if k == 0 {
      DatedAtStart(b, c, s);
    } else {
      AfterUnfolds(b, c, s, k);
      p, d := ReadingsDated(b, c, s, k - 1);
      p, d := DateNext(b, c, s, k, p, d);
    }
  }

  lemma DatedAtStart<S>(b: Behaviour<S>, c: Config, s: S)
    requires |c.promptLens| == |c.ids| > 0
    ensures Dated(b, c, s, 0, After(b, c, s, 0).loop, 0, 0)
  {
    assert Reported(b, s, c.ids[0], 0) == 0;
  }

  /** Once everybody has started, everybody has. */
  lemma Started<S>(b: Behaviour<S>, c: Config, s: S, d: nat, k: nat)
    requires Grown(b, c, s, d, k) && !SomeUnstarted(b, c, s, d)
    ensures !SomeUnstarted(b, c, s, k)
  {
    hide Reported;
  }

  lemma GrownNext<S>(b: Behaviour<S>, c: Config, s: S, d: nat, k: nat, l: Loop, l': Loop)
    requires k > 0 && Matches(b, c, s, k - 1, l) && Matches(b, c, s, k, l')
    requires forall id :: id in c.ids ==> l.generated[id] <= l'.generated[id]
    requires Grown(b, c, s, d, k - 1)
    ensures Grown(b, c, s, d, k)
  {
    hide Reported, DoneBy;
  }

  lemma AliveWhenStarted<S>(b: Behaviour<S>, c: Config, s: S, k: nat, l: Loop)
    requires |c.promptLens| == |c.ids| && Matches(b, c, s, k, l) && l.finished == {} && !SomeUnstarted(b, c, s, k)
    ensures AllAlive(c, l)
  {
    hide Reported, DoneBy;
    forall id | id in c.ids ensures l.generated[id] >= 1 {
      var i :| 0 <= i < |c.ids| && c.ids[i] == id;
      assert Reported(b, s, c.ids[i], k) >= 1;
    }
  }

  lemma DateNext<S>(b: Behaviour<S>, c: Config, s: S, k: nat, p: nat, d: nat) returns (p': nat, d': nat)
    requires |c.promptLens| == |c.ids| && k > 0 && Ran(b, c, s, k) && After(b, c, s, k).Next?
    requires Dated(b, c, s, k - 1, After(b, c, s, k - 1).loop, p, d)
    ensures Dated(b, c, s, k, After(b, c, s, k).loop, p', d')
  {
    hide After, Iterate, Reported, DoneBy, Held, Absorbs, Accounted, SomeDone, SomeUnstarted, Matches, Live, Scheduled,
         AllFinished, Grown;
    AfterUnfolds(b, c, s, k);
    CountersAreReports(b, c, s, k - 1);
    CountersAreReports(b, c, s, k);
    var t := After(b, c, s, k - 1);
    var l, l' := t.loop, After(b, c, s, k).loop;
    IterateMoves(b, c, t.state, l);
    assert Moved(c, l, l', UsedAfter(b, s, k));
    ScheduledIsStarted(b, c, s, k, l');
    p', d' := p, d;
    if l.prefill.Some? {
      GrownNext(b, c, s, d, k, l, l');
    }
    if l'.prefill.Some? && l'.finished == {} {
      d' := k;
      if l.prefill.None? {
        p' := k;
      } else {
        HeldGrows(b, c, s, d, k, |c.ids|);
        Started(b, c, s, d, k);
        AliveWhenStarted(b, c, s, k, l');
      }
      ReadingTaken(b, c, s, k, l'.decode.value);
      GrownSelf(b, c, s, k);
    }
  }

  lemma GrownSelf<S>(b: Behaviour<S>, c: Config, s: S, k: nat)
    ensures Grown(b, c, s, k, k)
  {
    hide Reported;
  }

  /** The state a successful loop hands over, with its readings dated, and the iteration it stopped in. */
  lemma StoppedRun<S>(b: Behaviour<S>, c: Config, s0: S) returns (l: Loop, p: nat, d: nat, last: nat)
    requires |c.promptLens| == |c.ids| > 0 && RunLoop(b, c, s0).1.Ok?
    ensures l == RunLoop(b, c, s0).1.value
    ensures 1 <= last <= MaxSteps(c) && Ran(b, c, s0, last) && After(b, c, s0, last).Stop?
    ensures AllDone(b, c, s0, last) && Dated(b, c, s0, last - 1, l, p, d)
  {
    hide Dated, Iterate, Reported, DoneBy, Absorbs;
    var n := RunStops(TurnOf(b, c), s0, StartLoop(c), 0, MaxSteps(c));
    last := n + 1;
    AfterUnfolds(b, c, s0, last);
    var t := After(b, c, s0, n);
    l := After(b, c, s0, last).loop;
    IterateMoves(b, c, t.state, t.loop);
    p, d := ReadingsDated(b, c, s0, n);
    CountersAreReports(b, c, s0, last);
    ScheduledIsStarted(b, c, s0, last, l);
    SameDates(b, c, s0, n, t.loop, l, p, d);
  }

  lemma SameDates<S>(b: Behaviour<S>, c: Config, s: S, k: nat, l: Loop, l': Loop, p: nat, d: nat)
    requires |c.promptLens| == |c.ids| && Dated(b, c, s, k, l, p, d) && l'.prefill == l.prefill && l'.decode == l.decode
    ensures Dated(b, c, s, k, l', p, d)
  {}

  /** The first iteration at which everybody has started, and the last one at which nobody is done. */
  ghost predicate Window<S>(b: Behaviour<S>, c: Config, s: S, p: nat, d: nat, last: nat) {
    && 1 <= p <= d < last <= MaxSteps(c)
    && (forall j: nat :: j < p ==> SomeUnstarted(b, c, s, j))
    && (forall j: nat :: d < j <= last ==> SomeDone(b, c, s, j))
    && AllDone(b, c, s, last)
  }

  /**
   Soundness.  If any engine at all makes the sampler return readings, then everybody is
   done by some iteration within the budget; prefill was read at the first iteration by
   which everybody had started, decode at the last one at which nobody was done.  Each
   reading is the blocks the engine answered there, against the prompt lengths plus the
   tokens it had reported, and passed both sides of the gate; decode is at least prefill.
   */
  lemma SampleSound<S>(b: Behaviour<S>, c: Config, s: S) returns (p: nat, d: nat, last: nat)
    requires Sample(b, c, s).result.Ok?
    ensures WellFormed(c, b.totalBlocks)
    ensures var s0 := AddUpTo(b, c, s, |c.ids|).0;
            var v := Sample(b, c, s).result.value;
            && Window(b, c, s0, p, d, last)
            && ReadAt(b, c, s0, p, Reading(v.usedBlocksPrefill, v.liveTokensPrefill))
            && ReadAt(b, c, s0, d, Reading(v.usedBlocksDecode, v.liveTokensDecode))
            && v.usedBlocksPrefill <= v.usedBlocksDecode
            && v.liveTokensPrefill <= v.liveTokensDecode
            && v.kvBytesPrefill == v.usedBlocksPrefill * c.blockSize * c.theoryBpt
            && v.kvBytesDecode == v.usedBlocksDecode * c.blockSize * c.theoryBpt
  {
    hide RunLoop, ReadAt, SomeDone, SomeUnstarted, AllDone, AddUpTo;
    var s0 := AddUpTo(b, c, s, |c.ids|).0;
    var l: Loop;
    l, p, d, last := StoppedRun(b, c, s0);
    OneMoreDone(b, c, s0, d, last);
  }

  /** When everybody is done, somebody is. */
  lemma OneMoreDone<S>(b: Behaviour<S>, c: Config, s: S, d: nat, last: nat)
    requires |c.ids| > 0 && AllDone(b, c, s, last)
    requires forall j: nat :: d < j <= last - 1 ==> SomeDone(b, c, s, j)
    ensures forall j: nat :: d < j <= last ==> SomeDone(b, c, s, j)
  {
    hide DoneBy;
    assert DoneBy(b, s, c.ids[0], last);
  }

  /** Both readings of iteration `k` passed the gate; the last iteration takes only the first of them. */
  ghost predicate GatedIn<S>(b: Behaviour<S>, c: Config, s: S, k: nat, last: nat)
    requires k > 0 && |c.promptLens| == |c.ids|
  {
    && Accounted(c, UsedBefore(b, s, k), HeldLive(b, c, s, k - 1, |c.ids|), AllStarted(b, c, s, k - 1))
    && (k < last ==> Accounted(c, UsedAfter(b, s, k), HeldLive(b, c, s, k, |c.ids|), AllStarted(b, c, s, k)))
  }

  /**
   Every reading of every iteration of a sample that returns passed the gate, also those
   taken before a step and those taken while only part of the batch was alive.
   */
  lemma EveryReadingGated<S>(b: Behaviour<S>, c: Config, s: S) returns (last: nat)
    requires Sample(b, c, s).result.Ok?
    ensures |c.promptLens| == |c.ids|
    ensures var s0 := AddUpTo(b, c, s, |c.ids|).0;
            && last <= MaxSteps(c) && AllDone(b, c, s0, last)
            && (forall j: nat :: j < last ==> !AllDone(b, c, s0, j))
            && forall k: nat :: 0 < k <= last ==> GatedIn(b, c, s0, k, last)
  {
    hide RunLoop, GatedIn, AllDone, AddUpTo, Ran, Dated;
    var s0 := AddUpTo(b, c, s, |c.ids|).0;
    var l: Loop, p: nat, d: nat;
    l, p, d, last := StoppedRun(b, c, s0);
    forall k: nat | 0 < k <= last ensures GatedIn(b, c, s0, k, last) {
      RanBefore(b, c, s0, k, last);
      GatedAt(b, c, s0, k, last);
    }
    forall k: nat | k < last ensures !AllDone(b, c, s0, k) {
      RanBefore(b, c, s0, k, last);
      NotAllDone(b, c, s0, k);
    }
  }

  lemma {:induction false} RanBefore<S>(b: Behaviour<S>, c: Config, s: S, k: nat, last: nat)
    requires |c.promptLens| == |c.ids| && k <= last && Ran(b, c, s, last)
    ensures Ran(b, c, s, k) && (k < last ==> After(b, c, s, k).Next?)
    decreases last
  {
    hide After;
    if k < last {
      AfterUnfolds(b, c, s, last);
      RanBefore(b, c, s, k, last - 1);
    }
  }

  /** An accounted reading, in the terms of the engine's reports. */
  lemma AccountedByReports<S>(b: Behaviour<S>, c: Config, s: S, k: nat, l: Loop, used: int)
    requires |c.promptLens| == |c.ids| && Matches(b, c, s, k, l) && Accounted(c, used, Live(c, l), Scheduled(c, l))
    ensures Accounted(c, used, HeldLive(b, c, s, k, |c.ids|), AllStarted(b, c, s, k))
  {
    LiveIsHeld(b, c, s, k, l, |c.ids|);
    ScheduledIsStarted(b, c, s, k, l);
    hide LiveUpTo, HeldLive, Reported, DoneBy, Scheduled, AllStarted, Accounted;
  }

  lemma GatedAt<S>(b: Behaviour<S>, c: Config, s: S, k: nat, last: nat)
    requires |c.promptLens| == |c.ids| && 0 < k <= last && Ran(b, c, s, k) && (k < last ==> After(b, c, s, k).Next?)
    ensures GatedIn(b, c, s, k, last)
  {
    hide After, Iterate, Reported, DoneBy, Absorbs, Accounted, HeldLive, AllStarted, AllDone, Live, Scheduled, Matches, AllFinished;
    AfterUnfolds(b, c, s, k);
    CountersAreReports(b, c, s, k - 1);
    CountersAreReports(b, c, s, k);
    var t, l' := After(b, c, s, k - 1), After(b, c, s, k).loop;
    IterateMoves(b, c, t.state, t.loop);
    AccountedByReports(b, c, s, k - 1, t.loop, UsedBefore(b, s, k));
    if k < last {
      AccountedByReports(b, c, s, k, l', UsedAfter(b, s, k));
    }
  }

  lemma NotAllDone<S>(b: Behaviour<S>, c: Config, s: S, k: nat)
    requires |c.promptLens| == |c.ids| > 0 && Ran(b, c, s, k) && After(b, c, s, k).Next?
    ensures !AllDone(b, c, s, k)
  {
    hide After, Iterate, Reported, Absorbs, Accounted, Live;
    if k == 0 {
      assert !DoneBy(b, s, c.ids[0], 0);
    } else {
      AfterUnfolds(b, c, s, k);
      CountersAreReports(b, c, s, k);
      var t := After(b, c, s, k - 1);
      IterateMoves(b, c, t.state, t.loop);
      ScheduledIsStarted(b, c, s, k, After(b, c, s, k).loop);
    }
  }

  /**
   And a reading that fails the gate is refused on the spot: before the step without
   stepping, whoever is alive.
   */
  lemma UngatedIsRefused<S>(b: Behaviour<S>, c: Config, s: S, l: Loop)
    requires Tracks(c, l)
    ensures var (s1, free) := b.numFreeBlocks(s);
            free.Answer? && !Accounted(c, b.totalBlocks - free.value, Live(c, l), Scheduled(c, l)) ==>
              Iterate(b, c, s, l) == Refuse(s1, GateError(c, b.totalBlocks - free.value, Live(c, l)))
  {
    hide Live, Scheduled, Absorb;
  }

  /** The refusal a failed reading gets. */
  function GateError(c: Config, used: int, live: int): SampleError {
    if used < 0 then NegativeUsed
    else if used * c.blockSize > live + |c.ids| * c.blockSize + 64 then TooManyBlocks
    else TooFewBlocks
  }

  /**
   The sampler touches the engine only on well-formed arguments, and starts stepping, with
   the clean-up that goes with it, exactly when the engine then takes every request.
   */
  lemma EntersIff<S>(b: Behaviour<S>, c: Config, s: S)
    ensures var run := Sample(b, c, s);
            && (run.entered <==> WellFormed(c, b.totalBlocks) && AddUpTo(b, c, s, |c.ids|).1.Answer?)
            && (!WellFormed(c, b.totalBlocks) ==> run.state == s && run.result.Err?)
            && (WellFormed(c, b.totalBlocks) && !run.entered ==>
                  run.state == AddUpTo(b, c, s, |c.ids|).0 && run.result == Err(EngineRaised))
  {
    hide RunLoop, WellFormed, Validate;
    ValidateIff(c, b.totalBlocks);
    assert WellFormed(c, b.totalBlocks) ==> |c.ids| == |c.promptLens| by {
      FormedNames(c, b.totalBlocks);
    }
  }

  lemma FormedNames(c: Config, totalBlocks: int)
    ensures WellFormed(c, totalBlocks) ==> |c.ids| == |c.promptLens|
  {}

  /** Prefill and decode are set in the same iteration, so the "too staggered" refusal is dead code. */
  lemma NeverTooStaggered<S(!new)>(b: Behaviour<S>, c: Config, s: S)
    ensures Sample(b, c, s).result != Err(TooStaggered)
  {
    if Validate(c, b.totalBlocks).Ok? && AddUpTo(b, c, s, |c.ids|).1.Answer? {
      var s0 := AddUpTo(b, c, s, |c.ids|).0;
      var run := RunLoop(b, c, s0);
      if run.1.Ok? {
        var l, p, d, last := StoppedRun(b, c, s0);
      } else {
        forall s, l | TurnOf(b, c)(s, l).Refuse? ensures !FinalRefusal(TurnOf(b, c)(s, l).error) {
          if Tracks(c, l) {
            IterateErrors(b, c, s, l);
          }
        }
        RunErrors(TurnOf(b, c), s0, StartLoop(c), MaxSteps(c));
      }
    }
  }

  /** The end-of-run refusals. */
  predicate FinalRefusal(e: SampleError) {
    e == TooStaggered || e == PrefillNeverCompleted || e == BlocksFreed
  }

  lemma BeforeStepErrors<S>(b: Behaviour<S>, c: Config, s: S, l: Loop)
    requires Tracks(c, l) && BeforeStep(b, c, s, l).Refuse?
    ensures !FinalRefusal(BeforeStep(b, c, s, l).error)
  {
    var free := b.numFreeBlocks(s);
    var outs := b.step(free.0);
    if outs.1.Answer? {
      AbsorbErrors(l, outs.1.value);
    }
  }

  lemma IterateErrors<S>(b: Behaviour<S>, c: Config, s: S, l: Loop)
    requires Tracks(c, l) && Iterate(b, c, s, l).Refuse?
    ensures !FinalRefusal(Iterate(b, c, s, l).error)
  {
    var t := BeforeStep(b, c, s, l);
    if t.Refuse? {
      BeforeStepErrors(b, c, s, l);
    }
  }

  /** The end-of-run refusals never come out of the loop itself. */
  lemma {:induction false} RunErrors<S(!new)>(f: TurnFunction<S>, s: S, l: Loop, fuel: nat)
    requires forall s, l :: f(s, l).Refuse? ==> !FinalRefusal(f(s, l).error)
    ensures var r := RunTurns(f, s, l, fuel).1; r.Err? ==> !FinalRefusal(r.error)
    decreases fuel
  {
    if fuel > 0 {
      var t := f(s, l);
      if t.Next? {
        RunErrors(f, t.state, t.loop, fuel - 1);
      }
    }
  }

  lemma {:induction false} AbsorbErrors(l: Loop, outs: seq<StepOutput>)
    ensures var r := Absorb(l, outs); r.Ok? || r.error == UnknownRequest || r.error == NegativeTokens
    decreases |outs|
  {
    if outs != [] && outs[0].requestId in l.generated && outs[0].newTokens >= 0 {
      AbsorbErrors(Bump(l, outs[0]), outs[1..]);
    }
  }

  /** A fully started batch holds at least one prompt and one generated token per request. */
  lemma {:induction false} HeldAtLeast<S>(b: Behaviour<S>, c: Config, s: S, k: nat, n: nat, promptLen: int)
    requires n <= |c.ids| == |c.promptLens| && !SomeUnstarted(b, c, s, k)
    requires forall i :: 0 <= i < |c.promptLens| ==> c.promptLens[i] >= promptLen
    ensures Held(b, c, s, k, n) >= n * (promptLen + 1)
  {
    hide Reported;
    if n > 0 {
      HeldAtLeast(b, c, s, k, n - 1, promptLen);
      assert n * (promptLen + 1) == (n - 1) * (promptLen + 1) + (promptLen + 1);
      assert Reported(b, s, c.ids[n - 1], k) >= 1;
    }
  }
}
