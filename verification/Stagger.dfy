/**
 The sampler against a truthful engine whose requests start on arbitrary steps:
 the exact outcome, and the exact readings.
 */
module Stagger {
  import opened Prelude
  import opened Engine
  import opened Sampler
  import opened FakeEngine

  // ---------- the closed form of the engine ----------

  /** Tokens at which a request of this batch finishes: its budget, or an earlier EOS that is not ignored. */
  function Limit(p: Setup, c: Config): nat
    requires c.decodeTokens >= 0
  {
    if c.ignoreEos || p.eosAfter.None? || p.eosAfter.value >= c.decodeTokens then c.decodeTokens else p.eosAfter.value
  }

  /** Tokens generated after `t` steps by a request first scheduled on step `start`. */
  function Gen(start: nat, limit: nat, t: nat): nat {
    if t < start then 0 else Min(t - start + 1, limit)
  }

  ghost predicate DistinctStrings(ids: seq<string>) {
    forall i, j :: 0 <= i < j < |ids| ==> ids[i] != ids[j]
  }

  /** A well-formed call on an engine with nothing running: earlier requests are finished. */
  ghost predicate Ready(p: Setup, c: Config, s: FakeState) {
    && Valid(p, s) && s.steps == 0 && s.added == 0
    && (forall k :: 0 <= k < |s.requests| ==> s.requests[k].finished)
    && WellFormed(c, p.totalBlocks)
    && DistinctStrings(c.ids)
    && (forall k, i :: 0 <= k < |s.requests| && 0 <= i < |c.ids| ==> s.requests[k].id != c.ids[i])
    && (forall i: nat :: i < |c.ids| ==> p.firstStep(i) >= 1)
  }

  /** What `Ready` says of the call alone, apart from the ids. */
  ghost predicate Shape(p: Setup, c: Config) {
    && ValidSetup(p) && c.blockSize == p.blockSize
    && |c.promptLens| == |c.ids| > 0
    && c.decodeTokens >= 1
    && (forall i :: 0 <= i < |c.promptLens| ==> c.promptLens[i] > 0)
    && (forall i: nat :: i < |c.ids| ==> p.firstStep(i) >= 1)
  }

  lemma ShapeNames(p: Setup, c: Config)
    requires Shape(p, c)
    ensures |c.promptLens| == |c.ids| && c.decodeTokens >= 1 && p.blockSize > 0
    ensures forall i :: 0 <= i < |c.promptLens| ==> c.promptLens[i] > 0
  {}

  function RequestAt(p: Setup, c: Config, i: nat, t: nat): FakeRequest
    requires c.decodeTokens >= 1 && i < |c.ids| == |c.promptLens| && c.promptLens[i] >= 0
  {
    var g := Gen(p.firstStep(i), Limit(p, c), t);
    var done := g >= Limit(p, c);
    FakeRequest(c.ids[i], c.promptLens[i], c.decodeTokens, c.ignoreEos, p.firstStep(i), g, done, done)
  }

  ghost function RequestsAt(p: Setup, c: Config, n: nat, t: nat): (rs: seq<FakeRequest>)
    requires Shape(p, c) && n <= |c.ids|
    ensures |rs| == n
  {
    if n == 0 then [] else RequestsAt(p, c, n - 1, t) + [RequestAt(p, c, n - 1, t)]
  }

  ghost function OutputsAt(p: Setup, c: Config, n: nat, t: nat): seq<StepOutput>
    requires Shape(p, c) && n <= |c.ids|
  {
    if n == 0 then []
    else
      var outs := OutputsAt(p, c, n - 1, t);
      if Runs(t + 1, RequestAt(p, c, n - 1, t)) then
        outs + [StepOutput(c.ids[n - 1], 1, RequestAt(p, c, n - 1, t + 1).finished)]
      else outs
  }

  /** The engine `t` steps into the sample. */
  ghost function EngineAt(p: Setup, c: Config, old': seq<FakeRequest>, t: nat): FakeState
    requires Shape(p, c)
  {
    var rs := RequestsAt(p, c, |c.ids|, t);
    FakeState(old' + rs, UsedBy(p, rs), t, |c.ids|)
  }

  lemma StepOneAt(p: Setup, c: Config, i: nat, t: nat)
    requires Shape(p, c) && i < |c.ids|
    ensures StepOne(p, t + 1, RequestAt(p, c, i, t)) == RequestAt(p, c, i, t + 1)
  {}

  lemma NobodyYet(p: Setup, c: Config, old': seq<FakeRequest>, t: nat)
    requires Shape(p, c)
    ensures old' + RequestsAt(p, c, 0, t) == old' && OutputsAt(p, c, 0, t) == []
    ensures UsedBy(p, RequestsAt(p, c, 0, t)) == 0 && Capacity(p, c, 0) == 0
  {}

  lemma OneMoreRequest(p: Setup, c: Config, old': seq<FakeRequest>, n: nat, t: nat)
    requires Shape(p, c) && 0 < n <= |c.ids|
    ensures RequestsAt(p, c, n, t) == RequestsAt(p, c, n - 1, t) + [RequestAt(p, c, n - 1, t)]
    ensures old' + RequestsAt(p, c, n, t) == (old' + RequestsAt(p, c, n - 1, t)) + [RequestAt(p, c, n - 1, t)]
  {
    hide RequestAt;
  }

  lemma OutputsNext(p: Setup, c: Config, n: nat, t: nat)
    requires Shape(p, c) && 0 < n <= |c.ids|
    ensures var r, outs := RequestAt(p, c, n - 1, t), OutputsAt(p, c, n - 1, t);
            OutputsAt(p, c, n, t)
            == if Runs(t + 1, r) then outs + [StepOutput(r.id, 1, RequestAt(p, c, n - 1, t + 1).finished)] else outs
    ensures RequestAt(p, c, n - 1, t + 1).id == RequestAt(p, c, n - 1, t).id
  {}

  lemma StepAllLast(p: Setup, step: nat, front: seq<FakeRequest>, r: FakeRequest)
    ensures var (rs, outs) := StepAll(p, step, front);
            var r' := StepOne(p, step, r);
            StepAll(p, step, front + [r])
            == (rs + [r'], if Runs(step, r) then outs + [StepOutput(r'.id, 1, r'.finished)] else outs)
  {
    hide StepOne;
    assert (front + [r])[..|front|] == front;
  }

  lemma {:induction false} StepAllAt(p: Setup, c: Config, old': seq<FakeRequest>, n: nat, t: nat)
    requires Shape(p, c) && n <= |c.ids|
    requires forall k :: 0 <= k < |old'| ==> old'[k].finished
    ensures StepAll(p, t + 1, old' + RequestsAt(p, c, n, t)) == (old' + RequestsAt(p, c, n, t + 1), OutputsAt(p, c, n, t))
  {
    hide StepAll, RequestsAt, RequestAt, OutputsAt, StepOne, Runs, Shape;
    ShapeNames(p, c);
    if n == 0 {
      NobodyYet(p, c, old', t);
      NobodyYet(p, c, old', t + 1);
      StepAllIdle(p, t + 1, old');
    } else {
      StepAllAt(p, c, old', n - 1, t);
      StepOneAt(p, c, n - 1, t);
      OneMoreRequest(p, c, old', n, t);
      OneMoreRequest(p, c, old', n, t + 1);
      OutputsNext(p, c, n, t);
      StepAllLast(p, t + 1, old' + RequestsAt(p, c, n - 1, t), RequestAt(p, c, n - 1, t));
    }
  }

  lemma {:induction false} StepAllIdle(p: Setup, step: nat, rs: seq<FakeRequest>)
    requires forall k :: 0 <= k < |rs| ==> rs[k].finished
    ensures StepAll(p, step, rs) == (rs, [])
  {
    if rs != [] {
      StepAllIdle(p, step, rs[..|rs| - 1]);
      assert rs == rs[..|rs| - 1] + [rs[|rs| - 1]];
    }
  }

  // ---------- blocks and tokens ----------

  /** Blocks for the whole batch when every request is one token short of finishing. */
  ghost function Capacity(p: Setup, c: Config, n: nat): int
    requires Shape(p, c) && n <= |c.ids|
  {
    if n == 0 then 0
    else Capacity(p, c, n - 1) + CeilDiv(c.promptLens[n - 1] + Limit(p, c) - 1, p.blockSize)
  }

  lemma UsedNext(p: Setup, c: Config, n: nat, t: nat)
    requires Shape(p, c) && 0 < n <= |c.ids|
    ensures UsedBy(p, RequestsAt(p, c, n, t)) == UsedBy(p, RequestsAt(p, c, n - 1, t)) + Blocks(p, RequestAt(p, c, n - 1, t))
  {
    hide RequestAt, Blocks;
    assert RequestsAt(p, c, n, t)[..n - 1] == RequestsAt(p, c, n - 1, t);
  }

  /** A request still holding blocks is at least one token short of finishing. */
  lemma UnfreedIsShort(p: Setup, c: Config, i: nat, t: nat)
    requires Shape(p, c) && i < |c.ids|
    ensures Limit(p, c) >= 1 && c.promptLens[i] > 0
    ensures var r := RequestAt(p, c, i, t);
            !r.freed ==> r.promptLen + r.generated <= c.promptLens[i] + Limit(p, c) - 1
  {}

  lemma CapacityNext(p: Setup, c: Config, n: nat)
    requires Shape(p, c) && 0 < n <= |c.ids|
    ensures Capacity(p, c, n)
         == Capacity(p, c, n - 1) + CeilDiv(c.promptLens[n - 1] + Limit(p, c) - 1, p.blockSize)
  {}

  lemma {:induction false} UsedWithinCapacity(p: Setup, c: Config, n: nat, t: nat)
    requires Shape(p, c) && n <= |c.ids|
    ensures 0 <= UsedBy(p, RequestsAt(p, c, n, t)) <= Capacity(p, c, n)
  {
    hide RequestsAt, RequestAt, UsedBy, Blocks, CeilDiv, Limit, Capacity, Shape;
    ShapeNames(p, c);
    if n == 0 {
      NobodyYet(p, c, [], t);
    } else {
      UnfreedIsShort(p, c, n - 1, t);
      CapacityNext(p, c, n);
      UsedWithinCapacity(p, c, n - 1, t);
      UsedNext(p, c, n, t);
      BlocksWithin(p, RequestAt(p, c, n - 1, t), c.promptLens[n - 1] + Limit(p, c) - 1);
    }
  }

  lemma BlocksWithin(p: Setup, r: FakeRequest, top: nat)
    requires p.blockSize > 0 && (!r.freed ==> r.promptLen + r.generated <= top)
    ensures 0 <= Blocks(p, r) <= CeilDiv(top, p.blockSize)
  {
    CeilDivMonotone(0, top, p.blockSize);
    CeilDivUnique(0, p.blockSize, 0);
    if !r.freed {
      CeilDivMonotone(r.promptLen + r.generated, top, p.blockSize);
    }
  }

  // ---------- the loop's counters follow the engine ----------

  /** The first `n` requests are at step `t + 1`, the others still at `t`. */
  ghost predicate Between(p: Setup, c: Config, l: Loop, n: nat, t: nat)
    requires Shape(p, c) && n <= |c.ids|
  {
    && Tracks(c, l)
    && forall i: nat :: i < |c.ids| ==>
         var g := Gen(p.firstStep(i), Limit(p, c), if i < n then t + 1 else t);
         l.generated[c.ids[i]] == g && (c.ids[i] in l.finished <==> g >= Limit(p, c))
  }

  ghost predicate InStep(p: Setup, c: Config, l: Loop, t: nat)
    requires Shape(p, c)
  {
    Between(p, c, l, 0, t)
  }

  lemma {:induction false} AbsorbSnoc(l: Loop, outs: seq<StepOutput>, o: StepOutput)
    requires Absorb(l, outs).Ok?
    requires o.requestId in Absorb(l, outs).value.generated && o.newTokens >= 0
    ensures Absorb(l, outs + [o]) == Ok(Bump(Absorb(l, outs).value, o))
    decreases |outs|
  {
    if outs == [] {
      assert outs + [o] == [o];
    } else {
      assert (outs + [o])[0] == outs[0] && (outs + [o])[1..] == outs[1..] + [o];
      AbsorbSnoc(Bump(l, outs[0]), outs[1..], o);
    }
  }

  lemma BumpAt(p: Setup, c: Config, l: Loop, n: nat, t: nat)
    requires Shape(p, c) && DistinctStrings(c.ids) && n < |c.ids| && Between(p, c, l, n, t)
    requires Runs(t + 1, RequestAt(p, c, n, t))
    ensures c.ids[n] in l.generated
    ensures var m := Bump(l, StepOutput(c.ids[n], 1, RequestAt(p, c, n, t + 1).finished));
            Between(p, c, m, n + 1, t) && m.prefill == l.prefill && m.decode == l.decode
  {
    hide Gen, Limit, RequestAt, Runs, Shape;
    ShapeNames(p, c);
    RunsOneToken(p, c, n, t);
  }

  lemma RunsOneToken(p: Setup, c: Config, n: nat, t: nat)
    requires Shape(p, c) && n < |c.ids| && Runs(t + 1, RequestAt(p, c, n, t))
    ensures var start, limit := p.firstStep(n), Limit(p, c);
            && Gen(start, limit, t + 1) == Gen(start, limit, t) + 1
            && Gen(start, limit, t) < limit
            && (RequestAt(p, c, n, t + 1).finished <==> Gen(start, limit, t + 1) >= limit)
  {}

  lemma SkipAt(p: Setup, c: Config, l: Loop, n: nat, t: nat)
    requires Shape(p, c) && n < |c.ids| && Between(p, c, l, n, t)
    requires !Runs(t + 1, RequestAt(p, c, n, t))
    ensures Between(p, c, l, n + 1, t)
  {
    assert Gen(p.firstStep(n), Limit(p, c), t) == Gen(p.firstStep(n), Limit(p, c), t + 1);
  }

  /** `m` is the loop after the first `n` requests have been absorbed. */
  ghost predicate Absorbed(p: Setup, c: Config, l: Loop, n: nat, t: nat, m: Loop)
    requires Shape(p, c) && n <= |c.ids|
  {
    && Absorb(l, OutputsAt(p, c, n, t)) == Ok(m)
    && Between(p, c, m, n, t)
    && m.prefill == l.prefill && m.decode == l.decode
  }

  lemma {:induction false} AbsorbAt(p: Setup, c: Config, l: Loop, n: nat, t: nat) returns (m: Loop)
    requires Shape(p, c) && DistinctStrings(c.ids) && n <= |c.ids| && InStep(p, c, l, t)
    ensures Absorbed(p, c, l, n, t, m)
  {
    m := l;
    if n > 0 {
      m := AbsorbAt(p, c, l, n - 1, t);
      m := AbsorbNext(p, c, l, n, t, m);
    }
  }

  lemma AbsorbNext(p: Setup, c: Config, l: Loop, n: nat, t: nat, m: Loop) returns (m': Loop)
    requires Shape(p, c) && DistinctStrings(c.ids) && 0 < n <= |c.ids| && Absorbed(p, c, l, n - 1, t, m)
    ensures Absorbed(p, c, l, n, t, m')
  {
    hide RequestAt, OutputsAt, Gen, Absorb, Bump, Between, Runs, Shape, DistinctStrings;
    ShapeNames(p, c);
    OutputsNext(p, c, n, t);
    IdAt(p, c, n - 1, t);
    if Runs(t + 1, RequestAt(p, c, n - 1, t)) {
      var o := StepOutput(c.ids[n - 1], 1, RequestAt(p, c, n - 1, t + 1).finished);
      BumpAt(p, c, m, n - 1, t);
      AbsorbSnoc(l, OutputsAt(p, c, n - 1, t), o);
      m' := Bump(m, o);
    } else {
      SkipAt(p, c, m, n - 1, t);
      m' := m;
    }
  }

  lemma IdAt(p: Setup, c: Config, i: nat, t: nat)
    requires Shape(p, c) && i < |c.ids|
    ensures RequestAt(p, c, i, t).id == c.ids[i]
  {}

  // ---------- the gate never refuses a truthful engine ----------

  /** Live tokens of the first `n` requests after `t` steps. */
  ghost function TokensAt(p: Setup, c: Config, n: nat, t: nat): nat
    requires Shape(p, c) && n <= |c.ids|
  {
    if n == 0 then 0
    else
      var r := RequestAt(p, c, n - 1, t);
      TokensAt(p, c, n - 1, t) + if r.finished then 0 else r.promptLen + r.generated
  }

  /** Every request has been scheduled by step `t`. */
  ghost predicate AllStarted(p: Setup, c: Config, t: nat) {
    forall i: nat :: i < |c.ids| ==> p.firstStep(i) <= t
  }

  /** What one request of the batch looks like, as the accounting needs it. */
  lemma OneOfBatch(p: Setup, c: Config, i: nat, t: nat)
    requires Shape(p, c) && i < |c.ids|
    ensures var r := RequestAt(p, c, i, t);
            && r.freed == r.finished
            && (!r.freed && r.generated == 0 ==> !AllStarted(p, c, t))
            && r.promptLen + r.generated >= 0
  {
    assert AllStarted(p, c, t) ==> p.firstStep(i) <= t;
  }

  lemma TokensNext(p: Setup, c: Config, n: nat, t: nat)
    requires Shape(p, c) && 0 < n <= |c.ids|
    ensures var r := RequestAt(p, c, n - 1, t);
            TokensAt(p, c, n, t) == TokensAt(p, c, n - 1, t) + if r.finished then 0 else r.promptLen + r.generated
  {
    hide RequestAt;
  }

  lemma {:induction false} SlotsCoverTokens(p: Setup, c: Config, n: nat, t: nat)
    requires Shape(p, c) && n <= |c.ids|
    ensures var slots := UsedBy(p, RequestsAt(p, c, n, t)) * p.blockSize;
            && slots <= TokensAt(p, c, n, t) + n * p.blockSize
            && (AllStarted(p, c, t) ==> TokensAt(p, c, n, t) <= slots)
  {
    if n > 0 {
      SlotsCoverTokens(p, c, n - 1, t);
      SlotsNext(p, c, n, t);
    }
  }

  lemma SlotsNext(p: Setup, c: Config, n: nat, t: nat)
    requires Shape(p, c) && 0 < n <= |c.ids|
    requires var slots := UsedBy(p, RequestsAt(p, c, n - 1, t)) * p.blockSize;
             && slots <= TokensAt(p, c, n - 1, t) + (n - 1) * p.blockSize
             && (AllStarted(p, c, t) ==> TokensAt(p, c, n - 1, t) <= slots)
    ensures var slots := UsedBy(p, RequestsAt(p, c, n, t)) * p.blockSize;
            && slots <= TokensAt(p, c, n, t) + n * p.blockSize
            && (AllStarted(p, c, t) ==> TokensAt(p, c, n, t) <= slots)
  {
    hide RequestsAt, RequestAt, UsedBy, Blocks, TokensAt, CeilDiv, AllStarted, Shape;
    ShapeNames(p, c);
    var r := RequestAt(p, c, n - 1, t);
    OneOfBatch(p, c, n - 1, t);
    TokensNext(p, c, n, t);
    UsedNext(p, c, n, t);
    SlotsOfOne(p, r);
    AddSlots(UsedBy(p, RequestsAt(p, c, n - 1, t)), Blocks(p, r), n, p.blockSize);
  }

  lemma AddSlots(a: int, b: int, n: int, k: int)
    ensures (a + b) * k == a * k + b * k
    ensures n * k == (n - 1) * k + k
  {}

  lemma SlotsOfOne(p: Setup, r: FakeRequest)
    requires p.blockSize > 0
    ensures !r.freed && r.generated >= 1 ==>
              r.promptLen + r.generated <= Blocks(p, r) * p.blockSize <= r.promptLen + r.generated + p.blockSize
    ensures r.freed || r.generated == 0 ==> Blocks(p, r) * p.blockSize == 0
  {
    if !r.freed && r.generated >= 1 {
      var q := CeilDiv(r.promptLen + r.generated, p.blockSize);
      CeilDivMonotone(0, r.promptLen + r.generated, p.blockSize);
      CeilDivUnique(0, p.blockSize, 0);
      assert Blocks(p, r) == q;
    }
  }

  /** What the sampler reads after `t` steps. */
  ghost function ReadingAt(p: Setup, c: Config, t: nat): Reading
    requires Shape(p, c)
  {
    Reading(UsedBy(p, RequestsAt(p, c, |c.ids|, t)), TokensAt(p, c, |c.ids|, t))
  }

  lemma {:induction false} LiveIsTokens(p: Setup, c: Config, l: Loop, n: nat, t: nat)
    requires Shape(p, c) && n <= |c.ids| && InStep(p, c, l, t)
    ensures LiveUpTo(c, l, n) == TokensAt(p, c, n, t)
  {
    if n > 0 {
      LiveIsTokens(p, c, l, n - 1, t);
    }
  }

  lemma ScheduledIsStarted(p: Setup, c: Config, l: Loop, t: nat)
    requires Shape(p, c) && InStep(p, c, l, t)
    ensures Scheduled(c, l) <==> AllStarted(p, c, t)
  {
    assert forall i: nat :: i < |c.ids| ==> (Gen(p.firstStep(i), Limit(p, c), t) >= 1 <==> p.firstStep(i) <= t);
    if Scheduled(c, l) {
      forall i: nat | i < |c.ids| ensures p.firstStep(i) <= t {
        assert c.ids[i] in l.finished || l.generated[c.ids[i]] >= 1;
      }
    }
  }

  lemma GateAt(p: Setup, c: Config, l: Loop, t: nat)
    requires Shape(p, c) && InStep(p, c, l, t)
    ensures CheckBlocks(ReadingAt(p, c, t).used, Live(c, l), |c.ids|, c.blockSize, Scheduled(c, l)).Ok?
    ensures Live(c, l) == ReadingAt(p, c, t).live
  {
    SlotsCoverTokens(p, c, |c.ids|, t);
    LiveIsTokens(p, c, l, |c.ids|, t);
    ScheduledIsStarted(p, c, l, t);
  }
}
