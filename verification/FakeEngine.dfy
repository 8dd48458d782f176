/**
 The CPU engine stand-in of bench/kv_scaling/measure.py (`FakeBlockPool`,
 `FakeEngineDriver`), generalised as its test subclasses generalise it: the k-th
 request of a sample is first scheduled on step `firstStep(k)`.  The plain driver
 is the case where every request starts on step 1.
 */
module FakeEngine {
  import opened Prelude
  import opened Engine

  datatype FakeRequest = FakeRequest(
    id: string,
    promptLen: nat,
    maxTokens: nat,
    ignoreEos: bool,
    firstStep: nat,
    generated: nat,
    finished: bool,
    freed: bool)

  datatype Setup = Setup(totalBlocks: nat, blockSize: nat, eosAfter: Option<nat>, firstStep: nat -> nat)

  /** The constructor's checks. */
  ghost predicate ValidSetup(p: Setup) {
    p.totalBlocks > 0 && p.blockSize > 0 && (p.eosAfter.Some? ==> p.eosAfter.value >= 1)
  }

  /** `steps` and `added` count since the last `end_sample`; `used` is the pool's counter. */
  datatype FakeState = FakeState(requests: seq<FakeRequest>, used: nat, steps: nat, added: nat)

  // ---------- the engine as functions of its state ----------

  function Blocks(p: Setup, r: FakeRequest): nat
    requires p.blockSize > 0
  {
    if !r.freed && r.generated >= 1 then
      var c := CeilDiv(r.promptLen + r.generated, p.blockSize);
      if c >= 0 then c else 0
    else 0
  }

  function UsedBy(p: Setup, rs: seq<FakeRequest>): nat
    requires p.blockSize > 0
  {
    if rs == [] then 0 else UsedBy(p, rs[..|rs| - 1]) + Blocks(p, rs[|rs| - 1])
  }

  /** `_sync_pool`: the requests have already changed when the pool refuses. */
  function Sync(p: Setup, s: FakeState): (FakeState, Reply<()>)
    requires p.blockSize > 0
  {
    var used := UsedBy(p, s.requests);
    if used > p.totalBlocks then (s, Raised) else (s.(used := used), Answer(()))
  }

  function Added(p: Setup, s: FakeState, q: Request): (FakeState, Reply<()>)
    requires p.blockSize > 0
  {
    if (exists i :: 0 <= i < |s.requests| && s.requests[i].id == q.id) || q.maxTokens < 1 || q.promptLen <= 0 then
      (s, Raised)
    else
      var r := FakeRequest(q.id, q.promptLen, q.maxTokens, q.ignoreEos, p.firstStep(s.added), 0, false, false);
      Sync(p, s.(requests := s.requests + [r], added := s.added + 1))
  }

  function FinishAfter(p: Setup, maxTokens: nat, ignoreEos: bool): nat {
    if p.eosAfter.Some? && !ignoreEos then Min(maxTokens, p.eosAfter.value) else maxTokens
  }

  predicate Runs(step: nat, r: FakeRequest) {
    !r.finished && r.firstStep <= step
  }

  function StepOne(p: Setup, step: nat, r: FakeRequest): FakeRequest {
    if !Runs(step, r) then r
    else
      var g := r.generated + 1;
      var done := g >= FinishAfter(p, r.maxTokens, r.ignoreEos);
      r.(generated := g, finished := done, freed := r.freed || done)
  }

  function StepAll(p: Setup, step: nat, rs: seq<FakeRequest>): (o: (seq<FakeRequest>, seq<StepOutput>))
    ensures |o.0| == |rs|
  {
    if rs == [] then ([], [])
    else
      var k := |rs| - 1;
      var (front, outs) := StepAll(p, step, rs[..k]);
      var r := StepOne(p, step, rs[k]);
      (front + [r], if Runs(step, rs[k]) then outs + [StepOutput(r.id, 1, r.finished)] else outs)
  }

  function Stepped(p: Setup, s: FakeState): (FakeState, Reply<seq<StepOutput>>)
    requires p.blockSize > 0
  {
    var (rs, outs) := StepAll(p, s.steps + 1, s.requests);
    var (s', ok) := Sync(p, s.(requests := rs, steps := s.steps + 1));
    (s', if ok.Raised? then Raised else Answer(outs))
  }

  function FreeAll(rs: seq<FakeRequest>): (o: seq<FakeRequest>)
    ensures |o| == |rs|
  {
    if rs == [] then [] else FreeAll(rs[..|rs| - 1]) + [rs[|rs| - 1].(freed := true)]
  }

  function Ended(p: Setup, s: FakeState): (FakeState, Reply<()>)
    requires p.blockSize > 0
  {
    Sync(p, s.(requests := FreeAll(s.requests), steps := 0, added := 0))
  }

  function Unfinished(rs: seq<FakeRequest>): nat {
    if rs == [] then 0
    else Unfinished(rs[..|rs| - 1]) + if rs[|rs| - 1].finished then 0 else 1
  }

  /** Positions of the requests still running. */
  ghost function Open(rs: seq<FakeRequest>): set<int> {
    set i | 0 <= i < |rs| && !rs[i].finished
  }

  lemma {:induction false} UnfinishedMeaning(rs: seq<FakeRequest>)
    ensures Unfinished(rs) == |Open(rs)|
  {
    if rs != [] {
      var k := |rs| - 1;
      UnfinishedMeaning(rs[..k]);
      assert Open(rs) == Open(rs[..k]) + if rs[k].finished then {} else {k};
    }
  }

  function FakeBehaviour(p: Setup): Behaviour<FakeState>
    requires p.blockSize > 0
  {
    Behaviour(
      p.totalBlocks,
      (s: FakeState, q: Request) => Added(p, s, q),
      (s: FakeState) => (s, Answer(p.totalBlocks - s.used)),
      (s: FakeState) => Stepped(p, s),
      (s: FakeState) => (s, Answer(Unfinished(s.requests) as int)),
      (s: FakeState) => Ended(p, s))
  }

  // ---------- what every operation keeps ----------

  ghost predicate DistinctIds(rs: seq<FakeRequest>) {
    forall i, j :: 0 <= i < j < |rs| ==> rs[i].id != rs[j].id
  }

  /** A request's flags agree with its counter; only finished requests are freed mid-sample. */
  ghost predicate Coherent(p: Setup, r: FakeRequest) {
    && r.promptLen > 0 && r.maxTokens > 0
    && r.generated <= FinishAfter(p, r.maxTokens, r.ignoreEos)
    && (r.finished <==> r.generated == FinishAfter(p, r.maxTokens, r.ignoreEos))
    && (r.finished ==> r.freed)
  }

  /** What holds of the request table in every state, also after a step that the pool refused. */
  ghost predicate Sound(p: Setup, s: FakeState) {
    && ValidSetup(p)
    && DistinctIds(s.requests)
    && forall i :: 0 <= i < |s.requests| ==> Coherent(p, s.requests[i])
  }

  /** The accounting invariant: the pool counter is the sum over scheduled unfreed requests. */
  ghost predicate Valid(p: Setup, s: FakeState) {
    Sound(p, s) && s.used == UsedBy(p, s.requests) <= p.totalBlocks
  }

  lemma {:induction false} UsedByConcat(p: Setup, a: seq<FakeRequest>, b: seq<FakeRequest>)
    requires p.blockSize > 0
    ensures UsedBy(p, a + b) == UsedBy(p, a) + UsedBy(p, b)
  {
    if b == [] {
      assert a + b == a;
    } else {
      var k := |b| - 1;
      UsedByConcat(p, a, b[..k]);
      assert (a + b)[..|a| + k] == a + b[..k];
    }
  }

  lemma {:induction false} FreedHoldNothing(p: Setup, rs: seq<FakeRequest>)
    requires p.blockSize > 0 && forall i :: 0 <= i < |rs| ==> rs[i].freed
    ensures UsedBy(p, rs) == 0
  {
    if rs != [] {
      FreedHoldNothing(p, rs[..|rs| - 1]);
    }
  }

  lemma {:induction false} StepAllPointwise(p: Setup, step: nat, rs: seq<FakeRequest>)
    ensures forall i :: 0 <= i < |rs| ==> StepAll(p, step, rs).0[i] == StepOne(p, step, rs[i])
  {
    if rs != [] {
      StepAllPointwise(p, step, rs[..|rs| - 1]);
    }
  }

  lemma {:induction false} FreeAllPointwise(rs: seq<FakeRequest>)
    ensures forall i :: 0 <= i < |rs| ==> FreeAll(rs)[i] == rs[i].(freed := true)
  {
    if rs != [] {
      FreeAllPointwise(rs[..|rs| - 1]);
    }
  }

  /** Adding never overflows the pool, and raises exactly on the three argument checks. */
  lemma AddKeeps(p: Setup, s: FakeState, q: Request)
    requires Valid(p, s)
    ensures var (s', r) := Added(p, s, q);
            && Valid(p, s')
            && (r.Raised? <==> (exists i :: 0 <= i < |s.requests| && s.requests[i].id == q.id) || q.maxTokens < 1 || q.promptLen <= 0)
            && (r.Raised? ==> s' == s)
            && s'.used == s.used
  {
    hide UsedBy, Coherent, DistinctIds;
    if !((exists i :: 0 <= i < |s.requests| && s.requests[i].id == q.id) || q.maxTokens < 1 || q.promptLen <= 0) {
      var n := FakeRequest(q.id, q.promptLen, q.maxTokens, q.ignoreEos, p.firstStep(s.added), 0, false, false);
      UsedByConcat(p, s.requests, [n]);
      NewHoldsNothing(p, n);
      NewIsCoherent(p, s.requests, n);
    }
  }

  lemma NewHoldsNothing(p: Setup, n: FakeRequest)
    requires p.blockSize > 0 && n.generated == 0
    ensures UsedBy(p, [n]) == 0
  {
    assert [n][..0] == [];
  }

  lemma NewIsCoherent(p: Setup, rs: seq<FakeRequest>, n: FakeRequest)
    requires ValidSetup(p) && n.promptLen > 0 && n.maxTokens > 0 && n.generated == 0 && !n.finished && !n.freed
    requires DistinctIds(rs) && forall i :: 0 <= i < |rs| ==> Coherent(p, rs[i]) && rs[i].id != n.id
    ensures DistinctIds(rs + [n]) && forall i :: 0 <= i < |rs + [n]| ==> Coherent(p, (rs + [n])[i])
  {}

  lemma StepOneKeeps(p: Setup, step: nat, r: FakeRequest)
    requires Coherent(p, r)
    ensures Coherent(p, StepOne(p, step, r)) && StepOne(p, step, r).id == r.id
  {}

  lemma StepTable(p: Setup, step: nat, rs: seq<FakeRequest>)
    requires DistinctIds(rs) && forall i :: 0 <= i < |rs| ==> Coherent(p, rs[i])
    ensures var rs' := StepAll(p, step, rs).0;
            DistinctIds(rs') && forall i :: 0 <= i < |rs'| ==> Coherent(p, rs'[i])
  {
    hide Coherent, StepOne, StepAll;
    StepAllPointwise(p, step, rs);
    var rs' := StepAll(p, step, rs).0;
    forall i | 0 <= i < |rs| ensures Coherent(p, rs'[i]) && rs'[i].id == rs[i].id {
      StepOneKeeps(p, step, rs[i]);
    }
  }

  lemma SoundSetup(p: Setup, s: FakeState)
    requires Sound(p, s)
    ensures ValidSetup(p)
  {}

  /** A step keeps the accounting unless the pool overflows, and raises only then; the table stays sound even so. */
  lemma StepKeeps(p: Setup, s: FakeState)
    requires Sound(p, s)
    ensures var (s', r) := Stepped(p, s);
            && (r.Raised? <==> UsedBy(p, StepAll(p, s.steps + 1, s.requests).0) > p.totalBlocks)
            && (r.Answer? ==> Valid(p, s'))
            && Sound(p, s')
            && (r.Raised? ==> s'.used == s.used)
  {
    hide StepAll, Coherent, UsedBy, DistinctIds;
    StepTable(p, s.steps + 1, s.requests);
  }

  /** Ending a sample empties the pool, never raises and restores the accounting, whatever state the sample left. */
  lemma EndKeeps(p: Setup, s: FakeState)
    requires Sound(p, s)
    ensures var (s', r) := Ended(p, s);
            && r.Answer? && s'.used == 0 && Valid(p, s')
            && forall i :: 0 <= i < |s'.requests| ==> s'.requests[i].freed
  {
    FreeAllPointwise(s.requests);
    FreedHoldNothing(p, FreeAll(s.requests));
  }

  // ---------- the imperative driver ----------

  lemma StepAllSnoc(p: Setup, step: nat, rs: seq<FakeRequest>, i: nat)
    requires i < |rs|
    ensures var (front, outs) := StepAll(p, step, rs[..i]);
            var r := StepOne(p, step, rs[i]);
            var more := if Runs(step, rs[i]) then outs + [StepOutput(r.id, 1, r.finished)] else outs;
            StepAll(p, step, rs[..i + 1]) == (front + [r], more)
  {
    assert rs[..i + 1][..i] == rs[..i];
  }

  /** Overwriting the first unprocessed slot of a table. */
  lemma ReplaceNext(done: seq<FakeRequest>, all: seq<FakeRequest>, i: nat, r: FakeRequest)
    requires |done| == i < |all|
    ensures (done + all[i..])[i := r] == (done + [r]) + all[i + 1..]
  {}

  lemma AllReplaced(done: seq<FakeRequest>, all: seq<FakeRequest>)
    ensures done + all[|all|..] == done && all[..|all|] == all
  {}

  class FakeEngineDriver {
    const setup: Setup
    var requests: seq<FakeRequest>
    var usedBlocks: nat
    var steps: nat
    var added: nat

    ghost function View(): FakeState
      reads this
    {
      FakeState(requests, usedBlocks, steps, added)
    }

    constructor (setup: Setup)
      requires ValidSetup(setup)
      ensures this.setup == setup && View() == FakeState([], 0, 0, 0) && Valid(setup, View())
    {
      this.setup := setup;
      requests, usedBlocks, steps, added := [], 0, 0, 0;
    }

    method SyncPool() returns (ok: bool)
      requires setup.blockSize > 0
      modifies this`usedBlocks
      ensures (View(), if ok then Answer(()) else Raised) == Sync(setup, old(View()))
    {
      var used: nat := 0;
      for i := 0 to |requests|
        invariant used == UsedBy(setup, requests[..i])
      {
        assert requests[..i + 1][..i] == requests[..i];
        used := used + Blocks(setup, requests[i]);
      }
      assert requests[..|requests|] == requests;
      if used > setup.totalBlocks {
        return false;
      }
      usedBlocks := used;
      return true;
    }

    method NumFreeBlocks() returns (n: int)
      ensures n == setup.totalBlocks - usedBlocks
    {
      n := setup.totalBlocks - usedBlocks;
    }

    method AddRequest(q: Request) returns (ok: bool)
      requires Valid(setup, View())
      modifies this
      ensures (View(), if ok then Answer(()) else Raised) == Added(setup, old(View()), q)
      ensures Valid(setup, View())
    {
      AddKeeps(setup, View(), q);
      if exists i :: 0 <= i < |requests| && requests[i].id == q.id {
        return false;
      }
      if q.maxTokens < 1 || q.promptLen <= 0 {
        return false;
      }
      var r := FakeRequest(q.id, q.promptLen, q.maxTokens, q.ignoreEos, setup.firstStep(added), 0, false, false);
      requests := requests + [r];
      added := added + 1;
      ok := SyncPool();
    }

    /** The loop of `step` over the request table. */
    method StepRequests() returns (outs: seq<StepOutput>)
      modifies this`requests
      ensures (requests, outs) == StepAll(setup, steps, old(requests))
    {
      outs := [];
      ghost var before, front := requests, [];
      for i := 0 to |requests|
        invariant |requests| == |before| && |front| == i
        invariant (front, outs) == StepAll(setup, steps, before[..i])
        invariant requests == front + before[i..]
      {
        StepAllSnoc(setup, steps, before, i);
        var req := requests[i];
        if !req.finished && req.firstStep <= steps {
          var g := req.generated + 1;
          req := req.(generated := g);
          if g >= FinishAfter(setup, req.maxTokens, req.ignoreEos) {
            req := req.(finished := true, freed := true);
          }
          outs := outs + [StepOutput(req.id, 1, req.finished)];
        }
        assert req == StepOne(setup, steps, before[i]);
        ReplaceNext(front, before, i, req);
        requests, front := requests[i := req], front + [req];
      }
      AllReplaced(front, before);
    }

    method Step() returns (r: Reply<seq<StepOutput>>)
      requires Sound(setup, View())
      modifies this
      ensures (View(), r) == Stepped(setup, old(View()))
      ensures Sound(setup, View()) && (r.Answer? ==> Valid(setup, View()))
    {
      hide Sound, Valid, UsedBy, StepAll;
      SoundSetup(setup, View());
      StepKeeps(setup, View());
      steps := steps + 1;
      var outs := StepRequests();
      var ok := SyncPool();
      r := if ok then Answer(outs) else Raised;
    }

    method NumUnfinished() returns (n: nat)
      ensures n == Unfinished(requests) == |Open(requests)|
    {
      UnfinishedMeaning(requests);
      n := 0;
      for i := 0 to |requests|
        invariant n == Unfinished(requests[..i])
      {
        assert requests[..i + 1][..i] == requests[..i];
        if !requests[i].finished {
          n := n + 1;
        }
      }
      assert requests[..|requests|] == requests;
    }

    method FreeRequests()
      modifies this`requests
      ensures requests == FreeAll(old(requests))
    {
      ghost var before, front := requests, [];
      for i := 0 to |requests|
        invariant |requests| == |before| && |front| == i
        invariant front == FreeAll(before[..i])
        invariant requests == front + before[i..]
      {
        assert before[..i + 1][..i] == before[..i];
        var req := requests[i].(freed := true);
        ReplaceNext(front, before, i, req);
        requests, front := requests[i := req], front + [req];
      }
      AllReplaced(front, before);
    }

    method EndSample() returns (ok: bool)
      requires Sound(setup, View())
      modifies this
      ensures (View(), if ok then Answer(()) else Raised) == Ended(setup, old(View()))
      ensures ok && usedBlocks == 0 && Valid(setup, View())
    {
      EndKeeps(setup, View());
      FreeRequests();
      steps, added := 0, 0;
      ok := SyncPool();
    }
  }
}
