/** A many-pool autoscaler is a bundle of single-pool ones, when no two pools share a controller object. */
module PoolIndependence {
  import opened Prelude
  import opened RealArith
  import opened Pools
  import opened Pid
  import opened Autoscaler
  import opened AutoscalerTheory

  // ---------- the thrash alarm ----------

  /** Without metrics, or with a dwell time of at least the alarm window, no tick over any pools ever raises the alarm. */
  lemma {:induction false} ThrashStaysZero<C>(cfg: Settings, ctrl: map<Pool, C>, s: Scaler<C>, inp: Inputs, n: nat)
    requires (!cfg.metered || cfg.minDwell >= THRASH_WINDOW_S) && n <= |inp.topology|
    ensures TickUpTo(cfg, ctrl, s, inp, n).0.thrash == s.thrash
    decreases n
  {
    hide WantedDelta, Next;
    if n > 0 {
      ThrashStaysZero(cfg, ctrl, s, inp, n - 1);
    }
  }

  // ---------- projecting a tick on one pool ----------

  /** Distinct controller objects, each with its state. */
  ghost predicate OwnControllers<C>(ctrl: map<Pool, C>, s: Scaler<C>) {
    && (forall p :: p in ctrl ==> ctrl[p] in s.pids)
    && (forall p, q :: p in ctrl && q in ctrl && p != q ==> ctrl[p] != ctrl[q])
  }

  ghost predicate ValidInputs(inp: Inputs) {
    && inp.dt > 0.0
    && forall i, j :: 0 <= i < j < |inp.topology| ==> inp.topology[i].0 != inp.topology[j].0
  }

  function Project<C(==)>(ctrl: map<Pool, C>, s: Scaler<C>, p: Pool): Lane
    requires p in ctrl && ctrl[p] in s.pids
  {
    Lane(s.pids[ctrl[p]], LastFlip(s.lastFlip, p))
  }

  /** The pool's position in the topology; the topology's length when absent. */
  function Position(topology: seq<(Pool, Topology)>, p: Pool): (k: nat)
    ensures k <= |topology|
    ensures k < |topology| ==> topology[k].0 == p
    ensures forall i :: 0 <= i < k ==> topology[i].0 != p
  {
    if topology == [] then 0
    else if topology[0].0 == p then 0
    else
      assert forall i :: 0 < i < |topology| ==> topology[i] == topology[1..][i - 1];
      1 + Position(topology[1..], p)
  }

  function ReadingAt(inp: Inputs, k: nat): Reading
    requires k < |inp.topology|
  {
    var (p, topo) := inp.topology[k];
    Reading(topo, Get(inp.depths, p), Get(inp.inFlight, p), inp.dt, inp.now)
  }

  lemma OnePool<C>(cfg: Settings, ctrl: map<Pool, C>, s: Scaler<C>, inp: Inputs, k: nat, p: Pool)
    requires OwnControllers(ctrl, s) && inp.dt > 0.0 && k < |inp.topology| && p in ctrl
    ensures var (q, topo) := inp.topology[k];
            var (s', d) := TickPool(cfg, ctrl, s, inp, q, topo);
            && OwnControllers(ctrl, s') && d.Some?
            && (q != p ==> Project(ctrl, s', p) == Project(ctrl, s, p))
            && (q == p ==> (Project(ctrl, s', p), d.value) == LaneStep(cfg, Project(ctrl, s, p), ReadingAt(inp, k)))
  {
    hide WantedDelta, Next, Decide, Thrashes;
  }

  lemma {:induction false} TickLanes<C>(cfg: Settings, ctrl: map<Pool, C>, s: Scaler<C>, inp: Inputs, n: nat, p: Pool)
    requires OwnControllers(ctrl, s) && ValidInputs(inp) && n <= |inp.topology| && p in ctrl
    ensures var (s', out) := TickUpTo(cfg, ctrl, s, inp, n);
            var k := Position(inp.topology, p);
            && OwnControllers(ctrl, s') && out.Some? && |out.value| == n
            && (n <= k ==> Project(ctrl, s', p) == Project(ctrl, s, p))
            && (k < n ==> (Project(ctrl, s', p), out.value[k].1) == LaneStep(cfg, Project(ctrl, s, p), ReadingAt(inp, k)))
            && (k < n ==> out.value[k].0 == p)
    decreases n
  {
    hide TickPool, LaneStep, OwnControllers, Project, ReadingAt;
    if n > 0 {
      TickLanes(cfg, ctrl, s, inp, n - 1, p);
      OnePool(cfg, ctrl, TickUpTo(cfg, ctrl, s, inp, n - 1).0, inp, n - 1, p);
    }
  }

  // ---------- runs ----------

  ghost predicate ValidRun(inputs: seq<Inputs>) {
    forall k :: 0 <= k < |inputs| ==> ValidInputs(inputs[k])
  }

  function RunTicks<C(==)>(cfg: Settings, ctrl: map<Pool, C>, s: Scaler<C>, inputs: seq<Inputs>): Scaler<C> {
    if inputs == [] then s
    else Tick(cfg, ctrl, RunTicks(cfg, ctrl, s, inputs[..|inputs| - 1]), inputs[|inputs| - 1]).0
  }

  /** What the run's decision lists say about pool `p`, tick by tick. */
  function DecisionsFor<C(==)>(cfg: Settings, ctrl: map<Pool, C>, s: Scaler<C>, inputs: seq<Inputs>, p: Pool): seq<Decision> {
    if inputs == [] then []
    else
      var front, inp := inputs[..|inputs| - 1], inputs[|inputs| - 1];
      var out := Tick(cfg, ctrl, RunTicks(cfg, ctrl, s, front), inp).1;
      var k := Position(inp.topology, p);
      DecisionsFor(cfg, ctrl, s, front, p) + if out.Some? && k < |out.value| then [out.value[k].1] else []
  }

  /** What the run's inputs say about pool `p`. */
  function ReadingsFor(inputs: seq<Inputs>, p: Pool): (xs: seq<Reading>)
    ensures ValidRun(inputs) ==> Timed(xs)
  {
    if inputs == [] then []
    else
      var front, inp := inputs[..|inputs| - 1], inputs[|inputs| - 1];
      var k := Position(inp.topology, p);
      ReadingsFor(front, p) + if k < |inp.topology| then [ReadingAt(inp, k)] else []
  }

  lemma AppendReading(cfg: Settings, l: Lane, xs: seq<Reading>, x: Reading)
    requires Timed(xs) && x.dt > 0.0
    ensures var step := LaneStep(cfg, LaneAfter(cfg, l, xs), x);
            && Timed(xs + [x]) && LaneAfter(cfg, l, xs + [x]) == step.0
            && LaneDecisions(cfg, l, xs + [x]) == LaneDecisions(cfg, l, xs) + [step.1]
  {
    hide LaneStep;
    assert (xs + [x])[..|xs|] == xs;
  }

  lemma ReadingTime(inp: Inputs, k: nat)
    requires k < |inp.topology|
    ensures ReadingAt(inp, k).dt == inp.dt
  {}

  lemma TickExtendsLane<C>(cfg: Settings, ctrl: map<Pool, C>, s: Scaler<C>, inp: Inputs, p: Pool, l: Lane, xs: seq<Reading>)
    requires OwnControllers(ctrl, s) && ValidInputs(inp) && p in ctrl
    requires Timed(xs) && Project(ctrl, s, p) == LaneAfter(cfg, l, xs)
    ensures var (s', out) := Tick(cfg, ctrl, s, inp);
            var k := Position(inp.topology, p);
            var ys := xs + if k < |inp.topology| then [ReadingAt(inp, k)] else [];
            && OwnControllers(ctrl, s') && out.Some? && Timed(ys)
            && Project(ctrl, s', p) == LaneAfter(cfg, l, ys)
            && LaneDecisions(cfg, l, ys)
               == LaneDecisions(cfg, l, xs) + if k < |out.value| then [out.value[k].1] else []
  {
    hide TickUpTo, LaneStep, Project, LaneAfter, LaneDecisions;
    TickLanes(cfg, ctrl, s, inp, |inp.topology|, p);
    var k := Position(inp.topology, p);
    if k < |inp.topology| {
      ReadingTime(inp, k);
      AppendReading(cfg, l, xs, ReadingAt(inp, k));
    } else {
      assert xs + [] == xs;
    }
  }

  lemma LaneAtStart(cfg: Settings, l: Lane)
    ensures LaneAfter(cfg, l, []) == l && LaneDecisions(cfg, l, []) == []
  {}

  /** Each pool of a many-pool run evolves as its own lane. */
  lemma {:induction false} RunIsLane<C>(cfg: Settings, ctrl: map<Pool, C>, s: Scaler<C>, inputs: seq<Inputs>, p: Pool)
    requires OwnControllers(ctrl, s) && ValidRun(inputs) && p in ctrl
    ensures var s' := RunTicks(cfg, ctrl, s, inputs);
            var xs := ReadingsFor(inputs, p);
            && OwnControllers(ctrl, s')
            && Project(ctrl, s', p) == LaneAfter(cfg, Project(ctrl, s, p), xs)
            && DecisionsFor(cfg, ctrl, s, inputs, p) == LaneDecisions(cfg, Project(ctrl, s, p), xs)
  {
    hide Tick, LaneStep, LaneAfter, LaneDecisions, ReadingAt, Position, Project;
    if inputs == [] {
      LaneAtStart(cfg, Project(ctrl, s, p));
    } else {
      var front, inp := inputs[..|inputs| - 1], inputs[|inputs| - 1];
      RunIsLane(cfg, ctrl, s, front, p);
      TickExtendsLane(cfg, ctrl, RunTicks(cfg, ctrl, s, front), inp, p, Project(ctrl, s, p), ReadingsFor(front, p));
    }
  }

  // ---------- spacing of flips, whoever controls the pools ----------

  /** The decision's flip, against the pool's last one: it is far enough away and becomes the last one. */
  ghost predicate DwellKept(cfg: Settings, last: Option<real>, last': Option<real>, d: Decision, now: real) {
    if d.delta != 0 then last' == Some(now) && (cfg.minDwell > 0.0 && last.Some? ==> now - last.value >= cfg.minDwell)
    else last' == last
  }

  /** One pool's turn, for any controllers: it settles that pool's own last flip and no other's. */
  lemma OneFlip<C>(cfg: Settings, ctrl: map<Pool, C>, s: Scaler<C>, inp: Inputs, k: nat, p: Pool)
    requires inp.dt > 0.0 && k < |inp.topology|
    ensures var (q, topo) := inp.topology[k];
            var (s', d) := TickPool(cfg, ctrl, s, inp, q, topo);
            && d.Some?
            && (q != p ==> LastFlip(s'.lastFlip, p) == LastFlip(s.lastFlip, p))
            && (q == p ==> DwellKept(cfg, LastFlip(s.lastFlip, p), LastFlip(s'.lastFlip, p), d.value, inp.now))
  {
    hide WantedDelta, Next, Thrashes;
  }

  /** The first `n` pools of a tick settle pool `p` once, if it is among them. */
  ghost predicate TickFlips<C>(cfg: Settings, s: Scaler<C>, inp: Inputs, n: nat, p: Pool,
                               after: (Scaler<C>, Option<seq<(Pool, Decision)>>))
  {
    var k := Position(inp.topology, p);
    && after.1.Some? && |after.1.value| == n
    && (n <= k ==> LastFlip(after.0.lastFlip, p) == LastFlip(s.lastFlip, p))
    && (k < n ==> DwellKept(cfg, LastFlip(s.lastFlip, p), LastFlip(after.0.lastFlip, p), after.1.value[k].1, inp.now))
  }

  lemma {:induction false} TickSettles<C>(cfg: Settings, ctrl: map<Pool, C>, s: Scaler<C>, inp: Inputs, n: nat, p: Pool)
    requires ValidInputs(inp) && n <= |inp.topology|
    ensures TickFlips(cfg, s, inp, n, p, TickUpTo(cfg, ctrl, s, inp, n))
    decreases n
  {
    hide TickPool, DwellKept, LastFlip;
    if n > 0 {
      TickSettles(cfg, ctrl, s, inp, n - 1, p);
      OneFlip(cfg, ctrl, TickUpTo(cfg, ctrl, s, inp, n - 1).0, inp, n - 1, p);
    }
  }

  /** Spaced flips whose latest is the one the autoscaler remembers. */
  ghost predicate FlipsRemembered(ts: seq<real>, last: Option<real>, gap: real) {
    (gap > 0.0 ==> Spaced(ts, gap)) && last == if ts == [] then None else Some(ts[|ts| - 1])
  }

  lemma RemembersNothing<C>(s: Scaler<C>, p: Pool, gap: real)
    requires p !in s.lastFlip
    ensures FlipsRemembered(FlipClock([], []), LastFlip(s.lastFlip, p), gap)
  {}

  lemma RememberOne(cfg: Settings, ts: seq<real>, last: Option<real>, last': Option<real>, d: Decision, now: real)
    requires FlipsRemembered(ts, last, cfg.minDwell) && DwellKept(cfg, last, last', d, now)
    ensures FlipsRemembered(ts + if d.delta != 0 then [now] else [], last', cfg.minDwell)
  {
    if d.delta != 0 {
      if cfg.minDwell > 0.0 {
        SpacedSnoc(ts, now, cfg.minDwell);
      }
    } else {
      assert ts + [] == ts;
    }
  }

  lemma FlipClockSnoc(xs: seq<Reading>, ds: seq<Decision>, x: Reading, d: Decision)
    requires |xs| == |ds|
    ensures FlipClock(xs + [x], ds + [d]) == FlipClock(xs, ds) + if d.delta != 0 then [x.now] else []
  {
    assert (xs + [x])[..|xs|] == xs && (ds + [d])[..|ds|] == ds;
  }

  lemma {:induction false} RunRemembers<C>(cfg: Settings, ctrl: map<Pool, C>, s: Scaler<C>, inputs: seq<Inputs>, p: Pool)
    requires ValidRun(inputs) && p !in s.lastFlip
    ensures var xs, ds := ReadingsFor(inputs, p), DecisionsFor(cfg, ctrl, s, inputs, p);
            && |xs| == |ds|
            && FlipsRemembered(FlipClock(xs, ds), LastFlip(RunTicks(cfg, ctrl, s, inputs).lastFlip, p), cfg.minDwell)
  {
    hide Tick, Position, LastFlip, FlipClock, DwellKept, FlipsRemembered;
    if inputs == [] {
      RemembersNothing(s, p, cfg.minDwell);
    } else {
      var front, inp := inputs[..|inputs| - 1], inputs[|inputs| - 1];
      RunRemembers(cfg, ctrl, s, front, p);
      TickRemembers(cfg, ctrl, RunTicks(cfg, ctrl, s, front), inp, p, ReadingsFor(front, p), DecisionsFor(cfg, ctrl, s, front, p));
    }
  }

  lemma TickRemembers<C>(cfg: Settings, ctrl: map<Pool, C>, s: Scaler<C>, inp: Inputs, p: Pool, xs: seq<Reading>, ds: seq<Decision>)
    requires ValidInputs(inp) && |xs| == |ds|
    requires FlipsRemembered(FlipClock(xs, ds), LastFlip(s.lastFlip, p), cfg.minDwell)
    ensures var (s', out) := Tick(cfg, ctrl, s, inp);
            var k := Position(inp.topology, p);
            var xs' := xs + if k < |inp.topology| then [ReadingAt(inp, k)] else [];
            var ds' := ds + if out.Some? && k < |out.value| then [out.value[k].1] else [];
            && |xs'| == |ds'|
            && FlipsRemembered(FlipClock(xs', ds'), LastFlip(s'.lastFlip, p), cfg.minDwell)
  {
    hide TickUpTo, LastFlip, FlipClock, DwellKept, FlipsRemembered;
    TickSettles(cfg, ctrl, s, inp, |inp.topology|, p);
    var (s', out) := Tick(cfg, ctrl, s, inp);
    var k := Position(inp.topology, p);
    if k < |inp.topology| {
      FlipClockSnoc(xs, ds, ReadingAt(inp, k), out.value[k].1);
      RememberOne(cfg, FlipClock(xs, ds), LastFlip(s.lastFlip, p), LastFlip(s'.lastFlip, p), out.value[k].1, inp.now);
    } else {
      assert xs + [] == xs && ds + [] == ds;
    }
  }

  /**
   Over any run of many pools, with their own controllers, shared ones or none, the flips of
   each pool are spaced by the dwell time, and a window of length `len` holds at most
   `len / dwell` (rounded down) plus one of them.
   */
  lemma PoolFlipsSpaced<C>(cfg: Settings, ctrl: map<Pool, C>, s: Scaler<C>, inputs: seq<Inputs>, p: Pool, from: real, len: real)
    requires ValidRun(inputs) && p !in s.lastFlip && cfg.minDwell > 0.0 && len >= 0.0
    ensures var xs, ds := ReadingsFor(inputs, p), DecisionsFor(cfg, ctrl, s, inputs, p);
            && |xs| == |ds|
            && Spaced(FlipClock(xs, ds), cfg.minDwell)
            && |InWindow(FlipClock(xs, ds), from, len)| <= Quot(len, cfg.minDwell).Floor + 1
  {
    RunRemembers(cfg, ctrl, s, inputs, p);
    SpacedInWindow(FlipClock(ReadingsFor(inputs, p), DecisionsFor(cfg, ctrl, s, inputs, p)), cfg.minDwell, from, len);
  }

  // ---------- what the thrash counter counts ----------

  /** Flips that come within the alarm window of the flip before them. */
  function CloseFlips(ts: seq<real>): nat {
    if |ts| <= 1 then 0
    else CloseFlips(ts[..|ts| - 1]) + if ts[|ts| - 1] - ts[|ts| - 2] < 240.0 then 1 else 0
  }

  /** The flips of pool `p` over a run. */
  function PoolFlips<C(==)>(cfg: Settings, ctrl: map<Pool, C>, s: Scaler<C>, inputs: seq<Inputs>, p: Pool): seq<real>
    requires ValidRun(inputs) && p !in s.lastFlip
  {
    RunRemembers(cfg, ctrl, s, inputs, p);
    FlipClock(ReadingsFor(inputs, p), DecisionsFor(cfg, ctrl, s, inputs, p))
  }

  function SumOver(f: Pool -> int): int {
    f(PREFILL) + f(DECODE) + f(COLOCATED) + f(TIER)
  }

  /** Pool `p` flips among the first `n` of a tick, soon after its last flip. */
  ghost predicate FlipsSoon(inp: Inputs, n: nat, p: Pool, last: Option<real>, ds: seq<(Pool, Decision)>) {
    var k := Position(inp.topology, p);
    k < n && k < |ds| && ds[k].1.delta != 0 && last.Some? && inp.now - last.value < 240.0
  }

  ghost function Soon<C>(s: Scaler<C>, inp: Inputs, n: nat, ds: seq<(Pool, Decision)>): Pool -> int {
    p => if FlipsSoon(inp, n, p, LastFlip(s.lastFlip, p), ds) then 1 else 0
  }

  /** One more pool of a tick. */
  lemma SoonNext<C>(s: Scaler<C>, inp: Inputs, n: nat, front: seq<(Pool, Decision)>, e: (Pool, Decision))
    requires ValidInputs(inp) && 0 < n <= |inp.topology| && |front| == n - 1
    ensures var q := inp.topology[n - 1].0;
            SumOver(Soon(s, inp, n, front + [e])) == SumOver(Soon(s, inp, n - 1, front))
              + if e.1.delta != 0 && LastFlip(s.lastFlip, q).Some? && inp.now - LastFlip(s.lastFlip, q).value < 240.0 then 1 else 0
  {
    hide LastFlip, SumOver;
    var q, f, g := inp.topology[n - 1].0, Soon(s, inp, n, front + [e]), Soon(s, inp, n - 1, front);
    assert Position(inp.topology, q) == n - 1;
    forall p: Pool ensures f(p) == g(p) + if p == q then f(q) else 0 {
      assert p != q ==> Position(inp.topology, p) != n - 1;
    }
    OnePoolMore(f, g, q);
  }

  lemma NobodySoon<C>(s: Scaler<C>, inp: Inputs)
    ensures SumOver(Soon(s, inp, 0, [])) == 0
  {}

  /** A pool's last flip is untouched until its own turn. */
  lemma BeforeItsTurn<C>(cfg: Settings, ctrl: map<Pool, C>, s: Scaler<C>, inp: Inputs, k: nat)
    requires ValidInputs(inp) && k < |inp.topology|
    ensures var q := inp.topology[k].0;
            LastFlip(TickUpTo(cfg, ctrl, s, inp, k).0.lastFlip, q) == LastFlip(s.lastFlip, q)
  {
    hide TickUpTo, DwellKept, LastFlip;
    TickSettles(cfg, ctrl, s, inp, k, inp.topology[k].0);
    assert Position(inp.topology, inp.topology[k].0) == k;
  }

  lemma {:induction false} TickThrash<C>(cfg: Settings, ctrl: map<Pool, C>, s: Scaler<C>, inp: Inputs, n: nat)
    requires ValidInputs(inp) && n <= |inp.topology| && cfg.metered
    ensures var (s', out) := TickUpTo(cfg, ctrl, s, inp, n);
            out.Some? && |out.value| == n && s'.thrash == s.thrash + SumOver(Soon(s, inp, n, out.value))
    decreases n
  {
    hide TickPool, LastFlip, Soon, SumOver, Position;
    if n == 0 {
      NobodySoon(s, inp);
    } else {
      TickThrash(cfg, ctrl, s, inp, n - 1);
      BeforeItsTurn(cfg, ctrl, s, inp, n - 1);
      var (s1, front) := TickUpTo(cfg, ctrl, s, inp, n - 1);
      OneThrash(cfg, ctrl, s1, inp, n - 1);
      var (q, topo) := inp.topology[n - 1];
      SoonNext(s, inp, n, front.value, (q, TickPool(cfg, ctrl, s1, inp, q, topo).1.value));
    }
  }

  lemma OnePoolMore(f: Pool -> int, g: Pool -> int, q: Pool)
    requires forall p: Pool :: f(p) == g(p) + if p == q then f(q) else 0
    ensures SumOver(f) == SumOver(g) + f(q)
  {
    assert q == PREFILL || q == DECODE || q == COLOCATED || q == TIER;
    assert f(PREFILL) == g(PREFILL) + if PREFILL == q then f(q) else 0;
    assert f(DECODE) == g(DECODE) + if DECODE == q then f(q) else 0;
    assert f(COLOCATED) == g(COLOCATED) + if COLOCATED == q then f(q) else 0;
    assert f(TIER) == g(TIER) + if TIER == q then f(q) else 0;
  }

  lemma OneThrash<C>(cfg: Settings, ctrl: map<Pool, C>, s: Scaler<C>, inp: Inputs, k: nat)
    requires inp.dt > 0.0 && k < |inp.topology| && cfg.metered
    ensures var (q, topo) := inp.topology[k];
            var (s', d) := TickPool(cfg, ctrl, s, inp, q, topo);
            && d.Some?
            && s'.thrash == s.thrash + if d.value.delta != 0 && LastFlip(s.lastFlip, q).Some?
                                          && inp.now - LastFlip(s.lastFlip, q).value < 240.0 then 1 else 0
  {
    hide WantedDelta, Next, Decide;
  }

  lemma CloseSnoc(ts: seq<real>, t: real)
    ensures CloseFlips(ts + [t]) == CloseFlips(ts) + if ts != [] && t - ts[|ts| - 1] < 240.0 then 1 else 0
  {
    assert (ts + [t])[..|ts|] == ts;
  }

  /** A clock reading more, or not. */
  lemma NextClose(ts: seq<real>, flips: bool, t: real)
    ensures CloseFlips(ts + if flips then [t] else [])
            == CloseFlips(ts) + if flips && ts != [] && t - ts[|ts| - 1] < 240.0 then 1 else 0
  {
    if flips {
      CloseSnoc(ts, t);
    } else {
      assert ts + [] == ts;
    }
  }

  /** One more tick for one pool. */
  lemma PoolTick<C>(cfg: Settings, ctrl: map<Pool, C>, s: Scaler<C>, inputs: seq<Inputs>, p: Pool)
    requires ValidRun(inputs) && p !in s.lastFlip && inputs != []
    ensures var front, inp := inputs[..|inputs| - 1], inputs[|inputs| - 1];
            var s1 := RunTicks(cfg, ctrl, s, front);
            var out := Tick(cfg, ctrl, s1, inp).1;
            && out.Some?
            && CloseFlips(PoolFlips(cfg, ctrl, s, inputs, p))
               == CloseFlips(PoolFlips(cfg, ctrl, s, front, p)) + Soon(s1, inp, |inp.topology|, out.value)(p)
  {
    hide TickUpTo, LastFlip, FlipClock, DwellKept, CloseFlips, Position;
    var front, inp := inputs[..|inputs| - 1], inputs[|inputs| - 1];
    var s1 := RunTicks(cfg, ctrl, s, front);
    var xs, ds := ReadingsFor(front, p), DecisionsFor(cfg, ctrl, s, front, p);
    RunRemembers(cfg, ctrl, s, front, p);
    TickSettles(cfg, ctrl, s1, inp, |inp.topology|, p);
    var out := Tick(cfg, ctrl, s1, inp).1;
    var k := Position(inp.topology, p);
    if k < |inp.topology| {
      FlipClockSnoc(xs, ds, ReadingAt(inp, k), out.value[k].1);
      NextClose(FlipClock(xs, ds), out.value[k].1.delta != 0, inp.now);
    } else {
      assert xs + [] == xs && ds + [] == ds;
    }
  }

  /** Flips soon after the one before them, pool by pool. */
  ghost function CloseFlipsOf<C>(cfg: Settings, ctrl: map<Pool, C>, s: Scaler<C>, inputs: seq<Inputs>): Pool -> int
    requires ValidRun(inputs) && s.lastFlip == map[]
  {
    p => CloseFlips(PoolFlips(cfg, ctrl, s, inputs, p))
  }

  lemma NoneYet<C>(cfg: Settings, ctrl: map<Pool, C>, s: Scaler<C>)
    requires s.lastFlip == map[]
    ensures SumOver(CloseFlipsOf(cfg, ctrl, s, [])) == 0
  {
    forall p: Pool ensures CloseFlipsOf(cfg, ctrl, s, [])(p) == 0 {
      assert PoolFlips(cfg, ctrl, s, [], p) == [];
    }
  }

  lemma SumsAdd(f: Pool -> int, g: Pool -> int, h: Pool -> int)
    requires forall p: Pool :: f(p) == g(p) + h(p)
    ensures SumOver(f) == SumOver(g) + SumOver(h)
  {}

  /**
   The thrash counter, exactly: over any run, with any controllers, it has counted the
   flips that came less than 240 s after the same pool's flip before, over all pools.
   */
  lemma {:induction false} ThrashCounts<C>(cfg: Settings, ctrl: map<Pool, C>, s: Scaler<C>, inputs: seq<Inputs>)
    requires ValidRun(inputs) && s.lastFlip == map[] && cfg.metered
    ensures RunTicks(cfg, ctrl, s, inputs).thrash == s.thrash + SumOver(CloseFlipsOf(cfg, ctrl, s, inputs))
  {
    hide TickUpTo, SumOver, Soon, CloseFlips, PoolFlips;
    if inputs == [] {
      NoneYet(cfg, ctrl, s);
    } else {
      var front, inp := inputs[..|inputs| - 1], inputs[|inputs| - 1];
      var s1 := RunTicks(cfg, ctrl, s, front);
      ThrashCounts(cfg, ctrl, s, front);
      TickThrash(cfg, ctrl, s1, inp, |inp.topology|);
      forall p: Pool
        ensures CloseFlipsOf(cfg, ctrl, s, inputs)(p)
             == CloseFlipsOf(cfg, ctrl, s, front)(p) + Soon(s1, inp, |inp.topology|, Tick(cfg, ctrl, s1, inp).1.value)(p)
      {
        PoolTick(cfg, ctrl, s, inputs, p);
      }
      SumsAdd(CloseFlipsOf(cfg, ctrl, s, inputs), CloseFlipsOf(cfg, ctrl, s, front),
              Soon(s1, inp, |inp.topology|, Tick(cfg, ctrl, s1, inp).1.value));
    }
  }

  // ---------- independence ----------

  /** The same tick for an autoscaler that is told about one pool only. */
  function Only(inp: Inputs, p: Pool): Inputs {
    var k := Position(inp.topology, p);
    inp.(topology := if k < |inp.topology| then [inp.topology[k]] else [])
  }

  function OnlyAll(inputs: seq<Inputs>, p: Pool): seq<Inputs> {
    if inputs == [] then [] else OnlyAll(inputs[..|inputs| - 1], p) + [Only(inputs[|inputs| - 1], p)]
  }

  /** A single-pool autoscaler in the same state as pool `p` of a larger one. */
  function Alone<C(==)>(ctrl: map<Pool, C>, s: Scaler<C>, p: Pool): Scaler<C>
    requires p in ctrl && ctrl[p] in s.pids
  {
    Scaler(map[ctrl[p] := s.pids[ctrl[p]]], if p in s.lastFlip then map[p := s.lastFlip[p]] else map[], 0)
  }

  lemma OnlyReading(inp: Inputs, p: Pool)
    requires ValidInputs(inp)
    ensures var only := Only(inp, p);
            var k, k' := Position(inp.topology, p), Position(only.topology, p);
            && ValidInputs(only)
            && (k' < |only.topology| <==> k < |inp.topology|)
            && (k < |inp.topology| ==> ReadingAt(only, k') == ReadingAt(inp, k))
  {}

  lemma {:induction false} SameReadings(inputs: seq<Inputs>, p: Pool)
    requires ValidRun(inputs)
    ensures ValidRun(OnlyAll(inputs, p)) && ReadingsFor(OnlyAll(inputs, p), p) == ReadingsFor(inputs, p)
  {
    hide Only, Position, ReadingAt, ValidInputs;
    if inputs != [] {
      var front, inp := inputs[..|inputs| - 1], inputs[|inputs| - 1];
      SameReadings(front, p);
      OnlyReading(inp, p);
      var all := OnlyAll(inputs, p);
      assert all[..|all| - 1] == OnlyAll(front, p) && all[|all| - 1] == Only(inp, p);
    }
  }

  /**
   Independence: over any run, a pool gets exactly the decisions of a single-pool autoscaler
   fed that pool's inputs and the same clock readings, whatever happens in the other pools.
   */
  lemma Independence<C>(cfg: Settings, ctrl: map<Pool, C>, s: Scaler<C>, inputs: seq<Inputs>, p: Pool)
    requires OwnControllers(ctrl, s) && ValidRun(inputs) && p in ctrl
    ensures DecisionsFor(cfg, ctrl, s, inputs, p)
            == DecisionsFor(cfg, map[p := ctrl[p]], Alone(ctrl, s, p), OnlyAll(inputs, p), p)
  {
    var ctrl', s' := map[p := ctrl[p]], Alone(ctrl, s, p);
    SameReadings(inputs, p);
    assert OwnControllers(ctrl', s') && Project(ctrl', s', p) == Project(ctrl, s, p);
    RunIsLane(cfg, ctrl, s, inputs, p);
    RunIsLane(cfg, ctrl', s', OnlyAll(inputs, p), p);
  }

  // ---------- a shared controller ----------

  const INTEGRATOR := Pid(Gains(0.0, 1.0, 0.0), -10.0, 10.0, 0.0, None)

  const TWO_POOLS := Inputs([(PREFILL, Topology(50, 0)), (DECODE, Topology(50, 0))],
                            map[PREFILL := 3, DECODE := 2], map[], 1.0, 0.0)

  lemma WholeRange(n: int)
    ensures RawDelta(-10.0, 10.0, n as real, 10) == n
  {
    hide RoundHalfEven;
    var x := n as real;
    DivMul(x + 10.0, 20.0);
    CancelFactor(Quot(x + 10.0, 20.0), 0.05 * x + 0.5, 20.0);
    assert Prod(Prod(0.05 * x + 0.5, 2.0) - 1.0, 10.0) == x;
    RoundOfInt(n);
  }

  const AFTER_PREFILL := INTEGRATOR.(integral := 3.0, prevError := Some(3.0))

  lemma IntegratorSteps()
    ensures Output(INTEGRATOR, 3.0, 1.0) == 3.0 && Next(INTEGRATOR, 3.0, 1.0) == AFTER_PREFILL
    ensures Output(INTEGRATOR, 2.0, 1.0) == 2.0
    ensures Output(AFTER_PREFILL, 2.0, 1.0) == 5.0
  {
    assert Quot(Prod(0.0, -1.0), 1.0) == 0.0;
  }

  /** The moves those outputs make of a pool of fifty. */
  lemma IntegratorMoves(cfg: Settings)
    requires cfg == Settings(0, 100, 10, 0.0, false)
    ensures WantedDelta(cfg, INTEGRATOR, Topology(50, 0), 3, 1.0) == 3
    ensures WantedDelta(cfg, INTEGRATOR, Topology(50, 0), 2, 1.0) == 2
    ensures WantedDelta(cfg, AFTER_PREFILL, Topology(50, 0), 2, 1.0) == 5
  {
    hide RawDelta, Output;
    IntegratorSteps();
    WholeRange(3);
    WholeRange(2);
    WholeRange(5);
  }

  const ROOMY := Settings(0, 100, 10, 0.0, false)

  lemma PrefillFirst(s: Scaler<int>)
    requires s == Scaler(map[0 := INTEGRATOR], map[], 0)
    ensures TickPool(ROOMY, map[PREFILL := 0, DECODE := 0], s, TWO_POOLS, PREFILL, Topology(50, 0))
            == (Scaler(map[0 := AFTER_PREFILL], map[PREFILL := 0.0], 0), Some(Decision(3, QueueHigh, false)))
  {
    hide WantedDelta, Next;
    IntegratorSteps();
    IntegratorMoves(ROOMY);
    assert s.pids[0 := AFTER_PREFILL] == map[0 := AFTER_PREFILL];
  }

  /** The decision for a fifty-replica DECODE pool, from the state of its controller. */
  lemma DecodeDecision(ctrl: map<Pool, int>, s: Scaler<int>, inp: Inputs, delta: int)
    requires DECODE in ctrl && ctrl[DECODE] in s.pids && delta > 0
    requires inp.dt == 1.0 && inp.depths == TWO_POOLS.depths && inp.inFlight == map[]
    requires WantedDelta(ROOMY, s.pids[ctrl[DECODE]], Topology(50, 0), 2, 1.0) == delta
    ensures TickPool(ROOMY, ctrl, s, inp, DECODE, Topology(50, 0)).1 == Some(Decision(delta, QueueHigh, false))
  {
    hide WantedDelta, Next;
  }

  lemma OneTickRun<C>(cfg: Settings, ctrl: map<Pool, C>, s: Scaler<C>, inp: Inputs, p: Pool)
    ensures var out, k := Tick(cfg, ctrl, s, inp).1, Position(inp.topology, p);
            DecisionsFor(cfg, ctrl, s, [inp], p) == if out.Some? && k < |out.value| then [out.value[k].1] else []
  {
    hide Tick;
    assert [inp][..0] == [];
  }

  lemma TickUnfolds<C>(cfg: Settings, ctrl: map<Pool, C>, s: Scaler<C>, inp: Inputs, n: nat,
                       s1: Scaler<C>, front: seq<(Pool, Decision)>)
    requires n < |inp.topology| && TickUpTo(cfg, ctrl, s, inp, n) == (s1, Some(front))
    ensures var (p, topo) := inp.topology[n];
            var (s2, d) := TickPool(cfg, ctrl, s1, inp, p, topo);
            TickUpTo(cfg, ctrl, s, inp, n + 1) == (s2, if d.None? then None else Some(front + [(p, d.value)]))
  {
    hide TickPool;
  }

  lemma FirstEntry(e: (Pool, Decision))
    ensures [] + [e] == [e]
  {}

  lemma SecondEntry(e: (Pool, Decision), f: (Pool, Decision))
    ensures [e] + [f] == [e, f]
  {}

  lemma TickStarts<C>(cfg: Settings, ctrl: map<Pool, C>, s: Scaler<C>, inp: Inputs)
    ensures TickUpTo(cfg, ctrl, s, inp, 0) == (s, Some([]))
  {}

  lemma SharedTick(ctrl: map<Pool, int>, s: Scaler<int>)
    requires ctrl == map[PREFILL := 0, DECODE := 0] && s == Scaler(map[0 := INTEGRATOR], map[], 0)
    ensures Tick(ROOMY, ctrl, s, TWO_POOLS).1
            == Some([(PREFILL, Decision(3, QueueHigh, false)), (DECODE, Decision(5, QueueHigh, false))])
  {
    hide TickPool, TickUpTo, WantedDelta;
    PrefillFirst(s);
    IntegratorMoves(ROOMY);
    var s1 := Scaler(map[0 := AFTER_PREFILL], map[PREFILL := 0.0], 0);
    DecodeDecision(ctrl, s1, TWO_POOLS, 5);
    TickStarts(ROOMY, ctrl, s, TWO_POOLS);
    TickUnfolds(ROOMY, ctrl, s, TWO_POOLS, 0, s, []);
    FirstEntry((PREFILL, Decision(3, QueueHigh, false)));
    TickUnfolds(ROOMY, ctrl, s, TWO_POOLS, 1, s1, [(PREFILL, Decision(3, QueueHigh, false))]);
    SecondEntry((PREFILL, Decision(3, QueueHigh, false)), (DECODE, Decision(5, QueueHigh, false)));
  }

  lemma AloneTick(s: Scaler<int>, inp: Inputs)
    requires s == Scaler(map[0 := INTEGRATOR], map[], 0) && inp == Only(TWO_POOLS, DECODE)
    ensures Tick(ROOMY, map[DECODE := 0], s, inp).1 == Some([(DECODE, Decision(2, QueueHigh, false))])
  {
    hide TickPool, TickUpTo, WantedDelta;
    assert inp.topology == [(DECODE, Topology(50, 0))];
    IntegratorMoves(ROOMY);
    DecodeDecision(map[DECODE := 0], s, inp, 2);
    TickStarts(ROOMY, map[DECODE := 0], s, inp);
    TickUnfolds(ROOMY, map[DECODE := 0], s, inp, 0, s, []);
    FirstEntry((DECODE, Decision(2, QueueHigh, false)));
  }

  /** Two pools on one controller object interact: the second one's move counts the first one's error. */
  lemma SharedControllerInteracts()
    ensures var ctrl, s := map[PREFILL := 0, DECODE := 0], Scaler(map[0 := INTEGRATOR], map[], 0);
            && DecisionsFor(ROOMY, ctrl, s, [TWO_POOLS], DECODE) == [Decision(5, QueueHigh, false)]
            && DecisionsFor(ROOMY, map[DECODE := 0], Alone(ctrl, s, DECODE), OnlyAll([TWO_POOLS], DECODE), DECODE)
               == [Decision(2, QueueHigh, false)]
  {
    hide Tick;
    var ctrl, s := map[PREFILL := 0, DECODE := 0], Scaler(map[0 := INTEGRATOR], map[], 0);
    SharedTick(ctrl, s);
    OneTickRun(ROOMY, ctrl, s, TWO_POOLS, DECODE);
    var only := Only(TWO_POOLS, DECODE);
    assert Position(TWO_POOLS.topology, DECODE) == 1;
    assert Position(only.topology, DECODE) == 0;
    assert OnlyAll([TWO_POOLS], DECODE) == [only] by {
      assert [TWO_POOLS][..0] == [];
    }
    assert Alone(ctrl, s, DECODE) == s;
    AloneTick(s, only);
    OneTickRun(ROOMY, map[DECODE := 0], s, only, DECODE);
  }
}
