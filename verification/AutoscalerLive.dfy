/** scripts/autoscaler_live.py: the shift experiment's control loop around one co-located pool. */
module AutoscalerLive {
  import opened Prelude
  import opened RealArith
  import opened Pools
  import opened Pid
  import opened Autoscaler
  import opened AutoscalerTheory
  import opened PoolIndependence

  /** One scrape: requests waiting, requests running, and the clock at the tick. */
  datatype Scrape = Scrape(waiting: int, running: int, now: real)

  datatype Record = Record(replicas: int, delta: int, inFlight: int)

  datatype Summary = Summary(records: seq<Record>, flips: nat, drainViolations: nat, replicas: int)

  function LiveSettings(minDwell: real): Settings {
    Settings(1, 8, 1, minDwell, false)
  }

  const LIVE_GAINS := Gains(0.08, 0.01, 0.0)

  function LiveStart(): Loop {
    Loop(Lane(Pid(LIVE_GAINS, -1.0, 1.0, 0.0, None), None), 1)
  }

  function LiveSignals(target: nat, tickS: real, scrapes: seq<Scrape>): (xs: seq<Signal>)
    ensures |xs| == |scrapes|
    ensures tickS > 0.0 ==> Ticking(xs)
  {
    seq(|scrapes|, k requires 0 <= k < |scrapes| =>
      Signal(target, scrapes[k].waiting, scrapes[k].running, tickS, scrapes[k].now))
  }

  function LiveInputs(target: nat, tickS: real, replicas: int, x: Scrape): Inputs {
    Inputs([(COLOCATED, Topology(replicas, target))], map[COLOCATED := x.waiting], map[COLOCATED := x.running], tickS, x.now)
  }

  /** One tick of the one-pool autoscaler is one step of the closed loop. */
  lemma LiveTick<C>(cfg: Settings, ctrl: map<Pool, C>, s: Scaler<C>, target: nat, tickS: real, replicas: int, x: Scrape)
    requires OwnControllers(ctrl, s) && COLOCATED in ctrl && tickS > 0.0
    ensures var (s', out) := Tick(cfg, ctrl, s, LiveInputs(target, tickS, replicas, x));
            var signal := Signal(target, x.waiting, x.running, tickS, x.now);
            && OwnControllers(ctrl, s') && out.Some? && |out.value| == 1
            && (Project(ctrl, s', COLOCATED), out.value[0].1)
               == LaneStep(cfg, Project(ctrl, s, COLOCATED), LoopReading(Loop(Project(ctrl, s, COLOCATED), replicas), signal))
  {
    hide TickUpTo, LaneStep, OwnControllers;
    var inp := LiveInputs(target, tickS, replicas, x);
    assert Position(inp.topology, COLOCATED) == 0;
    TickLanes(cfg, ctrl, s, inp, 1, COLOCATED);
  }

  lemma TickRaises<C>(cfg: Settings, ctrl: map<Pool, C>, s: Scaler<C>, target: nat, tickS: real, replicas: int, x: Scrape)
    requires COLOCATED in ctrl && ctrl[COLOCATED] in s.pids && tickS <= 0.0
    ensures Tick(cfg, ctrl, s, LiveInputs(target, tickS, replicas, x)).1.None?
  {
    var inp := LiveInputs(target, tickS, replicas, x);
    assert TickUpTo(cfg, ctrl, s, inp, 1).1.None?;
  }

  /** The tick and the safety of its decision, as the experiment's loop needs them. */
  lemma LiveLoopStep<C>(cfg: Settings, ctrl: map<Pool, C>, s: Scaler<C>, target: nat, tickS: real, replicas: int, x: Scrape)
    requires OwnControllers(ctrl, s) && COLOCATED in ctrl && tickS > 0.0
    requires ValidSettings(cfg) && SafeLoop(cfg, Loop(Project(ctrl, s, COLOCATED), replicas))
    ensures var (s', out) := Tick(cfg, ctrl, s, LiveInputs(target, tickS, replicas, x));
            var before, signal := Loop(Project(ctrl, s, COLOCATED), replicas), Signal(target, x.waiting, x.running, tickS, x.now);
            && OwnControllers(ctrl, s') && out.Some? && |out.value| == 1
            && (Loop(Project(ctrl, s', COLOCATED), replicas + out.value[0].1.delta), out.value[0].1) == LoopStep(cfg, before, signal)
            && cfg.minReplicas <= replicas + out.value[0].1.delta <= cfg.maxReplicas
            && (out.value[0].1.delta < 0 ==> x.running <= 0)
  {
    LiveTick(cfg, ctrl, s, target, tickS, replicas, x);
    var before, signal := Loop(Project(ctrl, s, COLOCATED), replicas), Signal(target, x.waiting, x.running, tickS, x.now);
    StepSafe(cfg, before.lane, LoopReading(before, signal));
    hide Tick, LaneStep, OwnControllers;
  }

  /** The flips of the closed loop. */
  function LoopFlips(cfg: Settings, s: Loop, xs: seq<Signal>): seq<real>
    requires Ticking(xs)
  {
    FlipTimes(cfg, s.lane, LoopReadings(cfg, s, xs))
  }

  lemma LoopExtends(cfg: Settings, s: Loop, xs: seq<Signal>, i: nat)
    requires Ticking(xs) && i < |xs|
    ensures var (after, d) := LoopStep(cfg, LoopAfter(cfg, s, xs[..i]), xs[i]);
            && LoopAfter(cfg, s, xs[..i + 1]) == after
            && |LoopFlips(cfg, s, xs[..i + 1])| == |LoopFlips(cfg, s, xs[..i])| + if d.delta != 0 then 1 else 0
  {
    hide LaneStep;
    var front, next := xs[..i], xs[..i + 1];
    assert next[..i] == front;
    var rs := LoopReadings(cfg, s, next);
    assert rs[..i] == LoopReadings(cfg, s, front);
    LoopIsLane(cfg, s, front);
    assert LaneDecisions(cfg, s.lane, rs)[..i] == LaneDecisions(cfg, s.lane, LoopReadings(cfg, s, front));
  }

  /** A new scaler with the one controller is at the start of the loop. */
  lemma LiveBegins<C>(minDwell: real, c: C, s: Scaler<C>, xs: seq<Signal>)
    requires minDwell >= 0.0
    requires s == Scaler(map[c := Pid(LIVE_GAINS, -1.0, 1.0, 0.0, None)], map[], 0)
    ensures var ctrl, cfg := map[COLOCATED := c], LiveSettings(minDwell);
            && OwnControllers(ctrl, s) && SafeLoop(cfg, LiveStart()) && Ticking(xs[..0])
            && Loop(Project(ctrl, s, COLOCATED), 1) == LoopAfter(cfg, LiveStart(), xs[..0])
            && LoopFlips(cfg, LiveStart(), xs[..0]) == []
  {
    assert xs[..0] == [];
  }

  lemma LiveTicking(target: nat, tickS: real, scrapes: seq<Scrape>)
    requires tickS > 0.0
    ensures forall i :: 0 <= i <= |scrapes| ==> Ticking(LiveSignals(target, tickS, scrapes)[..i])
  {}

  /** One iteration of the experiment's loop. */
  lemma LiveIteration<C>(cfg: Settings, ctrl: map<Pool, C>, s: Scaler<C>, target: nat, tickS: real, replicas: int,
                         scrapes: seq<Scrape>, i: nat)
    requires OwnControllers(ctrl, s) && COLOCATED in ctrl && tickS > 0.0 && i < |scrapes|
    requires ValidSettings(cfg) && SafeLoop(cfg, LiveStart())
    requires Loop(Project(ctrl, s, COLOCATED), replicas) == LoopAfter(cfg, LiveStart(), LiveSignals(target, tickS, scrapes)[..i])
    ensures var xs := LiveSignals(target, tickS, scrapes);
            var (s', out) := Tick(cfg, ctrl, s, LiveInputs(target, tickS, replicas, scrapes[i]));
            && OwnControllers(ctrl, s') && out.Some? && |out.value| == 1
            && var d := out.value[0].1;
            && Loop(Project(ctrl, s', COLOCATED), replicas + d.delta) == LoopAfter(cfg, LiveStart(), xs[..i + 1])
            && |LoopFlips(cfg, LiveStart(), xs[..i + 1])| == |LoopFlips(cfg, LiveStart(), xs[..i])| + (if d.delta != 0 then 1 else 0)
            && cfg.minReplicas <= replicas + d.delta <= cfg.maxReplicas
            && (d.delta < 0 ==> scrapes[i].running <= 0)
            && Records(cfg, xs, i, Record(replicas + d.delta, d.delta, scrapes[i].running))
  {
    hide Tick, LoopStep, LoopAfter, LoopFlips, Project, LaneStep, SafeLoop, OwnControllers;
    var xs := LiveSignals(target, tickS, scrapes);
    LoopStaysSafe(cfg, LiveStart(), xs[..i]);
    LiveLoopStep(cfg, ctrl, s, target, tickS, replicas, scrapes[i]);
    LoopExtends(cfg, LiveStart(), xs, i);
    assert LoopDecision(cfg, LiveStart(), xs, i) == LoopStep(cfg, LoopAfter(cfg, LiveStart(), xs[..i]), xs[i]).1;
  }

  /** The record of tick `k`: its decision, the count it leads to, and the requests it found running. */
  ghost predicate Records(cfg: Settings, xs: seq<Signal>, k: nat, rec: Record)
    requires Ticking(xs) && k < |xs|
  {
    rec == Record(LoopAfter(cfg, LiveStart(), xs[..k + 1]).replicas, LoopDecision(cfg, LiveStart(), xs, k).delta, xs[k].inFlight)
  }

  /** 0.08 of the error plus 0.01 of error times tick length, clamped to one either way. */
  function FirstOutput(e: real, dt: real): real {
    var u := 0.08 * e + 0.01 * (e * dt);
    if u > 1.0 then 1.0 else if u < -1.0 then -1.0 else u
  }

  lemma FirstOutputIs(e: real, dt: real)
    requires dt > 0.0
    ensures Output(LiveStart().lane.pid, e, dt) == FirstOutput(e, dt)
  {
    LawForm(LiveStart().lane.pid, e, dt);
    hide Unclamped;
  }

  lemma UnitRange(y: real)
    ensures Wanted(-1.0, 1.0, y, 1) == y
  {}

  /** The first decision, in numbers: the first output rounded to nearest, ties to even, with nothing to shrink yet. */
  lemma FirstLiveDecision(minDwell: real, x: Signal) returns (m: int)
    requires minDwell >= 0.0 && x.dt > 0.0
    ensures NearestEven(FirstOutput((x.depth - x.target) as real, x.dt), m)
    ensures LoopStep(LiveSettings(minDwell), LiveStart(), x).1.delta == Max(0, m)
  {
    hide Output, LaneStep, Wanted, FirstOutput;
    var cfg, s := LiveSettings(minDwell), LiveStart();
    m := TickMeaning(cfg, s.lane, LoopReading(s, x));
    FirstOutputIs((x.depth - x.target) as real, x.dt);
    UnitRange(FirstOutput((x.depth - x.target) as real, x.dt));
    FirstOutputSmall((x.depth - x.target) as real, x.dt);
  }

  lemma FirstOutputSmall(e: real, dt: real)
    ensures -1.0 <= FirstOutput(e, dt) <= 1.0
  {}

  // ---------- sustained overload ----------

  /** Every tick finds the queue at least seven above the target. */
  ghost predicate Overloaded(xs: seq<Signal>) {
    forall k :: 0 <= k < |xs| ==> xs[k].depth - xs[k].target >= 7
  }

  /** The experiment's controller with nothing but past overload in its integrator. */
  ghost predicate Pressed(p: Pid) {
    p.gains == LIVE_GAINS && p.outMin == -1.0 && p.outMax == 1.0 && p.integral >= 0.0
  }

  /** Seven over the target is more than half an output, and the integrator only adds to it. */
  lemma PressedOutput(p: Pid, e: real, dt: real)
    requires Pressed(p) && e >= 7.0 && dt > 0.0
    ensures 0.5 < Output(p, e, dt) <= 1.0 && Pressed(Next(p, e, dt))
  {
    LawForm(p, e, dt);
    hide Unclamped;
    ProductSign(e, dt);
    NoSlope(e, p.prevError, dt);
  }

  lemma NoSlope(e: real, last: Option<real>, dt: real)
    requires dt > 0.0
    ensures last.Some? ==> 0.0 * (e - last.value) / dt == 0.0
  {}

  lemma OverloadStep(s: Loop, x: Signal)
    requires Pressed(s.lane.pid) && 1 <= s.replicas <= 8 && x.depth - x.target >= 7 && x.dt > 0.0
    ensures var (s', d) := LoopStep(LiveSettings(0.0), s, x);
            Pressed(s'.lane.pid) && s'.replicas == Min(8, s.replicas + 1)
  {
    hide Output, Next, Wanted, Law;
    var e := (x.depth - x.target) as real;
    var m := TickMeaning(LiveSettings(0.0), s.lane, LoopReading(s, x));
    PressedOutput(s.lane.pid, e, x.dt);
    UnitRange(Output(s.lane.pid, e, x.dt));
    assert m == 1;
  }

  /** Without a dwell time, sustained overload adds a replica at every tick until there are eight. */
  lemma {:induction false} OverloadFills(xs: seq<Signal>)
    requires Ticking(xs) && Overloaded(xs)
    ensures Pressed(LoopAfter(LiveSettings(0.0), LiveStart(), xs).lane.pid)
    ensures LoopAfter(LiveSettings(0.0), LiveStart(), xs).replicas == Min(8, 1 + |xs|)
  {
    hide LoopStep, Pressed;
    if xs == [] {
      assert Pressed(LiveStart().lane.pid) by {
        StartsPressed();
      }
    } else {
      OverloadFills(xs[..|xs| - 1]);
      OverloadStep(LoopAfter(LiveSettings(0.0), LiveStart(), xs[..|xs| - 1]), xs[|xs| - 1]);
    }
  }

  lemma StartsPressed()
    ensures Pressed(LiveStart().lane.pid)
  {}

  /** Every scrape finds at least seven more requests waiting than the target. */
  ghost predicate Piling(target: nat, scrapes: seq<Scrape>) {
    forall k :: 0 <= k < |scrapes| ==> scrapes[k].waiting >= target + 7
  }

  lemma PilingFills(target: nat, tickS: real, scrapes: seq<Scrape>)
    requires tickS > 0.0 && Piling(target, scrapes)
    ensures var xs := LiveSignals(target, tickS, scrapes);
            Ticking(xs) && LoopAfter(LiveSettings(0.0), LiveStart(), xs).replicas == Min(8, 1 + |scrapes|)
  {
    hide LoopAfter;
    OverloadFills(LiveSignals(target, tickS, scrapes));
  }

  /** The loop over scrapes, with the script's own checks; `None` when a constructor or a tick raises. */
  method RunExperiment(minDwell: real, target: nat, tickS: real, scrapes: seq<Scrape>) returns (r: Option<Summary>)
    ensures r.None? <==> minDwell < 0.0 || (tickS <= 0.0 && scrapes != [])
    ensures r.Some? ==>
              && r.value.drainViolations == 0
              && |r.value.records| == |scrapes|
              && forall rec :: rec in r.value.records ==> 1 <= rec.replicas <= 8
    ensures r.Some? && tickS > 0.0 ==>
              var xs := LiveSignals(target, tickS, scrapes);
              && r.value.replicas == LoopAfter(LiveSettings(minDwell), LiveStart(), xs).replicas
              && (forall k :: 0 <= k < |scrapes| ==> Records(LiveSettings(minDwell), xs, k, r.value.records[k]))
              && r.value.flips == |LoopFlips(LiveSettings(minDwell), LiveStart(), xs)|
    ensures r.Some? && tickS > 0.0 && minDwell == 0.0 && Piling(target, scrapes) ==>
              r.value.replicas == Min(8, 1 + |scrapes|)
  {
    hide Tick, LoopStep, LoopAfter, LoopFlips, Project, LaneStep, SafeLoop, OwnControllers, LiveSignals, Ticking,
         LiveStart, Records, Piling;
    if minDwell < 0.0 {
      return None;
    }
    var pid := new PidController(LIVE_GAINS, -1.0, 1.0);
    var cfg := LiveSettings(minDwell);
    var scaler := new PoolAutoscaler(map[COLOCATED := pid], cfg);
    var replicas, flips, drainViolations := 1, 0, 0;
    var records: seq<Record> := [];
    ghost var xs := LiveSignals(target, tickS, scrapes);
    ghost var ctrl := scaler.controllers;
    assert ctrl[COLOCATED] == pid && ctrl.Values == {pid};
    assert scaler.Pids() == map[pid := pid.View()];
    LiveBegins(minDwell, pid, scaler.View(), xs);
    if tickS > 0.0 {
      LiveTicking(target, tickS, scrapes);
    }
    for i := 0 to |scrapes|
      invariant i > 0 ==> tickS > 0.0
      invariant scaler.cfg == cfg && scaler.controllers == ctrl && ctrl == map[COLOCATED := pid]
      invariant OwnControllers(ctrl, scaler.View())
      invariant |records| == i && forall rec :: rec in records ==> 1 <= rec.replicas <= 8
      invariant drainViolations == 0
      invariant Ticking(xs[..i])
      invariant Loop(Project(ctrl, scaler.View(), COLOCATED), replicas) == LoopAfter(cfg, LiveStart(), xs[..i])
      invariant flips == |LoopFlips(cfg, LiveStart(), xs[..i])|
      invariant tickS > 0.0 ==> Ticking(xs) && forall k :: 0 <= k < i ==> Records(cfg, xs, k, records[k])
    {
      var x := scrapes[i];
      ghost var s := scaler.View();
      var decisions := scaler.TickAll(LiveInputs(target, tickS, replicas, x));
      if tickS <= 0.0 {
        TickRaises(cfg, ctrl, s, target, tickS, replicas, x);
      } else {
        LiveIteration(cfg, ctrl, s, target, tickS, replicas, scrapes, i);
      }
      if decisions.None? {
        return None;
      }
      var d := decisions.value[0].1;
      if d.delta < 0 && x.running > 0 {
        drainViolations := drainViolations + 1;
      }
      if d.delta != 0 {
        flips := flips + 1;
        replicas := Max(1, replicas + d.delta);
      }
      records := records + [Record(replicas, d.delta, x.running)];
    }
    assert xs[..|scrapes|] == xs;
    if tickS > 0.0 && minDwell == 0.0 && Piling(target, scrapes) {
      PilingFills(target, tickS, scrapes);
    }
    return Some(Summary(records, flips, drainViolations, replicas));
  }
}
