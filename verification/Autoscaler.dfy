/** control/autoscaler.py: one PID per pool, integer steps, bounds, drain and dwell. */
module Autoscaler {
  import opened Prelude
  import opened RealArith
  import opened Pools
  import opened Pid

  const THRASH_WINDOW_S := 240.0

  /** The constructor's settings; `metered` says whether a metrics handle was given. */
  datatype Settings = Settings(minReplicas: int, maxReplicas: int, step: int, minDwell: real, metered: bool)

  ghost predicate ValidSettings(cfg: Settings) {
    0 <= cfg.minReplicas <= cfg.maxReplicas && cfg.step >= 1 && cfg.minDwell >= 0.0
  }

  datatype Topology = Topology(replicas: int, targetDepth: int)

  datatype Reason = NoController | DrainWait | DwellWait | QueueHigh | QueueLow | Stable

  datatype Decision = Decision(delta: int, reason: Reason, drained: bool)

  // ---------- rounding ----------

  /** Python's `round`: to nearest, ties to even. */
  function RoundHalfEven(x: real): int {
    var f := x.Floor;
    var d := x - f as real;
    if d < 0.5 then f
    else if d > 0.5 then f + 1
    else if f % 2 == 0 then f
    else f + 1
  }

  lemma RoundMonotone(x: real, y: real)
    requires x <= y
    ensures RoundHalfEven(x) <= RoundHalfEven(y)
  {}

  /** `n` is nearest to `x`, and even when `x` lies halfway between two integers. */
  ghost predicate NearestEven(x: real, n: int) {
    && x - 0.5 <= n as real <= x + 0.5
    && (n as real == x - 0.5 || n as real == x + 0.5 ==> n % 2 == 0)
  }

  /** There is exactly one such integer, and rounding gives it. */
  lemma RoundIsNearest(x: real, n: int)
    ensures n == RoundHalfEven(x) <==> NearestEven(x, n)
  {
    assert NearestEven(x, RoundHalfEven(x));
  }

  lemma RoundOfInt(n: int)
    ensures RoundHalfEven(n as real) == n
  {}

  // ---------- one pool, one tick ----------

  /** Normalised to [-1, 1] and scaled by the step size; an empty span gives no move. */
  function RawDelta(lo: real, hi: real, raw: real, step: int): int {
    var span := hi - lo;
    if span <= 0.0 then 0
    else RoundHalfEven(Prod(Prod(Quot(raw - lo, span), 2.0) - 1.0, step as real))
  }

  /** Floor and ceiling; both tests look at the unclamped target. */
  function Bounded(cfg: Settings, replicas: int, delta: int): int {
    var wouldBe := replicas + delta;
    var d := if wouldBe > cfg.maxReplicas then cfg.maxReplicas - replicas else delta;
    if wouldBe < cfg.minReplicas then cfg.minReplicas - replicas else d
  }

  function WantedDelta(cfg: Settings, p: Pid, topo: Topology, depth: int, dt: real): int
    requires dt > 0.0
  {
    var raw := Output(p, (depth - topo.targetDepth) as real, dt);
    Bounded(cfg, topo.replicas, RawDelta(p.outMin, p.outMax, raw, cfg.step))
  }

  /** The output's position in its range, from -1 to 1, times the step. */
  function Wanted(lo: real, hi: real, raw: real, step: int): real
    requires lo < hi
  {
    (2.0 * (raw - lo) / (hi - lo) - 1.0) * (step as real)
  }

  /** Before floor and ceiling the move is the integer nearest to the scaled output, ties to even. */
  lemma MoveIsNearest(lo: real, hi: real, raw: real, step: int)
    requires lo < hi
    ensures NearestEven(Wanted(lo, hi, raw, step), RawDelta(lo, hi, raw, step))
  {
    var q := Quot(raw - lo, hi - lo);
    DoubledShare(raw - lo, hi - lo);
    assert Prod(Prod(q, 2.0) - 1.0, step as real) == Wanted(lo, hi, raw, step);
    RoundIsNearest(Wanted(lo, hi, raw, step), RawDelta(lo, hi, raw, step));
  }

  lemma DoubledShare(x: real, span: real)
    requires span > 0.0
    ensures Prod(Quot(x, span), 2.0) == 2.0 * x / span
  {}

  /** Floor and ceiling take the replica count to the allowed one nearest to the target. */
  lemma BoundedIsClamp(cfg: Settings, replicas: int, delta: int)
    requires cfg.minReplicas <= cfg.maxReplicas
    ensures replicas + Bounded(cfg, replicas, delta) == Max(cfg.minReplicas, Min(replicas + delta, cfg.maxReplicas))
  {}

  predicate DwellBlocks(cfg: Settings, last: Option<real>, now: real) {
    cfg.minDwell > 0.0 && last.Some? && now - last.value < cfg.minDwell
  }

  /** The decision on a wanted move: drain first, then dwell. */
  function Decide(cfg: Settings, last: Option<real>, delta: int, inFlight: int, now: real): Decision {
    if delta < 0 && inFlight > 0 then Decision(0, DrainWait, false)
    else if delta != 0 && DwellBlocks(cfg, last, now) then Decision(0, DwellWait, false)
    else Decision(delta, if delta > 0 then QueueHigh else if delta < 0 then QueueLow else Stable, delta < 0)
  }

  /** A flip restarts the dwell window and, when metered, counts as thrash inside the thrash window. */
  function Thrashes(cfg: Settings, last: Option<real>, d: Decision, now: real): nat {
    if d.delta != 0 && cfg.metered && last.Some? && now - last.value < THRASH_WINDOW_S then 1 else 0
  }

  // ---------- a tick over all pools ----------

  /** `pids` holds one state per controller object; two pools may share an object. */
  datatype Scaler<!C(==)> = Scaler(pids: map<C, Pid>, lastFlip: map<Pool, real>, thrash: nat)

  datatype Inputs = Inputs(
    topology: seq<(Pool, Topology)>,
    depths: map<Pool, int>,
    inFlight: map<Pool, int>,
    dt: real,
    now: real)

  function Get(m: map<Pool, int>, p: Pool): int {
    if p in m then m[p] else 0
  }

  function LastFlip(m: map<Pool, real>, p: Pool): Option<real> {
    if p in m then Some(m[p]) else None
  }

  /** One pool of the tick's loop; `None` when the controller refused `dt`. */
  function TickPool<C(==)>(cfg: Settings, ctrl: map<Pool, C>, s: Scaler<C>, inp: Inputs, p: Pool, topo: Topology)
    : (Scaler<C>, Option<Decision>)
  {
    if p !in ctrl || ctrl[p] !in s.pids then (s, Some(Decision(0, NoController, false)))
    else if inp.dt <= 0.0 then (s, None)
    else
      var c := ctrl[p];
      var pid := s.pids[c];
      var last := LastFlip(s.lastFlip, p);
      var delta := WantedDelta(cfg, pid, topo, Get(inp.depths, p), inp.dt);
      var d := Decide(cfg, last, delta, Get(inp.inFlight, p), inp.now);
      (Scaler(s.pids[c := Next(pid, (Get(inp.depths, p) - topo.targetDepth) as real, inp.dt)],
              if d.delta != 0 then s.lastFlip[p := inp.now] else s.lastFlip,
              s.thrash + Thrashes(cfg, last, d, inp.now)),
       Some(d))
  }

  /** The three ways through one pool's turn. */
  lemma TickPoolCases<C>(cfg: Settings, ctrl: map<Pool, C>, s: Scaler<C>, inp: Inputs, p: Pool, topo: Topology)
    ensures var t := TickPool(cfg, ctrl, s, inp, p, topo);
            if p !in ctrl || ctrl[p] !in s.pids then t == (s, Some(Decision(0, NoController, false)))
            else if inp.dt <= 0.0 then t == (s, None)
            else
              var c, last, error := ctrl[p], LastFlip(s.lastFlip, p), (Get(inp.depths, p) - topo.targetDepth) as real;
              && t.1.Some?
              && t.1.value == Decide(cfg, last, WantedDelta(cfg, s.pids[c], topo, Get(inp.depths, p), inp.dt),
                                     Get(inp.inFlight, p), inp.now)
              && t.0.pids == s.pids[c := Next(s.pids[c], error, inp.dt)]
              && t.0.lastFlip == (if t.1.value.delta != 0 then s.lastFlip[p := inp.now] else s.lastFlip)
              && t.0.thrash == s.thrash + Thrashes(cfg, last, t.1.value, inp.now)
  {
    hide Decide, Thrashes, WantedDelta, Next, LastFlip, Get;
  }

  /** The first `n` pools of the topology; `None` once a controller has raised. */
  function TickUpTo<C(==)>(cfg: Settings, ctrl: map<Pool, C>, s: Scaler<C>, inp: Inputs, n: nat)
    : (Scaler<C>, Option<seq<(Pool, Decision)>>)
    requires n <= |inp.topology|
    decreases n
  {
    if n == 0 then (s, Some([]))
    else
      var (s1, front) := TickUpTo(cfg, ctrl, s, inp, n - 1);
      if front.None? then (s1, None)
      else
        var (p, topo) := inp.topology[n - 1];
        var (s2, d) := TickPool(cfg, ctrl, s1, inp, p, topo);
        (s2, if d.None? then None else Some(front.value + [(p, d.value)]))
  }

  function Tick<C(==)>(cfg: Settings, ctrl: map<Pool, C>, s: Scaler<C>, inp: Inputs)
    : (Scaler<C>, Option<seq<(Pool, Decision)>>)
  {
    TickUpTo(cfg, ctrl, s, inp, |inp.topology|)
  }

  // ---------- the imperative autoscaler ----------

  class PoolAutoscaler {
    const cfg: Settings
    const controllers: map<Pool, PidController>
    var lastFlip: map<Pool, real>
    var thrash: nat

    ghost function Pids(): map<PidController, Pid>
      reads controllers.Values
    {
      map c | c in controllers.Values :: c.View()
    }

    ghost function View(): Scaler<PidController>
      reads this, controllers.Values
    {
      Scaler(Pids(), lastFlip, thrash)
    }

    constructor (controllers: map<Pool, PidController>, cfg: Settings)
      requires ValidSettings(cfg)
      ensures this.controllers == controllers && this.cfg == cfg
      ensures lastFlip == map[] && thrash == 0
    {
      this.controllers, this.cfg := controllers, cfg;
      lastFlip, thrash := map[], 0;
    }

    /** Output range to step, then floor and ceiling. */
    method ScaledDelta(controller: PidController, raw: real, replicas: int) returns (delta: int)
      ensures delta == Bounded(cfg, replicas, RawDelta(controller.outMin, controller.outMax, raw, cfg.step))
    {
      var span := controller.outMax - controller.outMin;
      if span <= 0.0 {
        delta := 0;
      } else {
        var normalized := Prod(Quot(raw - controller.outMin, span), 2.0) - 1.0;
        delta := RoundHalfEven(Prod(normalized, cfg.step as real));
      }
      var wouldBe := replicas + delta;
      if wouldBe > cfg.maxReplicas {
        delta := cfg.maxReplicas - replicas;
      }
      if wouldBe < cfg.minReplicas {
        delta := cfg.minReplicas - replicas;
      }
    }

    /** Drain, dwell, then the flip's bookkeeping. */
    method Settle(p: Pool, delta: int, inFlight: int, now: real) returns (d: Decision)
      modifies this
      ensures d == Decide(cfg, LastFlip(old(lastFlip), p), delta, inFlight, now)
      ensures lastFlip == if d.delta != 0 then old(lastFlip)[p := now] else old(lastFlip)
      ensures thrash == old(thrash) + Thrashes(cfg, LastFlip(old(lastFlip), p), d, now)
    {
      if delta < 0 && inFlight > 0 {
        return Decision(0, DrainWait, false);
      }
      var last := LastFlip(lastFlip, p);
      if delta != 0 && cfg.minDwell > 0.0 {
        if last.Some? && now - last.value < cfg.minDwell {
          return Decision(0, DwellWait, false);
        }
      }
      var reason := if delta > 0 then QueueHigh else if delta < 0 then QueueLow else Stable;
      if delta != 0 {
        if cfg.metered {
          if last.Some? && now - last.value < THRASH_WINDOW_S {
            thrash := thrash + 1;
          }
        }
        lastFlip := lastFlip[p := now];
      }
      return Decision(delta, reason, delta < 0);
    }

    /** One pass through the body of the tick's loop. */
    method TickOne(inp: Inputs, p: Pool, topo: Topology) returns (r: Option<Decision>)
      modifies this, controllers.Values
      ensures (View(), r) == TickPool(cfg, controllers, old(View()), inp, p, topo)
    {
      hide TickPool, Decide, Thrashes, Bounded, RawDelta, Next, Output, LastFlip, Get;
      TickPoolCases(cfg, controllers, View(), inp, p, topo);
      if p !in controllers {
        return Some(Decision(0, NoController, false));
      }
      var controller := controllers[p];
      assert controller in controllers.Values;
      ghost var pids := Pids();
      var depth := Get(inp.depths, p);
      var raw := controller.Update((depth - topo.targetDepth) as real, inp.dt);
      if raw.None? {
        assert Pids() == pids;
        return None;
      }
      assert Pids() == pids[controller := controller.View()];
      var delta := ScaledDelta(controller, raw.value, topo.replicas);
      var d := Settle(p, delta, Get(inp.inFlight, p), inp.now);
      assert View().pids == pids[controller := controller.View()];
      return Some(d);
    }

    method TickAll(inp: Inputs) returns (r: Option<seq<(Pool, Decision)>>)
      modifies this, controllers.Values
      ensures (View(), r) == Tick(cfg, controllers, old(View()), inp)
    {
      var out: seq<(Pool, Decision)> := [];
      for i := 0 to |inp.topology|
        invariant (View(), Some(out)) == TickUpTo(cfg, controllers, old(View()), inp, i)
      {
        var (p, topo) := inp.topology[i];
        var d := TickOne(inp, p, topo);
        if d.None? {
          RaisedStays(cfg, controllers, old(View()), inp, i + 1, |inp.topology|);
          return None;
        }
        out := out + [(p, d.value)];
      }
      return Some(out);
    }
  }

  lemma {:induction false} RaisedStays<C>(cfg: Settings, ctrl: map<Pool, C>, s: Scaler<C>, inp: Inputs, i: nat, n: nat)
    requires i <= n <= |inp.topology| && TickUpTo(cfg, ctrl, s, inp, i).1.None?
    ensures TickUpTo(cfg, ctrl, s, inp, n) == TickUpTo(cfg, ctrl, s, inp, i)
    decreases n - i
  {
    hide TickPool;
    if i < n {
      RaisedStays(cfg, ctrl, s, inp, i + 1, n);
    }
  }
}
