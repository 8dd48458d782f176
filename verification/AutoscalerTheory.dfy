/** The autoscaler over whole runs: closed-loop safety, monotonicity in load, pool independence. */
module AutoscalerTheory {
  import opened Prelude
  import opened RealArith
  import opened Pid
  import opened Autoscaler

  // ---------- one pool seen alone ----------

  /** All that a tick remembers about one pool. */
  datatype Lane = Lane(pid: Pid, last: Option<real>)

  /** What one tick is told about one pool. */
  datatype Reading = Reading(topo: Topology, depth: int, inFlight: int, dt: real, now: real)

  ghost predicate Timed(xs: seq<Reading>) {
    forall k :: 0 <= k < |xs| ==> xs[k].dt > 0.0
  }

  function LaneStep(cfg: Settings, l: Lane, x: Reading): (Lane, Decision)
    requires x.dt > 0.0
  {
    var d := Decide(cfg, l.last, WantedDelta(cfg, l.pid, x.topo, x.depth, x.dt), x.inFlight, x.now);
    (Lane(Next(l.pid, (x.depth - x.topo.targetDepth) as real, x.dt), if d.delta != 0 then Some(x.now) else l.last), d)
  }

  function LaneAfter(cfg: Settings, l: Lane, xs: seq<Reading>): Lane
    requires Timed(xs)
  {
    if xs == [] then l else LaneStep(cfg, LaneAfter(cfg, l, xs[..|xs| - 1]), xs[|xs| - 1]).0
  }

  function LaneDecisions(cfg: Settings, l: Lane, xs: seq<Reading>): (ds: seq<Decision>)
    requires Timed(xs)
    ensures |ds| == |xs|
  {
    if xs == [] then []
    else
      var front := xs[..|xs| - 1];
      LaneDecisions(cfg, l, front) + [LaneStep(cfg, LaneAfter(cfg, l, front), xs[|xs| - 1]).1]
  }

  // ---------- one step ----------

  lemma SpanScaled(q: real, step: int)
    requires 0.0 <= q <= 1.0 && step >= 1
    ensures -(step as real) <= Prod(Prod(q, 2.0) - 1.0, step as real) <= step as real
  {
    var n, s := Prod(q, 2.0) - 1.0, step as real;
    MulMono(n, 1.0, s);
    MulMono(-1.0, n, s);
    assert Prod(1.0, s) == s && Prod(-1.0, s) == -s;
  }

  lemma RawDeltaRange(lo: real, hi: real, raw: real, step: int)
    requires lo <= raw <= hi && step >= 1
    ensures -step <= RawDelta(lo, hi, raw, step) <= step
  {
    var span := hi - lo;
    if span > 0.0 {
      UnitRatio(raw - lo, span);
      var q := Quot(raw - lo, span);
      SpanScaled(q, step);
      var x := Prod(Prod(q, 2.0) - 1.0, step as real);
      RoundMonotone(x, step as real);
      RoundMonotone((-step) as real, x);
      RoundOfInt(step);
      RoundOfInt(-step);
    }
  }

  /** What one decision is, when `m` is the integer nearest to the scaled output. */
  ghost predicate Decides(cfg: Settings, l: Lane, x: Reading, m: int, d: Decision) {
    var target := Max(cfg.minReplicas, Min(x.topo.replicas + m, cfg.maxReplicas));
    var move := target - x.topo.replicas;
    var tooSoon := cfg.minDwell > 0.0 && l.last.Some? && x.now - l.last.value < cfg.minDwell;
    if move < 0 && x.inFlight > 0 then d == Decision(0, DrainWait, false)
    else if move != 0 && tooSoon then d == Decision(0, DwellWait, false)
    else d == Decision(move, if move > 0 then QueueHigh else if move < 0 then QueueLow else Stable, move < 0)
  }

  /**
   One tick of one pool, from its inputs to its decision: the controller's output on the
   error, scaled to the step and rounded to the nearest integer, ties to even; the replica
   count then moves to the nearest allowed one, unless a shrink must wait for requests in
   flight or any move for the dwell time.
   */
  lemma TickMeaning(cfg: Settings, l: Lane, x: Reading) returns (m: int)
    requires ValidSettings(cfg) && l.pid.outMin < l.pid.outMax && x.dt > 0.0
    ensures NearestEven(Wanted(l.pid.outMin, l.pid.outMax,
                               Output(l.pid, (x.depth - x.topo.targetDepth) as real, x.dt), cfg.step), m)
    ensures Decides(cfg, l, x, m, LaneStep(cfg, l, x).1)
    ensures LaneStep(cfg, l, x).0.last == if LaneStep(cfg, l, x).1.delta != 0 then Some(x.now) else l.last
  {
    hide RawDelta, Output, Next, Bounded;
    var raw := Output(l.pid, (x.depth - x.topo.targetDepth) as real, x.dt);
    m := RawDelta(l.pid.outMin, l.pid.outMax, raw, cfg.step);
    MoveIsNearest(l.pid.outMin, l.pid.outMax, raw, cfg.step);
    BoundedIsClamp(cfg, x.topo.replicas, m);
  }

  /** One decision from an in-bounds replica count: bounded move, bounds kept, no undrained shrink, dwell respected. */
  lemma StepSafe(cfg: Settings, l: Lane, x: Reading)
    requires ValidSettings(cfg) && l.pid.outMin < l.pid.outMax && x.dt > 0.0
    requires cfg.minReplicas <= x.topo.replicas <= cfg.maxReplicas
    ensures var d := LaneStep(cfg, l, x).1;
            && -cfg.step <= d.delta <= cfg.step
            && cfg.minReplicas <= x.topo.replicas + d.delta <= cfg.maxReplicas
            && (d.delta < 0 ==> x.inFlight <= 0)
            && (d.drained <==> d.delta < 0)
            && (d.delta != 0 && cfg.minDwell > 0.0 && l.last.Some? ==> x.now - l.last.value >= cfg.minDwell)
  {
    var p := l.pid;
    var raw := Output(p, (x.depth - x.topo.targetDepth) as real, x.dt);
    RawDeltaRange(p.outMin, p.outMax, raw, cfg.step);
    hide RawDelta, Output, Next;
  }

  // ---------- the closed loop ----------

  /** What the outside world supplies at one tick; the replica count is fed back. */
  datatype Signal = Signal(target: int, depth: int, inFlight: int, dt: real, now: real)

  datatype Loop = Loop(lane: Lane, replicas: int)

  ghost predicate Ticking(xs: seq<Signal>) {
    forall k :: 0 <= k < |xs| ==> xs[k].dt > 0.0
  }

  function LoopReading(s: Loop, x: Signal): Reading {
    Reading(Topology(s.replicas, x.target), x.depth, x.inFlight, x.dt, x.now)
  }

  function LoopStep(cfg: Settings, s: Loop, x: Signal): (Loop, Decision)
    requires x.dt > 0.0
  {
    var (l, d) := LaneStep(cfg, s.lane, LoopReading(s, x));
    (Loop(l, s.replicas + d.delta), d)
  }

  function LoopAfter(cfg: Settings, s: Loop, xs: seq<Signal>): Loop
    requires Ticking(xs)
  {
    if xs == [] then s else LoopStep(cfg, LoopAfter(cfg, s, xs[..|xs| - 1]), xs[|xs| - 1]).0
  }

  /** The decision taken at tick `k`. */
  function LoopDecision(cfg: Settings, s: Loop, xs: seq<Signal>, k: nat): Decision
    requires Ticking(xs) && k < |xs|
  {
    LoopStep(cfg, LoopAfter(cfg, s, xs[..k]), xs[k]).1
  }

  ghost predicate SafeLoop(cfg: Settings, s: Loop) {
    s.lane.pid.outMin < s.lane.pid.outMax && cfg.minReplicas <= s.replicas <= cfg.maxReplicas
  }

  lemma {:induction false} LoopStaysSafe(cfg: Settings, s: Loop, xs: seq<Signal>)
    requires ValidSettings(cfg) && SafeLoop(cfg, s) && Ticking(xs)
    ensures SafeLoop(cfg, LoopAfter(cfg, s, xs))
  {
    hide Decide, WantedDelta;
    if xs != [] {
      LoopStaysSafe(cfg, s, xs[..|xs| - 1]);
      var q := LoopAfter(cfg, s, xs[..|xs| - 1]);
      StepSafe(cfg, q.lane, LoopReading(q, xs[|xs| - 1]));
    }
  }

  /**
   Closed-loop safety: whatever the depths, targets, load and clock, at every tick of every
   run the replica count stays within bounds, no move exceeds the step, and a pool with
   requests in flight is never shrunk.
   */
  lemma ClosedLoopSafe(cfg: Settings, s: Loop, xs: seq<Signal>, k: nat)
    requires ValidSettings(cfg) && SafeLoop(cfg, s) && Ticking(xs) && k < |xs|
    ensures var before, after, d := LoopAfter(cfg, s, xs[..k]), LoopAfter(cfg, s, xs[..k + 1]), LoopDecision(cfg, s, xs, k);
            && cfg.minReplicas <= before.replicas <= cfg.maxReplicas
            && after.replicas == before.replicas + d.delta
            && cfg.minReplicas <= after.replicas <= cfg.maxReplicas
            && -cfg.step <= d.delta <= cfg.step
            && (d.delta < 0 ==> xs[k].inFlight <= 0)
  {
    hide Decide, WantedDelta;
    LoopStaysSafe(cfg, s, xs[..k]);
    var q := LoopAfter(cfg, s, xs[..k]);
    StepSafe(cfg, q.lane, LoopReading(q, xs[k]));
    assert xs[..k + 1][..k] == xs[..k];
  }

  // ---------- spacing of flips ----------

  /** Clock readings of the ticks whose decision changed the replica count. */
  function FlipClock(xs: seq<Reading>, ds: seq<Decision>): seq<real>
    requires |xs| == |ds|
  {
    if xs == [] then []
    else
      var k := |xs| - 1;
      FlipClock(xs[..k], ds[..k]) + if ds[k].delta != 0 then [xs[k].now] else []
  }

  function FlipTimes(cfg: Settings, l: Lane, xs: seq<Reading>): seq<real>
    requires Timed(xs)
  {
    FlipClock(xs, LaneDecisions(cfg, l, xs))
  }

  ghost predicate Spaced(ts: seq<real>, gap: real) {
    forall i, j :: 0 <= i < j < |ts| ==> ts[j] - ts[i] >= gap
  }

  lemma SpacedSnoc(ts: seq<real>, t: real, gap: real)
    requires Spaced(ts, gap) && gap > 0.0 && (ts != [] ==> t - ts[|ts| - 1] >= gap)
    ensures Spaced(ts + [t], gap)
  {
    forall i, j | 0 <= i < j < |ts + [t]| ensures (ts + [t])[j] - (ts + [t])[i] >= gap {
      if j == |ts| && i < j - 1 {
        assert ts[j - 1] - ts[i] >= gap;
      }
    }
  }

  /**
   Flips of a pool are at least the dwell time apart, for any topologies, depths and
   replica counts the pool is handed and with no assumption on the clock.
   */
  lemma {:induction false} FlipsSpaced(cfg: Settings, l: Lane, xs: seq<Reading>)
    requires cfg.minDwell > 0.0 && Timed(xs) && l.last.None?
    ensures var ts, last := FlipTimes(cfg, l, xs), LaneAfter(cfg, l, xs).last;
            Spaced(ts, cfg.minDwell) && (last.Some? <==> ts != []) && (last.Some? ==> last.value == ts[|ts| - 1])
  {
    if xs != [] {
      hide WantedDelta, Next, Spaced;
      var front, x := xs[..|xs| - 1], xs[|xs| - 1];
      FlipsSpaced(cfg, l, front);
      var d := LaneStep(cfg, LaneAfter(cfg, l, front), x).1;
      assert LaneDecisions(cfg, l, xs)[..|front|] == LaneDecisions(cfg, l, front);
      assert FlipTimes(cfg, l, xs) == FlipTimes(cfg, l, front) + if d.delta != 0 then [x.now] else [];
      if d.delta != 0 {
        SpacedSnoc(FlipTimes(cfg, l, front), x.now, cfg.minDwell);
      }
    } else {
      assert FlipTimes(cfg, l, xs) == [];
    }
  }

  /** The readings that fall in a window of length `len` from `from`. */
  function InWindow(ts: seq<real>, from: real, len: real): seq<real> {
    if ts == [] then []
    else InWindow(ts[..|ts| - 1], from, len)
         + if from <= ts[|ts| - 1] <= from + len then [ts[|ts| - 1]] else []
  }

  lemma OneMoreGap(n: nat, gap: real)
    ensures Prod(n as real, gap) == Prod((n - 1) as real, gap) + gap
    ensures Prod(0.0, gap) == 0.0
  {}

  lemma {:induction false} WindowSpaced(ts: seq<real>, gap: real, from: real, len: real)
    requires Spaced(ts, gap) && gap > 0.0
    ensures var w := InWindow(ts, from, len);
            && (w != [] ==> from <= w[0] && w[|w| - 1] <= from + len && w[|w| - 1] in ts)
            && (w != [] ==> w[|w| - 1] - w[0] >= Prod((|w| - 1) as real, gap))
  {
    hide Prod;
    if ts != [] {
      var front, t := ts[..|ts| - 1], ts[|ts| - 1];
      WindowSpaced(front, gap, from, len);
      var v := InWindow(front, from, len);
      OneMoreGap(|v|, gap);
      if v != [] {
        var i :| 0 <= i < |front| && front[i] == v[|v| - 1];
        assert ts[|ts| - 1] - ts[i] >= gap;
      }
    }
  }

  lemma FloorBound(n: nat, gap: real, len: real)
    requires gap > 0.0 && Prod((n - 1) as real, gap) <= len
    ensures n <= Quot(len, gap).Floor + 1
  {
    QuotientBounds(len, gap, (n - 1) as real);
  }

  /** So any window of length `len` holds at most `len / gap` (rounded down) plus one of them. */
  lemma SpacedInWindow(ts: seq<real>, gap: real, from: real, len: real)
    requires Spaced(ts, gap) && gap > 0.0 && len >= 0.0
    ensures |InWindow(ts, from, len)| <= Quot(len, gap).Floor + 1
  {
    WindowSpaced(ts, gap, from, len);
    var w := InWindow(ts, from, len);
    if w != [] {
      FloorBound(|w|, gap, len);
    } else {
      QuotientBounds(len, gap, 0.0);
      assert Prod(0.0, gap) == 0.0;
    }
  }

  lemma FlipsInWindow(cfg: Settings, l: Lane, xs: seq<Reading>, from: real, len: real)
    requires cfg.minDwell > 0.0 && Timed(xs) && l.last.None? && len >= 0.0
    ensures |InWindow(FlipTimes(cfg, l, xs), from, len)| <= Quot(len, cfg.minDwell).Floor + 1
  {
    FlipsSpaced(cfg, l, xs);
    SpacedInWindow(FlipTimes(cfg, l, xs), cfg.minDwell, from, len);
  }

  /** What a closed loop hands its pool. */
  function LoopReadings(cfg: Settings, s: Loop, xs: seq<Signal>): (rs: seq<Reading>)
    requires Ticking(xs)
    ensures |rs| == |xs| && Timed(rs)
  {
    if xs == [] then []
    else
      var front := xs[..|xs| - 1];
      LoopReadings(cfg, s, front) + [LoopReading(LoopAfter(cfg, s, front), xs[|xs| - 1])]
  }

  /** A closed loop is a lane on its own readings, so everything above holds of it. */
  lemma {:induction false} LoopIsLane(cfg: Settings, s: Loop, xs: seq<Signal>)
    requires Ticking(xs)
    ensures var rs := LoopReadings(cfg, s, xs);
            && LaneAfter(cfg, s.lane, rs) == LoopAfter(cfg, s, xs).lane
            && forall k :: 0 <= k < |xs| ==> LaneDecisions(cfg, s.lane, rs)[k] == LoopDecision(cfg, s, xs, k)
  {
    hide LaneStep;
    if xs != [] {
      var front := xs[..|xs| - 1];
      LoopIsLane(cfg, s, front);
      var rs := LoopReadings(cfg, s, xs);
      assert rs[..|front|] == LoopReadings(cfg, s, front);
      forall k | 0 <= k < |front| ensures LoopDecision(cfg, s, front, k) == LoopDecision(cfg, s, xs, k) {
        assert front[..k] == xs[..k];
      }
    }
  }

  // ---------- monotone in load ----------

  /** How much one unit of error moves the unclamped output. */
  function EffectiveGain(p: Pid, dt: real): real
    requires dt > 0.0
  {
    p.gains.kp + Prod(p.gains.ki, dt) + if p.prevError.None? then 0.0 else Quot(p.gains.kd, dt)
  }

  lemma NonnegativeGains(p: Pid, dt: real)
    requires ValidPid(p) && p.gains.kp >= 0.0 && dt > 0.0
    ensures EffectiveGain(p, dt) >= 0.0
  {
    ProductSign(p.gains.ki, dt);
    QuotientBounds(p.gains.kd, dt, 0.0);
    assert Prod(0.0, dt) == 0.0;
  }

  lemma DerivativeGain(kd: real, e: real, e': real, prev: real, dt: real)
    requires dt > 0.0
    ensures Quot(Prod(kd, e' - prev), dt) - Quot(Prod(kd, e - prev), dt) == Prod(Quot(kd, dt), e' - e)
  {
    var a, b, k := Prod(kd, e' - prev), Prod(kd, e - prev), Quot(kd, dt);
    DivMul(kd, dt);
    assert Prod(Prod(k, e' - prev), dt) == Prod(Prod(k, dt), e' - prev);
    assert Prod(Prod(k, e - prev), dt) == Prod(Prod(k, dt), e - prev);
    DivMul(a, dt);
    DivMul(b, dt);
    CancelFactor(Quot(a, dt), Prod(k, e' - prev), dt);
    CancelFactor(Quot(b, dt), Prod(k, e - prev), dt);
  }

  lemma LinearGain(kp: real, ki: real, k: real, integral: real, e: real, e': real, dt: real)
    ensures Prod(kp, e') + Prod(ki, integral + Prod(e', dt)) - Prod(kp, e) - Prod(ki, integral + Prod(e, dt)) + Prod(k, e' - e)
            == Prod(kp + Prod(ki, dt) + k, e' - e)
  {}

  lemma UnclampedMoves(p: Pid, e: real, e': real, dt: real)
    requires dt > 0.0
    ensures Unclamped(p, e', dt) - Unclamped(p, e, dt) == Prod(EffectiveGain(p, dt), e' - e)
  {
    var g := p.gains;
    if p.prevError.None? {
      LinearGain(g.kp, g.ki, 0.0, p.integral, e, e', dt);
      assert Prod(0.0, e' - e) == 0.0;
    } else {
      DerivativeGain(g.kd, e, e', p.prevError.value, dt);
      LinearGain(g.kp, g.ki, Quot(g.kd, dt), p.integral, e, e', dt);
    }
    hide Prod, Quot;
  }

  lemma RawDeltaMonotone(lo: real, hi: real, raw: real, raw': real, step: int)
    requires raw <= raw' && step >= 1
    ensures RawDelta(lo, hi, raw, step) <= RawDelta(lo, hi, raw', step)
  {
    var span := hi - lo;
    if span > 0.0 {
      var q, q' := Quot(raw - lo, span), Quot(raw' - lo, span);
      DivMul(raw - lo, span);
      QuotientBounds(raw' - lo, span, q);
      MulMono(q, q', 2.0);
      MulMono(Prod(q, 2.0) - 1.0, Prod(q', 2.0) - 1.0, step as real);
      RoundMonotone(Prod(Prod(q, 2.0) - 1.0, step as real), Prod(Prod(q', 2.0) - 1.0, step as real));
    }
  }

  lemma OutputMonotone(p: Pid, e: real, e': real, dt: real)
    requires dt > 0.0 && EffectiveGain(p, dt) >= 0.0 && e <= e'
    ensures Output(p, e, dt) <= Output(p, e', dt) || p.outMin > p.outMax
  {
    hide Unclamped, EffectiveGain, Prod;
    UnclampedMoves(p, e, e', dt);
    ProductSign(EffectiveGain(p, dt), e' - e);
  }

  /**
   Two ticks from one state: with nonnegative effective gain, a deeper queue and a busier
   pool never get a smaller move, through clamping, rounding, bounds, drain and dwell.
   */
  lemma MonotoneInLoad(cfg: Settings, l: Lane, x: Reading, y: Reading)
    requires ValidSettings(cfg) && ValidPid(l.pid) && x.dt > 0.0 && EffectiveGain(l.pid, x.dt) >= 0.0
    requires y.topo == x.topo && y.dt == x.dt && y.now == x.now
    requires x.depth <= y.depth && x.inFlight <= y.inFlight
    ensures LaneStep(cfg, l, x).1.delta <= LaneStep(cfg, l, y).1.delta
  {
    hide RawDelta, Output, Next;
    var p := l.pid;
    var e, e' := (x.depth - x.topo.targetDepth) as real, (y.depth - y.topo.targetDepth) as real;
    OutputMonotone(p, e, e', x.dt);
    RawDeltaMonotone(p.outMin, p.outMax, Output(p, e, x.dt), Output(p, e', x.dt), cfg.step);
  }

  /** Two readings at one instant with the same topology, the second with at least the load of the first. */
  ghost predicate Heavier(x: Reading, y: Reading, dt: real, now: real) {
    && x.topo == y.topo && x.dt == y.dt == dt && x.now == y.now == now
    && 0 <= x.depth <= y.depth && x.inFlight <= y.inFlight
    && x.topo.replicas >= 0 && x.topo.targetDepth >= 0
  }

  /** From state `l` at this instant, more load never gets a smaller move. */
  ghost predicate Monotone(cfg: Settings, l: Lane, dt: real, now: real)
    requires dt > 0.0
  {
    forall x, y :: Heavier(x, y, dt, now) ==> LaneStep(cfg, l, x).1.delta <= LaneStep(cfg, l, y).1.delta
  }

  /** An error so many steps past the target saturates the controller either way. */
  lemma SaturatingError(u: real, gain: real, lo: real, hi: real) returns (n: nat)
    requires gain < 0.0 && lo < hi
    ensures n > 0 && u + Prod(gain, -(n as real)) > hi && u + Prod(gain, n as real) < lo
  {
    var need := if hi - u >= u - lo then hi - u else u - lo;
    var q := Quot(need, -gain);
    n := Max(0, q.Floor) + 1;
    DivMul(need, -gain);
    MulMonoStrict(q, n as real, -gain);
    assert Prod(n as real, -gain) == Prod(gain, -(n as real)) == -Prod(gain, n as real);
  }

  lemma FullMove(lo: real, hi: real, step: int)
    requires lo < hi && step >= 1
    ensures RawDelta(lo, hi, hi, step) == step && RawDelta(lo, hi, lo, step) == -step
  {
    var span := hi - lo;
    DivMul(span, span);
    assert Prod(1.0, span) == span && Prod(0.0, span) == 0.0;
    CancelFactor(Quot(span, span), 1.0, span);
    DivMul(0.0, span);
    CancelFactor(Quot(0.0, span), 0.0, span);
    var s := step as real;
    assert Prod(Prod(1.0, 2.0) - 1.0, s) == s && Prod(Prod(0.0, 2.0) - 1.0, s) == (-step) as real;
    RoundOfInt(step);
    RoundOfInt(-step);
  }

  /** With a negative effective gain an empty queue grows the smallest pool and a deep one does not. */
  lemma NegativeGainReverses(cfg: Settings, l: Lane, dt: real, now: real) returns (x: Reading, y: Reading)
    requires ValidSettings(cfg) && ValidPid(l.pid) && dt > 0.0 && EffectiveGain(l.pid, dt) < 0.0
    requires cfg.minReplicas < cfg.maxReplicas && !DwellBlocks(cfg, l.last, now)
    ensures Heavier(x, y, dt, now)
    ensures LaneStep(cfg, l, x).1.delta > 0 && LaneStep(cfg, l, y).1.delta == 0
  {
    hide RawDelta, Unclamped, EffectiveGain, Prod, Next;
    var p, gain := l.pid, EffectiveGain(l.pid, dt);
    var u := Unclamped(p, 0.0, dt);
    var n := SaturatingError(u, gain, p.outMin, p.outMax);
    UnclampedMoves(p, 0.0, -(n as real), dt);
    UnclampedMoves(p, 0.0, n as real, dt);
    FullMove(p.outMin, p.outMax, cfg.step);
    var topo := Topology(cfg.minReplicas, n);
    x, y := Reading(topo, 0, 0, dt, now), Reading(topo, 2 * n, 0, dt, now);
    assert Output(p, -(n as real), dt) == p.outMax && Output(p, n as real, dt) == p.outMin;
    assert (x.depth - n) as real == -(n as real) && (y.depth - n) as real == n as real;
  }

  /** One admissible replica count leaves one possible move. */
  lemma OneCount(cfg: Settings, l: Lane, x: Reading, y: Reading)
    requires cfg.minReplicas == cfg.maxReplicas && x.dt > 0.0 && y.dt > 0.0
    requires x.topo == y.topo && x.now == y.now && x.inFlight <= y.inFlight
    ensures LaneStep(cfg, l, x).1.delta <= LaneStep(cfg, l, y).1.delta
  {
    hide RawDelta, Output, Next;
  }

  /**
   Monotone in load, exactly: the tick answers every heavier load with at least as large a
   move if and only if the effective gain is nonnegative, the dwell window is blocking
   every move, or only one replica count is allowed.
   */
  lemma MonotoneIff(cfg: Settings, l: Lane, dt: real, now: real)
    requires ValidSettings(cfg) && ValidPid(l.pid) && dt > 0.0
    ensures Monotone(cfg, l, dt, now)
       <==> EffectiveGain(l.pid, dt) >= 0.0 || DwellBlocks(cfg, l.last, now) || cfg.minReplicas == cfg.maxReplicas
  {
    hide EffectiveGain, LaneStep;
    if EffectiveGain(l.pid, dt) >= 0.0 || DwellBlocks(cfg, l.last, now) || cfg.minReplicas == cfg.maxReplicas {
      forall x, y | Heavier(x, y, dt, now) ensures LaneStep(cfg, l, x).1.delta <= LaneStep(cfg, l, y).1.delta {
        if EffectiveGain(l.pid, dt) >= 0.0 {
          MonotoneInLoad(cfg, l, x, y);
        } else if cfg.minReplicas == cfg.maxReplicas {
          OneCount(cfg, l, x, y);
        } else {
          Blocked(cfg, l, x);
          Blocked(cfg, l, y);
        }
      }
    } else {
      var x, y := NegativeGainReverses(cfg, l, dt, now);
    }
  }

  lemma Blocked(cfg: Settings, l: Lane, x: Reading)
    requires x.dt > 0.0 && DwellBlocks(cfg, l.last, x.now)
    ensures LaneStep(cfg, l, x).1.delta == 0
  {
    hide WantedDelta, Next;
  }

  /** A nonnegative `kp` suffices, the other gains being nonnegative by the schema. */
  lemma NonnegativeKpMonotone(cfg: Settings, l: Lane, dt: real, now: real)
    requires ValidSettings(cfg) && ValidPid(l.pid) && dt > 0.0 && l.pid.gains.kp >= 0.0
    ensures Monotone(cfg, l, dt, now)
  {
    hide Monotone;
    NonnegativeGains(l.pid, dt);
    MonotoneIff(cfg, l, dt, now);
  }

  lemma HalfSpan(x: real)
    ensures Quot(x + 1.0, 2.0) == 0.5 * x + 0.5
    ensures Prod(Prod(0.5 * x + 0.5, 2.0) - 1.0, 1.0) == x
  {}

  lemma FullSwing(n: int)
    ensures RawDelta(-1.0, 1.0, n as real, 1) == n
  {
    hide Prod, Quot, RoundHalfEven;
    HalfSpan(n as real);
    RoundOfInt(n);
  }

  const REVERSED := Pid(Gains(-1.0, 0.0, 0.0), -1.0, 1.0, 0.0, None)

  const ONE_STEP := Settings(1, 8, 1, 0.0, false)

  lemma ReversedUnclamped(e: real)
    ensures Unclamped(REVERSED, e, 1.0) == -e
  {}

  lemma OneSwing(depth: int, delta: int)
    requires -1 <= delta <= 1 && Output(REVERSED, (depth - 16) as real, 1.0) == delta as real
    ensures LaneStep(ONE_STEP, Lane(REVERSED, None), Reading(Topology(4, 16), depth, 0, 1.0, 0.0)).1.delta == delta
  {
    hide RawDelta, Next, Output;
    FullSwing(delta);
  }

  /** The schema lets `kp` be negative, and then the tick can answer a deeper queue with a shrink. */
  lemma NegativeGainShrinks()
    ensures LaneStep(ONE_STEP, Lane(REVERSED, None), Reading(Topology(4, 16), 0, 0, 1.0, 0.0)).1.delta == 1
    ensures LaneStep(ONE_STEP, Lane(REVERSED, None), Reading(Topology(4, 16), 32, 0, 1.0, 0.0)).1.delta == -1
  {
    hide LaneStep, Unclamped;
    ReversedUnclamped(-16.0);
    ReversedUnclamped(16.0);
    OneSwing(0, 1);
    OneSwing(32, -1);
  }
}
