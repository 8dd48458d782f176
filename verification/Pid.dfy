/** control/pid.py: the discrete-time PID controller with conditional integration. */
module Pid {
  import opened Prelude
  import opened RealArith

  datatype Gains = Gains(kp: real, ki: real, kd: real)

  /** A controller's constants and its two pieces of state. */
  datatype Pid = Pid(gains: Gains, outMin: real, outMax: real, integral: real, prevError: Option<real>)

  /** The schema's field ranges and the constructor's check. */
  ghost predicate ValidPid(p: Pid) {
    p.gains.ki >= 0.0 && p.gains.kd >= 0.0 && p.outMin < p.outMax
  }

  function DerivativeTerm(p: Pid, error: real, dt: real): real
    requires dt > 0.0
  {
    if p.prevError.None? then 0.0 else Quot(Prod(p.gains.kd, error - p.prevError.value), dt)
  }

  function Unclamped(p: Pid, error: real, dt: real): real
    requires dt > 0.0
  {
    Prod(p.gains.kp, error) + Prod(p.gains.ki, p.integral + Prod(error, dt)) + DerivativeTerm(p, error, dt)
  }

  function Clamp(x: real, lo: real, hi: real): real {
    if x > hi then hi else if x < lo then lo else x
  }

  /** The output of one step. */
  function Output(p: Pid, error: real, dt: real): real
    requires dt > 0.0
  {
    Clamp(Unclamped(p, error, dt), p.outMin, p.outMax)
  }

  /** The state after one step: the integrator moves only in the linear region. */
  function Next(p: Pid, error: real, dt: real): Pid
    requires dt > 0.0
  {
    var u := Unclamped(p, error, dt);
    p.(integral := if p.outMin <= u <= p.outMax then p.integral + Prod(error, dt) else p.integral,
       prevError := Some(error))
  }

  class PidController {
    const gains: Gains
    const outMin: real
    const outMax: real
    var integral: real
    var prevError: Option<real>

    ghost function View(): Pid
      reads this
    {
      Pid(gains, outMin, outMax, integral, prevError)
    }

    constructor (gains: Gains, outMin: real, outMax: real)
      requires outMin < outMax
      ensures View() == Pid(gains, outMin, outMax, 0.0, None)
    {
      this.gains, this.outMin, this.outMax := gains, outMin, outMax;
      integral, prevError := 0.0, None;
    }

    method Reset()
      modifies this
      ensures View() == old(View()).(integral := 0.0, prevError := None)
    {
      integral, prevError := 0.0, None;
    }

    /** Refuses a nonpositive `dt` before touching any state. */
    method Update(error: real, dt: real) returns (r: Option<real>)
      modifies this
      ensures dt <= 0.0 ==> r == None && View() == old(View())
      ensures dt > 0.0 ==> r == Some(Output(old(View()), error, dt)) && View() == Next(old(View()), error, dt)
    {
      if dt <= 0.0 {
        return None;
      }
      var kp := Prod(gains.kp, error);
      var ki := Prod(gains.ki, integral + Prod(error, dt));
      var kd := if prevError.None? then 0.0 else Quot(Prod(gains.kd, error - prevError.value), dt);
      var unclamped := kp + ki + kd;
      var output;
      if unclamped > outMax {
        output := outMax;
      } else if unclamped < outMin {
        output := outMin;
      } else {
        output := unclamped;
        integral := integral + Prod(error, dt);
      }
      prevError := Some(error);
      return Some(output);
    }
  }

  // ---------- runs ----------

  /** One call: `update(error, dt)`, or `reset()`. */
  datatype Call = Update(error: real, dt: real) | Reset

  function Apply(p: Pid, c: Call): Pid {
    match c
    case Reset => p.(integral := 0.0, prevError := None)
    case Update(e, dt) => if dt <= 0.0 then p else Next(p, e, dt)
  }

  function Run(p: Pid, calls: seq<Call>): Pid {
    if calls == [] then p else Apply(Run(p, calls[..|calls| - 1]), calls[|calls| - 1])
  }

  // ---------- the control law on the call history ----------

  /** The error of the last accepted update since the last reset. */
  ghost function LastError(calls: seq<Call>): Option<real> {
    if calls == [] then None
    else
      match calls[|calls| - 1]
      case Reset => None
      case Update(e, dt) => if dt > 0.0 then Some(e) else LastError(calls[..|calls| - 1])
  }

  /** Proportional, integral and derivative part, before clamping; the derivative is that of the error. */
  ghost function Law(g: Gains, accumulated: real, last: Option<real>, e: real, dt: real): real
    requires dt > 0.0
  {
    g.kp * e + g.ki * (accumulated + e * dt) + if last.None? then 0.0 else g.kd * (e - last.value) / dt
  }

  /** Error times time since the last reset, over the updates whose own output was not clamped. */
  ghost function Accumulated(g: Gains, lo: real, hi: real, calls: seq<Call>): real {
    if calls == [] then 0.0
    else
      var front := calls[..|calls| - 1];
      match calls[|calls| - 1]
      case Reset => 0.0
      case Update(e, dt) =>
        var before := Accumulated(g, lo, hi, front);
        if dt > 0.0 && lo <= Law(g, before, LastError(front), e, dt) <= hi then before + e * dt else before
  }

  lemma LawForm(p: Pid, e: real, dt: real)
    requires dt > 0.0
    ensures Unclamped(p, e, dt) == Law(p.gains, p.integral, p.prevError, e, dt)
  {}

  lemma {:induction false} HistoryState(g: Gains, lo: real, hi: real, calls: seq<Call>)
    ensures Run(Pid(g, lo, hi, 0.0, None), calls) == Pid(g, lo, hi, Accumulated(g, lo, hi, calls), LastError(calls))
  {
    hide Unclamped, Law, Prod;
    if calls != [] {
      var front, c := calls[..|calls| - 1], calls[|calls| - 1];
      HistoryState(g, lo, hi, front);
      if c.Update? && c.dt > 0.0 {
        LawForm(Run(Pid(g, lo, hi, 0.0, None), front), c.error, c.dt);
        assert Prod(c.error, c.dt) == c.error * c.dt by {
          ProdForm(c.error, c.dt);
        }
      }
    }
  }

  lemma ProdForm(a: real, b: real)
    ensures Prod(a, b) == a * b
  {}

  /** After any history from a new controller, the next output is the clamped control law of that history. */
  lemma OutputOnHistory(g: Gains, lo: real, hi: real, calls: seq<Call>, e: real, dt: real)
    requires lo < hi && dt > 0.0
    ensures var u := Law(g, Accumulated(g, lo, hi, calls), LastError(calls), e, dt);
            var y := Output(Run(Pid(g, lo, hi, 0.0, None), calls), e, dt);
            && lo <= y <= hi
            && (u <= lo ==> y == lo) && (lo <= u <= hi ==> y == u) && (u >= hi ==> y == hi)
  {
    hide Unclamped, Law, Accumulated;
    HistoryState(g, lo, hi, calls);
    LawForm(Run(Pid(g, lo, hi, 0.0, None), calls), e, dt);
  }

  /** The same controller without its derivative gain. */
  function WithoutDerivative(p: Pid): Pid {
    p.(gains := p.gains.(kd := 0.0))
  }

  /**
   The derivative answers the change of the error: a repeated error gets exactly the output
   of the controller without it, a rising one no less and a falling one no more, strictly so
   when neither output is clamped.
   */
  lemma DerivativeAnswersChange(p: Pid, e: real, dt: real)
    requires ValidPid(p) && dt > 0.0 && p.prevError.Some?
    ensures var last, y, y0 := p.prevError.value, Output(p, e, dt), Output(WithoutDerivative(p), e, dt);
            var free := p.outMin < y < p.outMax && p.outMin < y0 < p.outMax && p.gains.kd > 0.0;
            && (e == last ==> y == y0)
            && (e > last ==> y >= y0 && (free ==> y > y0))
            && (e < last ==> y <= y0 && (free ==> y < y0))
  {
    LawForm(p, e, dt);
    LawForm(WithoutDerivative(p), e, dt);
    Slope(p.gains.kd, e - p.prevError.value, dt);
    hide Unclamped;
  }

  lemma Slope(kd: real, change: real, dt: real)
    requires kd >= 0.0 && dt > 0.0
    ensures change == 0.0 ==> kd * change / dt == 0.0
    ensures change > 0.0 ==> kd * change / dt >= 0.0 && (kd > 0.0 ==> kd * change / dt > 0.0)
    ensures change < 0.0 ==> kd * change / dt <= 0.0 && (kd > 0.0 ==> kd * change / dt < 0.0)
  {
    ProductSign(change, kd);
    assert Prod(change, kd) == kd * change;
  }

  // ---------- anti-windup without a derivative term ----------

  ghost predicate PiController(p: Pid) {
    ValidPid(p) && p.gains.kp >= 0.0 && p.gains.kd == 0.0 && p.outMin <= 0.0 <= p.outMax
  }

  ghost predicate Unwound(p: Pid) {
    p.outMin <= Prod(p.gains.ki, p.integral) <= p.outMax
  }

  lemma NoDerivative(p: Pid, error: real, dt: real)
    requires p.gains.kd == 0.0 && dt > 0.0
    ensures DerivativeTerm(p, error, dt) == 0.0
  {
    if p.prevError.Some? {
      var x := Prod(0.0, error - p.prevError.value);
      assert x == 0.0;
      QuotientBounds(0.0, dt, 0.0);
      assert Prod(0.0, dt) == 0.0;
    }
  }

  lemma Expand(ki: real, integral: real, step: real)
    ensures Prod(ki, integral + step) == Prod(ki, integral) + Prod(ki, step)
  {}

  /** Signs of the proportional and integral contributions of one error. */
  lemma TermSigns(p: Pid, error: real, dt: real)
    requires PiController(p) && dt > 0.0
    ensures var a, b := Prod(p.gains.kp, error), Prod(p.gains.ki, Prod(error, dt));
            && (error >= 0.0 ==> a >= 0.0 && b >= 0.0)
            && (error <= 0.0 ==> a <= 0.0 && b <= 0.0)
            && (error < 0.0 && (p.gains.kp > 0.0 || p.gains.ki > 0.0) ==> a + b < 0.0)
            && (error > 0.0 && (p.gains.kp > 0.0 || p.gains.ki > 0.0) ==> a + b > 0.0)
  {
    Signs(p.gains.kp, error);
    Signs(dt, error);
    assert Prod(error, dt) == Prod(dt, error);
    Signs(p.gains.ki, Prod(error, dt));
  }

  lemma Signs(k: real, x: real)
    requires k >= 0.0
    ensures x >= 0.0 ==> Prod(k, x) >= 0.0
    ensures x <= 0.0 ==> Prod(k, x) <= 0.0
    ensures k > 0.0 && x > 0.0 ==> Prod(k, x) > 0.0
    ensures k > 0.0 && x < 0.0 ==> Prod(k, x) < 0.0
  {
    ProductSign(x, k);
    ProductSign(k, x);
    assert Prod(x, k) == Prod(k, x);
  }

  lemma StepStaysUnwound(p: Pid, error: real, dt: real)
    requires PiController(p) && Unwound(p) && dt > 0.0
    ensures PiController(Next(p, error, dt)) && Unwound(Next(p, error, dt))
  {
    hide Prod;
    NoDerivative(p, error, dt);
    TermSigns(p, error, dt);
    Expand(p.gains.ki, p.integral, Prod(error, dt));
  }

  /**
   Anti-windup.  With no derivative term and nonnegative gains, every reachable state
   keeps the integral's contribution inside the output range, whatever the errors.
   */
  lemma {:induction false} NeverWindsUp(p: Pid, calls: seq<Call>)
    requires PiController(p) && Unwound(p)
    ensures PiController(Run(p, calls)) && Unwound(Run(p, calls))
  {
    hide Next, Prod;
    if calls != [] {
      var q, c := Run(p, calls[..|calls| - 1]), calls[|calls| - 1];
      NeverWindsUp(p, calls[..|calls| - 1]);
      ZeroIntegral(q);
      if c.Update? && c.dt > 0.0 {
        StepStaysUnwound(q, c.error, c.dt);
      }
    }
  }

  lemma ZeroIntegral(p: Pid)
    requires PiController(p)
    ensures Unwound(p.(integral := 0.0, prevError := None))
  {
    assert Prod(p.gains.ki, 0.0) == 0.0;
  }

  /** So the first error of the opposite sign takes the output strictly off the saturated rail. */
  lemma LeavesRailAtOnce(p: Pid, calls: seq<Call>, error: real, dt: real)
    requires PiController(p) && Unwound(p) && dt > 0.0
    requires p.gains.kp > 0.0 || p.gains.ki > 0.0
    ensures var q := Run(p, calls);
            && (error < 0.0 ==> Output(q, error, dt) < q.outMax)
            && (error > 0.0 ==> Output(q, error, dt) > q.outMin)
  {
    hide Prod, Run;
    var q := Run(p, calls);
    NeverWindsUp(p, calls);
    RunKeepsConstants(p, calls);
    NoDerivative(q, error, dt);
    TermSigns(q, error, dt);
    Expand(q.gains.ki, q.integral, Prod(error, dt));
  }

  lemma {:induction false} RunKeepsConstants(p: Pid, calls: seq<Call>)
    ensures var q := Run(p, calls); q.gains == p.gains && q.outMin == p.outMin && q.outMax == p.outMax
  {
    if calls != [] {
      RunKeepsConstants(p, calls[..|calls| - 1]);
    }
  }

  // ---------- with a derivative term ----------

  function Abs(x: real): real {
    if x >= 0.0 then x else -x
  }

  /** Errors within `e`, time steps at least `d`. */
  ghost predicate BoundedCalls(calls: seq<Call>, e: real, d: real) {
    forall k :: 0 <= k < |calls| && calls[k].Update? ==> Abs(calls[k].error) <= e && (calls[k].dt > 0.0 ==> calls[k].dt >= d)
  }

  /** The bound: the wider rail, plus the largest proportional and derivative terms. */
  function WindupBound(p: Pid, e: real, d: real): real
    requires d > 0.0
  {
    (if Abs(p.outMin) >= Abs(p.outMax) then Abs(p.outMin) else Abs(p.outMax))
    + Prod(Abs(p.gains.kp), e) + Quot(Prod(p.gains.kd, e + e), d)
  }

  lemma ProportionalBound(kp: real, error: real, e: real)
    requires Abs(error) <= e
    ensures -Prod(Abs(kp), e) <= Prod(kp, error) <= Prod(Abs(kp), e)
  {
    var k := Abs(kp);
    MulMono(error, e, k);
    MulMono(-error, e, k);
    assert Prod(error, k) == k * error && Prod(-error, k) == -(k * error) && Prod(e, k) == Prod(k, e);
    assert kp >= 0.0 ==> Prod(kp, error) == k * error;
    assert kp < 0.0 ==> Prod(kp, error) == -(k * error);
  }

  lemma DerivativeBound(p: Pid, error: real, dt: real, e: real, d: real)
    requires p.gains.kd >= 0.0 && dt >= d > 0.0 && e >= 0.0
    requires Abs(error) <= e && (p.prevError.Some? ==> Abs(p.prevError.value) <= e)
    ensures var b := Quot(Prod(p.gains.kd, e + e), d);
            -b <= DerivativeTerm(p, error, dt) <= b
  {
    var b := Quot(Prod(p.gains.kd, e + e), d);
    DivMul(Prod(p.gains.kd, e + e), d);
    Signs(p.gains.kd, e + e);
    QuotientBounds(Prod(p.gains.kd, e + e), d, 0.0);
    assert Prod(0.0, d) == 0.0;
    if p.prevError.Some? {
      var x := error - p.prevError.value;
      ProportionalBound(p.gains.kd, x, e + e);
      MulMono(d, dt, b);
      assert Prod(d, b) == Prod(b, d) && Prod(dt, b) == Prod(b, dt) && Prod(-b, dt) == -Prod(b, dt);
      QuotientBounds(Prod(p.gains.kd, x), dt, b);
      QuotientBounds(Prod(p.gains.kd, x), dt, -b);
    }
  }

  ghost predicate WithinBound(p: Pid, e: real, d: real)
    requires d > 0.0
  {
    && Abs(Prod(p.gains.ki, p.integral)) <= WindupBound(p, e, d)
    && (p.prevError.Some? ==> Abs(p.prevError.value) <= e)
  }

  lemma StepWithinBound(p: Pid, error: real, dt: real, e: real, d: real)
    requires ValidPid(p) && dt >= d > 0.0 && e >= 0.0 && Abs(error) <= e && WithinBound(p, e, d)
    ensures WithinBound(Next(p, error, dt), e, d)
  {
    hide Prod, Quot;
    ProportionalBound(p.gains.kp, error, e);
    DerivativeBound(p, error, dt, e, d);
  }

  lemma BoundNonneg(p: Pid, e: real, d: real)
    requires ValidPid(p) && e >= 0.0 && d > 0.0
    ensures WithinBound(p.(integral := 0.0, prevError := None), e, d)
  {
    Signs(Abs(p.gains.kp), e);
    Signs(p.gains.kd, e + e);
    QuotientBounds(Prod(p.gains.kd, e + e), d, 0.0);
    assert Prod(0.0, d) == 0.0 && Prod(p.gains.ki, 0.0) == 0.0;
  }

  /**
   With a derivative term too, bounded errors and time steps bounded below keep the
   integral's contribution under one fixed bound over runs of any length.
   */
  lemma {:induction false} WindupBounded(p: Pid, calls: seq<Call>, e: real, d: real)
    requires ValidPid(p) && p.integral == 0.0 && p.prevError.None? && e >= 0.0 && d > 0.0 && BoundedCalls(calls, e, d)
    ensures ValidPid(Run(p, calls)) && WithinBound(Run(p, calls), e, d)
    ensures WindupBound(Run(p, calls), e, d) == WindupBound(p, e, d)
  {
    hide Next, Prod, Quot, Abs;
    RunKeepsConstants(p, calls);
    if calls == [] {
      BoundNonneg(p, e, d);
    } else {
      var front, c := calls[..|calls| - 1], calls[|calls| - 1];
      assert forall k :: 0 <= k < |front| ==> front[k] == calls[k];
      WindupBounded(p, front, e, d);
      RunKeepsConstants(p, front);
      BoundNonneg(Run(p, front), e, d);
      if c.Update? && c.dt > 0.0 {
        StepWithinBound(Run(p, front), c.error, c.dt, e, d);
      }
    }
  }
}
