/** loadgen/arrival.py: arrival processes over a stream of draws, and the open-loop scheduler. */
module Arrival {
  import opened Prelude
  import opened RealArith

  /** Exponential draws: never negative, possibly zero. */
  ghost predicate Nonnegative(draws: nat -> real) {
    forall i: nat :: draws(i) >= 0.0
  }

  /** Sum of the `n` draws from position `i`. */
  function Sum(draws: nat -> real, i: nat, n: nat): real {
    if n == 0 then 0.0 else Sum(draws, i, n - 1) + draws(i + n - 1)
  }

  lemma {:induction false} SumShift(draws: nat -> real, i: nat, n: nat)
    requires n > 0
    ensures Sum(draws, i, n) == draws(i) + Sum(draws, i + 1, n - 1)
  {
    if n > 1 {
      SumShift(draws, i, n - 1);
    }
  }

  lemma {:induction false} SumNonnegative(draws: nat -> real, i: nat, n: nat)
    requires Nonnegative(draws)
    ensures Sum(draws, i, n) >= 0.0
  {
    if n > 0 {
      SumNonnegative(draws, i, n - 1);
    }
  }

  ghost predicate Nondecreasing(s: seq<real>) {
    forall i, j :: 0 <= i < j < |s| ==> s[i] <= s[j]
  }

  ghost predicate Increasing(s: seq<real>) {
    forall i, j :: 0 <= i < j < |s| ==> s[i] < s[j]
  }

  // ---------- when the draws reach a bound ----------

  ghost predicate Reaches(draws: nat -> real, i: nat, x: real) {
    exists n: nat :: Sum(draws, i, n) >= x
  }

  ghost predicate Below(draws: nat -> real, i: nat, x: real, n: nat) {
    forall m: nat :: m < n ==> Sum(draws, i, m) < x
  }

  lemma LeastExists(draws: nat -> real, i: nat, x: real)
    requires Reaches(draws, i, x)
    ensures exists n: nat :: Sum(draws, i, n) >= x && Below(draws, i, x, n)
  {
    var last: nat :| Sum(draws, i, last) >= x;
    var n: nat := 0;
    while Sum(draws, i, n) < x
      invariant n <= last && Below(draws, i, x, n)
      decreases last - n
    {
      n := n + 1;
    }
    assert Sum(draws, i, n) >= x && Below(draws, i, x, n);
  }

  /** How many draws it takes. */
  ghost function Least(draws: nat -> real, i: nat, x: real): (n: nat)
    requires Reaches(draws, i, x)
    ensures Sum(draws, i, n) >= x && Below(draws, i, x, n)
  {
    LeastExists(draws, i, x);
    var n: nat :| Sum(draws, i, n) >= x && Below(draws, i, x, n);
    n
  }

  lemma ReachesNext(draws: nat -> real, i: nat, x: real)
    requires Reaches(draws, i, x) && x > 0.0
    ensures Reaches(draws, i + 1, x - draws(i))
    ensures Least(draws, i + 1, x - draws(i)) < Least(draws, i, x)
  {
    var n := Least(draws, i, x);
    SumShift(draws, i, n);
    assert Sum(draws, i + 1, n - 1) >= x - draws(i);
  }

  // ---------- one ON phase ----------

  /** Arrivals of one phase that starts at `t` and ends at `end`, drawing from position `i`. */
  function Phase(draws: nat -> real, i: nat, t: real, end: real): seq<real>
    requires Reaches(draws, i, end - t)
    decreases Least(draws, i, end - t)
  {
    if t >= end then []
    else
      ReachesNext(draws, i, end - t);
      var t' := t + draws(i);
      assert end - t' == (end - t) - draws(i);
      if t' < end then [t'] + Phase(draws, i + 1, t', end) else []
  }

  lemma Reassociate(a: seq<real>, b: seq<real>, c: seq<real>)
    ensures a + b + c == a + (b + c)
  {}

  lemma PhaseUnfolds(draws: nat -> real, i: nat, t: real, end: real)
    requires Reaches(draws, i, end - t)
    ensures t >= end ==> Phase(draws, i, t, end) == []
    ensures t < end ==>
              var t' := t + draws(i);
              && Reaches(draws, i + 1, end - t')
              && Least(draws, i + 1, end - t') < Least(draws, i, end - t)
              && Phase(draws, i, t, end) == (if t' < end then [t'] + Phase(draws, i + 1, t', end) else [])
  {
    hide Reaches;
    if t < end {
      ReachesNext(draws, i, end - t);
      assert end - (t + draws(i)) == (end - t) - draws(i);
    }
  }

  /** Arrivals are the running sums of the draws that stay below `end`; one more draw would cross it. */
  lemma {:induction false} PhaseMeaning(draws: nat -> real, i: nat, t: real, end: real)
    requires Reaches(draws, i, end - t) && t < end
    ensures var s := Phase(draws, i, t, end);
            && (forall k :: 0 <= k < |s| ==> s[k] == t + Sum(draws, i, k + 1) && s[k] < end)
            && t + Sum(draws, i, |s| + 1) >= end
    decreases Least(draws, i, end - t)
  {
    hide Phase, Reaches;
    PhaseUnfolds(draws, i, t, end);
    var t', s := t + draws(i), Phase(draws, i, t, end);
    SumShift(draws, i, |s| + 1);
    if t' < end {
      var rest := Phase(draws, i + 1, t', end);
      PhaseMeaning(draws, i + 1, t', end);
      forall k | 0 <= k < |s| ensures s[k] == t + Sum(draws, i, k + 1) && s[k] < end {
        SumShift(draws, i, k + 1);
        assert k > 0 ==> s[k] == rest[k - 1];
      }
    } else {
      assert Sum(draws, i + 1, 0) == 0.0;
    }
  }

  /** No draw after the first of these is zero. */
  ghost predicate PositiveGaps(draws: nat -> real, i: nat, len: nat) {
    forall j :: i < j < i + len ==> draws(j) > 0.0
  }

  lemma GapsNext(draws: nat -> real, i: nat, n: nat)
    ensures PositiveGaps(draws, i, 0)
    ensures PositiveGaps(draws, i, n + 1) <==> PositiveGaps(draws, i, n) && (n > 0 ==> draws(i + n) > 0.0)
  {}

  /** One more element that is at least the last. */
  lemma SnocOrdered(s: seq<real>)
    requires s != [] && Nondecreasing(s[..|s| - 1]) && (|s| > 1 ==> s[|s| - 2] <= s[|s| - 1])
    ensures Nondecreasing(s)
    ensures Increasing(s) <==> Increasing(s[..|s| - 1]) && (|s| > 1 ==> s[|s| - 2] < s[|s| - 1])
  {
    var front, n := s[..|s| - 1], |s| - 1;
    forall j | 0 <= j < n ensures s[j] <= s[n - 1] {
      assert j < n - 1 ==> front[j] <= front[n - 1];
    }
    forall i, j | 0 <= i < j < n ensures s[i] <= s[j] && (Increasing(front) ==> s[i] < s[j]) {
      assert front[i] <= front[j];
    }
    if Increasing(s) {
      forall i, j | 0 <= i < j < n ensures front[i] < front[j] {
        assert s[i] < s[j];
      }
    }
  }

  /** Running sums of nonnegative draws never fall, and rise strictly exactly when no later draw is zero. */
  lemma {:induction false} RunningSums(draws: nat -> real, i: nat, t: real, s: seq<real>)
    requires Nonnegative(draws) && forall k :: 0 <= k < |s| ==> s[k] == t + Sum(draws, i, k + 1)
    ensures Nondecreasing(s) && (forall k :: 0 <= k < |s| ==> t <= s[k])
    ensures Increasing(s) <==> PositiveGaps(draws, i, |s|)
  {
    hide PositiveGaps;
    if s == [] {
      GapsNext(draws, i, 0);
    } else {
      var n := |s| - 1;
      RunningSums(draws, i, t, s[..n]);
      SumNonnegative(draws, i, n + 1);
      GapsNext(draws, i, n);
      assert n > 0 ==> s[n] == s[n - 1] + draws(i + n);
      SnocOrdered(s);
      forall k | 0 <= k < |s| ensures t <= s[k] {
        assert k < n ==> t <= s[..n][k];
      }
    }
  }

  // ---------- all cycles ----------

  datatype OnOff = OnOff(onDur: real, offDur: real)

  ghost predicate ValidOnOff(c: OnOff) {
    c.onDur > 0.0 && c.offDur > 0.0
  }

  function Start(c: OnOff, k: nat): real {
    Prod(k as real, c.onDur + c.offDur)
  }

  function OnEnd(c: OnOff, k: nat, duration: real): real {
    if Start(c, k) + c.onDur > duration then duration else Start(c, k) + c.onDur
  }

  /**
   The draws reach the end of each of the first `n` ON phases: exactly what it takes for
   their loops to finish.
   */
  ghost predicate Ends(draws: nat -> real, pos: nat, c: OnOff, duration: real, n: nat)
    decreases n, 0
  {
    n == 0 || (Ends(draws, pos, c, duration, n - 1)
               && Reaches(draws, PhasePos(draws, pos, c, duration, n - 1), OnEnd(c, n - 1, duration) - Start(c, n - 1)))
  }

  /** Position of the first draw of phase `k`: every earlier phase spent one draw more than it has arrivals. */
  function PhasePos(draws: nat -> real, pos: nat, c: OnOff, duration: real, k: nat): nat
    requires Ends(draws, pos, c, duration, k)
    decreases k, 2
  {
    pos + |Through(draws, pos, c, duration, k)| + k
  }

  /** Arrivals of the first `n` cycles. */
  function Through(draws: nat -> real, pos: nat, c: OnOff, duration: real, n: nat): seq<real>
    requires Ends(draws, pos, c, duration, n)
    decreases n, 1
  {
    if n == 0 then []
    else
      Through(draws, pos, c, duration, n - 1)
      + Phase(draws, PhasePos(draws, pos, c, duration, n - 1), Start(c, n - 1), OnEnd(c, n - 1, duration))
  }

  /** Number of cycles that start before the duration. */
  function Cycles(c: OnOff, duration: real): nat
    requires ValidOnOff(c)
  {
    if duration <= 0.0 then 0
    else
      var q := Quot(duration, c.onDur + c.offDur).Floor;
      if q < 0 then 0 else if Start(c, q) < duration then q + 1 else q
  }

  /** A cycle is visited exactly when it starts before the duration. */
  lemma CycleVisited(c: OnOff, duration: real, k: nat)
    requires ValidOnOff(c)
    ensures Start(c, k) < duration <==> k < Cycles(c, duration)
    ensures k < Cycles(c, duration) <==> k as real * (c.onDur + c.offDur) < duration
    ensures duration > 0.0 ==> 0 < Cycles(c, duration) <= Quot(duration, c.onDur + c.offDur).Floor + 1
  {
    var cycle := c.onDur + c.offDur;
    ProductSign(k as real, cycle);
    assert Prod(0.0, cycle) == 0.0 && Start(c, k) == k as real * cycle;
    if duration > 0.0 {
      var x := Quot(duration, cycle);
      var q := x.Floor;
      QuotientBounds(duration, cycle, 0.0);
      QuotientBounds(duration, cycle, k as real);
      QuotientBounds(duration, cycle, q as real);
      assert Start(c, k) < duration ==> k as real <= x;
      if k > q {
        assert k as real >= q as real + 1.0 > x;
      } else if k < q {
        MulMonoStrict(k as real, q as real, cycle);
      }
    }
  }

  /** The draws from `pos` let a whole sample of this duration finish. */
  ghost predicate Finishes(draws: nat -> real, pos: nat, c: OnOff, duration: real)
    requires ValidOnOff(c)
  {
    Ends(draws, pos, c, duration, Cycles(c, duration))
  }

  /** The whole schedule. */
  function Schedule(draws: nat -> real, pos: nat, c: OnOff, duration: real): seq<real>
    requires ValidOnOff(c) && Finishes(draws, pos, c, duration)
  {
    Through(draws, pos, c, duration, Cycles(c, duration))
  }

  /** Draws whose sums are unbounded, such as draws bounded away from zero, let every sample finish. */
  ghost predicate Diverges(draws: nat -> real) {
    forall i: nat, x: real :: Reaches(draws, i, x)
  }

  lemma {:induction false} DivergingEnds(draws: nat -> real, pos: nat, c: OnOff, duration: real, n: nat)
    requires Diverges(draws)
    ensures Ends(draws, pos, c, duration, n)
  {
    hide Reaches, Start, OnEnd;
    if n > 0 {
      DivergingEnds(draws, pos, c, duration, n - 1);
    }
  }

  lemma {:induction false} SumAtLeast(draws: nat -> real, eps: real, i: nat, n: nat)
    requires forall k: nat :: draws(k) >= eps
    ensures Sum(draws, i, n) >= Prod(n as real, eps)
  {
    if n > 0 {
      SumAtLeast(draws, eps, i, n - 1);
      assert Prod(n as real, eps) == Prod((n - 1) as real, eps) + eps;
    }
  }

  lemma BoundedAwayDiverges(draws: nat -> real, eps: real)
    requires eps > 0.0 && forall k: nat :: draws(k) >= eps
    ensures Diverges(draws)
  {
    forall i: nat, x: real ensures Reaches(draws, i, x) {
      var n := Max(0, Quot(x, eps).Floor + 1);
      SumAtLeast(draws, eps, i, n);
      QuotientBounds(x, eps, n as real);
    }
  }

  /** `o` lies in the ON window of cycle `k`, and before the end. */
  ghost predicate Inside(c: OnOff, duration: real, k: nat, o: real) {
    var start := k as real * (c.onDur + c.offDur);
    start <= o < start + c.onDur && o < duration
  }

  lemma InsideForm(c: OnOff, duration: real, k: nat, o: real)
    ensures Inside(c, duration, k, o) <==> Start(c, k) <= o < OnEnd(c, k, duration)
  {}

  ghost predicate InsideSome(c: OnOff, duration: real, n: nat, o: real) {
    exists k: nat :: k < n && Inside(c, duration, k, o)
  }

  ghost predicate Windowed(c: OnOff, duration: real, n: nat, s: seq<real>) {
    forall i :: 0 <= i < |s| ==> InsideSome(c, duration, n, s[i])
  }

  lemma WindowsOrdered(c: OnOff, duration: real, j: nat, k: nat)
    requires ValidOnOff(c) && j < k
    ensures OnEnd(c, j, duration) < Start(c, k)
    ensures Start(c, j) >= 0.0
  {
    var cycle := c.onDur + c.offDur;
    MulMono((j + 1) as real, k as real, cycle);
    assert Prod((j + 1) as real, cycle) == Prod(j as real, cycle) + cycle;
    ProductSign(j as real, cycle);
  }

  /** In each of the first `n` phases, no draw after the first that gave an arrival is zero. */
  ghost predicate NoZeroGap(draws: nat -> real, pos: nat, c: OnOff, duration: real, n: nat)
    requires Ends(draws, pos, c, duration, n)
  {
    n == 0
    || (NoZeroGap(draws, pos, c, duration, n - 1)
        && var i := PhasePos(draws, pos, c, duration, n - 1);
           PositiveGaps(draws, i, |Phase(draws, i, Start(c, n - 1), OnEnd(c, n - 1, duration))|))
  }

  lemma NothingYet(draws: nat -> real, pos: nat, c: OnOff, duration: real)
    ensures Ends(draws, pos, c, duration, 0) && Through(draws, pos, c, duration, 0) == []
    ensures Windowed(c, duration, 0, []) && Nondecreasing([]) && Increasing([])
  {}

  lemma {:induction false} ThroughSound(draws: nat -> real, pos: nat, c: OnOff, duration: real, n: nat)
    requires Nonnegative(draws) && ValidOnOff(c) && n <= Cycles(c, duration) && Ends(draws, pos, c, duration, n)
    ensures var s := Through(draws, pos, c, duration, n);
            && Windowed(c, duration, n, s) && Nondecreasing(s)
            && (Increasing(s) <==> NoZeroGap(draws, pos, c, duration, n))
  {
    hide Start, OnEnd, Cycles, Phase, Sum, Reaches, Nonnegative, Nondecreasing, Increasing, PositiveGaps, Windowed;
    if n == 0 {
      NothingYet(draws, pos, c, duration);
    } else {
      ThroughSound(draws, pos, c, duration, n - 1);
      var i := PhasePos(draws, pos, c, duration, n - 1);
      CycleVisited(c, duration, n - 1);
      PhaseSound(draws, i, c, duration, n - 1);
      OneMoreCycle(c, duration, n - 1, Through(draws, pos, c, duration, n - 1),
                   Phase(draws, i, Start(c, n - 1), OnEnd(c, n - 1, duration)));
    }
  }

  lemma PhaseSound(draws: nat -> real, i: nat, c: OnOff, duration: real, k: nat)
    requires Nonnegative(draws) && ValidOnOff(c) && Start(c, k) < duration
    requires Reaches(draws, i, OnEnd(c, k, duration) - Start(c, k))
    ensures var block := Phase(draws, i, Start(c, k), OnEnd(c, k, duration));
            && (forall j :: 0 <= j < |block| ==> Inside(c, duration, k, block[j]))
            && Nondecreasing(block) && (Increasing(block) <==> PositiveGaps(draws, i, |block|))
  {
    hide Phase, Reaches, Start, OnEnd, Inside;
    WindowOpen(c, duration, k);
    PhaseMeaning(draws, i, Start(c, k), OnEnd(c, k, duration));
    var block := Phase(draws, i, Start(c, k), OnEnd(c, k, duration));
    RunningSums(draws, i, Start(c, k), block);
    forall j | 0 <= j < |block| ensures Inside(c, duration, k, block[j]) {
      InsideForm(c, duration, k, block[j]);
    }
  }

  lemma OneMoreCycle(c: OnOff, duration: real, n: nat, front: seq<real>, block: seq<real>)
    requires ValidOnOff(c) && Windowed(c, duration, n, front) && Nondecreasing(front) && Nondecreasing(block)
    requires forall i :: 0 <= i < |block| ==> Inside(c, duration, n, block[i])
    ensures Windowed(c, duration, n + 1, front + block) && Nondecreasing(front + block)
    ensures Increasing(front + block) <==> Increasing(front) && Increasing(block)
  {
    hide Start, OnEnd, Inside;
    forall i | 0 <= i < |front| ensures InsideSome(c, duration, n + 1, front[i]) && front[i] < Start(c, n) {
      assert InsideSome(c, duration, n, front[i]);
      var k: nat :| k < n && Inside(c, duration, k, front[i]);
      assert Inside(c, duration, k, front[i]);
      InsideForm(c, duration, k, front[i]);
      WindowsOrdered(c, duration, k, n);
    }
    forall i | 0 <= i < |block| ensures InsideSome(c, duration, n + 1, block[i]) && Start(c, n) <= block[i] {
      assert Inside(c, duration, n, block[i]);
      InsideForm(c, duration, n, block[i]);
    }
    ConcatIncreasing(front, block, Start(c, n));
  }

  /** A list below a bound followed by one from it on. */
  lemma ConcatIncreasing(front: seq<real>, block: seq<real>, x: real)
    requires forall i :: 0 <= i < |front| ==> front[i] < x
    requires forall i :: 0 <= i < |block| ==> x <= block[i]
    ensures Increasing(front + block) <==> Increasing(front) && Increasing(block)
  {
    var s := front + block;
    if Increasing(s) {
      forall i, j | 0 <= i < j < |front| ensures front[i] < front[j] {
        assert s[i] < s[j];
      }
      forall i, j | 0 <= i < j < |block| ensures block[i] < block[j] {
        assert s[|front| + i] < s[|front| + j];
      }
    }
  }

  lemma WindowOpen(c: OnOff, duration: real, k: nat)
    requires ValidOnOff(c) && Start(c, k) < duration
    ensures Start(c, k) < OnEnd(c, k, duration) <= duration
  {}

  /**
   Every offset of the schedule is inside the ON window of a cycle that starts before the
   duration and below the duration, and offsets never fall.  They are strictly increasing
   exactly when no draw within a phase, after its first, is zero.
   */
  lemma ScheduleSound(draws: nat -> real, pos: nat, c: OnOff, duration: real)
    requires Nonnegative(draws) && ValidOnOff(c) && Finishes(draws, pos, c, duration)
    ensures var s := Schedule(draws, pos, c, duration);
            && Windowed(c, duration, Cycles(c, duration), s) && Nondecreasing(s)
            && (forall i :: 0 <= i < |s| ==> 0.0 <= s[i] < duration)
            && (Increasing(s) <==> NoZeroGap(draws, pos, c, duration, Cycles(c, duration)))
  {
    hide Cycles, Through, Start, OnEnd, Ends, NoZeroGap, Nonnegative, Inside;
    var n := Cycles(c, duration);
    ThroughSound(draws, pos, c, duration, n);
    var s := Schedule(draws, pos, c, duration);
    forall i | 0 <= i < |s| ensures 0.0 <= s[i] < duration {
      assert InsideSome(c, duration, n, s[i]);
      var k: nat :| k < n && Inside(c, duration, k, s[i]);
      InsideForm(c, duration, k, s[i]);
      CycleVisited(c, duration, k);
      WindowOpen(c, duration, k);
      WindowsOrdered(c, duration, k, k + 1);
    }
  }

  /**
   One ON phase in full: from the start of cycle `k`, the running sums of the draws from
   position `i` on that stay before the phase's end, all of them.
   */
  ghost predicate Burst(draws: nat -> real, i: nat, c: OnOff, duration: real, k: nat, block: seq<real>) {
    var start := k as real * (c.onDur + c.offDur);
    var end := if start + c.onDur > duration then duration else start + c.onDur;
    && (forall j :: 0 <= j < |block| ==> block[j] == start + Sum(draws, i, j + 1) && block[j] < end)
    && start + Sum(draws, i, |block| + 1) >= end
  }

  /** Where each visited cycle's arrivals begin and end in the schedule. */
  ghost predicate CutAt(draws: nat -> real, pos: nat, c: OnOff, duration: real, s: seq<real>, n: nat, cuts: seq<nat>) {
    && |cuts| == n + 1 && cuts[0] == 0 && cuts[n] == |s|
    && forall k :: 0 <= k < n ==> CycleIs(draws, pos, c, duration, s, cuts, k)
  }

  /** Cycle `k`'s part of the schedule is its burst; each cycle before spent one draw more than it has arrivals. */
  ghost predicate CycleIs(draws: nat -> real, pos: nat, c: OnOff, duration: real, s: seq<real>, cuts: seq<nat>, k: nat)
    requires k + 1 < |cuts|
  {
    && cuts[k] <= cuts[k + 1] <= |s|
    && Burst(draws, pos + cuts[k] + k, c, duration, k, s[cuts[k]..cuts[k + 1]])
  }

  lemma PhaseBurst(draws: nat -> real, i: nat, c: OnOff, duration: real, k: nat)
    requires ValidOnOff(c) && Start(c, k) < duration && Reaches(draws, i, OnEnd(c, k, duration) - Start(c, k))
    ensures Burst(draws, i, c, duration, k, Phase(draws, i, Start(c, k), OnEnd(c, k, duration)))
  {
    hide Phase, Reaches;
    WindowOpen(c, duration, k);
    PhaseMeaning(draws, i, Start(c, k), OnEnd(c, k, duration));
  }

  lemma CutsExtend(draws: nat -> real, pos: nat, c: OnOff, duration: real, front: seq<real>, n: nat, cuts: seq<nat>, block: seq<real>)
    requires CutAt(draws, pos, c, duration, front, n, cuts) && Burst(draws, pos + |front| + n, c, duration, n, block)
    ensures CutAt(draws, pos, c, duration, front + block, n + 1, cuts + [|front + block|])
  {
    hide Burst;
    var s, more := front + block, cuts + [|front + block|];
    forall k | 0 <= k < n + 1 ensures CycleIs(draws, pos, c, duration, s, more, k) {
      if k < n {
        assert CycleIs(draws, pos, c, duration, front, cuts, k);
        assert s[cuts[k]..cuts[k + 1]] == front[cuts[k]..cuts[k + 1]];
      } else {
        assert s[|front|..|s|] == block;
      }
    }
  }

  lemma {:induction false} ThroughCuts(draws: nat -> real, pos: nat, c: OnOff, duration: real, n: nat) returns (cuts: seq<nat>)
    requires ValidOnOff(c) && n <= Cycles(c, duration) && Ends(draws, pos, c, duration, n)
    ensures CutAt(draws, pos, c, duration, Through(draws, pos, c, duration, n), n, cuts)
  {
    hide Start, OnEnd, Cycles, Phase, Sum, Reaches, Burst;
    cuts := [0];
    if n > 0 {
      cuts := ThroughCuts(draws, pos, c, duration, n - 1);
      CycleVisited(c, duration, n - 1);
      var i := PhasePos(draws, pos, c, duration, n - 1);
      PhaseBurst(draws, i, c, duration, n - 1);
      var front, block := Through(draws, pos, c, duration, n - 1), Phase(draws, i, Start(c, n - 1), OnEnd(c, n - 1, duration));
      CutsExtend(draws, pos, c, duration, front, n - 1, cuts, block);
      cuts := cuts + [|front + block|];
    }
  }

  /**
   The whole schedule, from the stream of draws: cycle by cycle, in order, each visited
   cycle's arrivals are its burst, and a cycle's draws follow the one that ended the last.
   */
  lemma ScheduleMeaning(draws: nat -> real, pos: nat, c: OnOff, duration: real) returns (cuts: seq<nat>)
    requires ValidOnOff(c) && Finishes(draws, pos, c, duration)
    ensures CutAt(draws, pos, c, duration, Schedule(draws, pos, c, duration), Cycles(c, duration), cuts)
  {
    hide Cycles, Through, CutAt, Ends;
    cuts := ThroughCuts(draws, pos, c, duration, Cycles(c, duration));
  }

  /** With positive draws the schedule is strictly increasing, as documented. */
  lemma {:induction false} PositiveNoZeroGap(draws: nat -> real, pos: nat, c: OnOff, duration: real, n: nat)
    requires Ends(draws, pos, c, duration, n) && forall i: nat :: draws(i) > 0.0
    ensures NoZeroGap(draws, pos, c, duration, n)
  {
    hide Phase, Start, OnEnd, Reaches;
    if n > 0 {
      PositiveNoZeroGap(draws, pos, c, duration, n - 1);
    }
  }

  /** One zero draw, which an exponential variate can be, repeats an offset. */
  lemma ZeroDrawRepeats()
    ensures var draws := (i: nat) => if i == 1 then 0.0 else 0.6;
            var c := OnOff(1.0, 1.0);
            && Nonnegative(draws) && Finishes(draws, 0, c, 1.0)
            && Schedule(draws, 0, c, 1.0) == [0.6, 0.6]
  {
    hide Phase;
    var draws, c := (i: nat) => if i == 1 then 0.0 else 0.6, OnOff(1.0, 1.0);
    CycleVisited(c, 1.0, 0);
    CycleVisited(c, 1.0, 1);
    StartAdvances(c, 0);
    assert Cycles(c, 1.0) == 1;
    assert Sum(draws, 0, 1) == 0.6 && Sum(draws, 0, 2) == 0.6 && Sum(draws, 0, 3) == 1.2;
    assert Reaches(draws, 0, 1.0);
    assert Ends(draws, 0, c, 1.0, 0) && Ends(draws, 0, c, 1.0, 1);
    PhaseUnfolds(draws, 0, 0.0, 1.0);
    PhaseUnfolds(draws, 1, 0.6, 1.0);
    PhaseUnfolds(draws, 2, 0.6, 1.0);
    assert Phase(draws, 0, 0.0, 1.0) == [0.6, 0.6];
  }

  lemma StartAdvances(c: OnOff, k: nat)
    ensures Start(c, k) == Prod(k as real, c.onDur + c.offDur)
    ensures Start(c, k + 1) == Start(c, k) + (c.onDur + c.offDur)
    ensures Start(c, 0) == 0.0
  {}

  // ---------- the generators ----------

  /** `rng` is the stream of draws; `pos` counts the draws already taken. */
  class OnOffArrival {
    const shape: OnOff
    const rng: nat -> real
    var pos: nat

    constructor (shape: OnOff, rng: nat -> real)
      requires ValidOnOff(shape)
      ensures this.shape == shape && this.rng == rng && pos == 0
    {
      this.shape, this.rng, pos := shape, rng, 0;
    }

    /** One ON phase: draw until the clock crosses its end. */
    method SamplePhase(start: real, end: real) returns (block: seq<real>)
      requires start < end && Reaches(rng, pos, end - start)
      modifies this
      ensures block == Phase(rng, old(pos), start, end)
      ensures pos == old(pos) + |block| + 1
    {
      hide Phase, Reaches;
      block := [];
      var phaseT := start;
      while phaseT < end
        invariant pos == old(pos) + |block| + if phaseT < end then 0 else 1
        invariant Reaches(rng, pos, end - phaseT)
        invariant block + Phase(rng, pos, phaseT, end) == Phase(rng, old(pos), start, end)
        decreases Least(rng, pos, end - phaseT)
      {
        PhaseUnfolds(rng, pos, phaseT, end);
        Reassociate(block, [phaseT + rng(pos)], Phase(rng, pos + 1, phaseT + rng(pos), end));
        phaseT := phaseT + rng(pos);
        pos := pos + 1;
        PhaseUnfolds(rng, pos, phaseT, end);
        if phaseT < end {
          block := block + [phaseT];
        }
      }
      PhaseUnfolds(rng, pos, phaseT, end);
      assert block + [] == block;
    }

    /** Visits every cycle that starts before the duration; the safety stop is never taken. */
    method Sample(duration: real) returns (offsets: seq<real>)
      requires ValidOnOff(shape) && Finishes(rng, pos, shape, duration)
      modifies this
      ensures Finishes(rng, old(pos), shape, duration) && offsets == Schedule(rng, old(pos), shape, duration)
      ensures pos == old(pos) + |offsets| + Cycles(shape, duration)
    {
      hide Cycles, Phase, Start, OnEnd, Through, PhasePos, Ends, Reaches, Prod, Quot, ValidOnOff;
      ghost var n := Cycles(shape, duration);
      CycleStarts(rng, pos, shape, duration);
      offsets := [];
      if duration <= 0.0 {
        return;
      }
      var cycle := shape.onDur + shape.offDur;
      var nCycles := Quot(duration, cycle).Floor + 1;
      var t, cycleIdx := 0.0, 0;
      while t < duration
        invariant 0 <= cycleIdx <= n && t == Start(shape, cycleIdx)
        invariant Ends(rng, old(pos), shape, duration, cycleIdx)
        invariant offsets == Through(rng, old(pos), shape, duration, cycleIdx)
        invariant pos == old(pos) + |offsets| + cycleIdx
        decreases n - cycleIdx
      {
        CycleStep(rng, old(pos), shape, duration, cycleIdx);
        var cycleStart := Prod(cycleIdx as real, cycle);
        var onEnd := cycleStart + shape.onDur;
        if onEnd > duration {
          onEnd := duration;
        }
        var block := SamplePhase(cycleStart, onEnd);
        offsets := offsets + block;
        t := cycleStart + cycle;
        cycleIdx := cycleIdx + 1;
        if cycleIdx > nCycles + 1 {
          assert false;
          break;
        }
      }
      CycleVisited(shape, duration, cycleIdx);
    }
  }

  /** Before the first cycle. */
  lemma CycleStarts(draws: nat -> real, pos: nat, c: OnOff, duration: real)
    requires ValidOnOff(c) && Finishes(draws, pos, c, duration)
    ensures Ends(draws, pos, c, duration, 0) && Through(draws, pos, c, duration, 0) == []
    ensures Start(c, 0) == 0.0 && c.onDur + c.offDur > 0.0
    ensures duration <= 0.0 ==> Cycles(c, duration) == 0
  {
    StartAdvances(c, 0);
  }

  /** What the loop's body needs of the cycle it visits. */
  lemma CycleStep(draws: nat -> real, pos: nat, c: OnOff, duration: real, k: nat)
    requires ValidOnOff(c) && Finishes(draws, pos, c, duration) && Start(c, k) < duration
    requires duration > 0.0
    ensures k < Cycles(c, duration) && k <= Quot(duration, c.onDur + c.offDur).Floor
    ensures Ends(draws, pos, c, duration, k) && Ends(draws, pos, c, duration, k + 1)
    ensures Start(c, k) == Prod(k as real, c.onDur + c.offDur) && Start(c, k + 1) == Start(c, k) + (c.onDur + c.offDur)
    ensures var stop := if Start(c, k) + c.onDur > duration then duration else Start(c, k) + c.onDur;
            var i := pos + |Through(draws, pos, c, duration, k)| + k;
            && Start(c, k) < stop && Reaches(draws, i, stop - Start(c, k))
            && Through(draws, pos, c, duration, k + 1)
               == Through(draws, pos, c, duration, k) + Phase(draws, i, Start(c, k), stop)
  {
    hide Cycles, Phase, Prod, Quot, Reaches;
    StartAdvances(c, k);
    CycleVisited(c, duration, k);
    WindowOpen(c, duration, k);
    EndsPrefix(draws, pos, c, duration, k + 1, Cycles(c, duration));
  }

  lemma {:induction false} EndsPrefix(draws: nat -> real, pos: nat, c: OnOff, duration: real, k: nat, n: nat)
    requires k <= n && Ends(draws, pos, c, duration, n)
    ensures Ends(draws, pos, c, duration, k)
  {
    if k < n {
      EndsPrefix(draws, pos, c, duration, k, n - 1);
    }
  }

  /** The Poisson process: running sums of the draws; a negative count is refused. */
  method SamplePoisson(rng: nat -> real, n: int) returns (r: Option<seq<real>>)
    requires Nonnegative(rng)
    ensures r.None? <==> n < 0
    ensures r.Some? ==>
              && |r.value| == n
              && (forall k :: 0 <= k < n ==> r.value[k] == Sum(rng, 0, k + 1))
              && Nondecreasing(r.value)
              && (Increasing(r.value) <==> PositiveGaps(rng, 0, n))
  {
    if n < 0 {
      return None;
    }
    var offsets: seq<real>, t := [], 0.0;
    for i := 0 to n
      invariant |offsets| == i && t == Sum(rng, 0, i)
      invariant forall k :: 0 <= k < i ==> offsets[k] == Sum(rng, 0, k + 1)
    {
      t := t + rng(i);
      offsets := offsets + [t];
    }
    RunningSums(rng, 0, 0.0, offsets);
    return Some(offsets);
  }

  // ---------- the scheduler ----------

  /** Python's `int`: truncates toward zero. */
  function Truncated(x: real): int {
    if x >= 0.0 then x.Floor else -((-x).Floor)
  }

  function ArrivalNs(t0: int, offset: real): int {
    t0 + Truncated(Prod(offset, 1000000000.0))
  }

  lemma ArrivalMonotone(t0: int, x: real, y: real)
    requires x <= y
    ensures ArrivalNs(t0, x) <= ArrivalNs(t0, y)
  {
    MulMono(x, y, 1000000000.0);
  }

  /** Whole nanoseconds of a time in seconds: the fraction is cut off, toward zero. */
  ghost predicate Nanoseconds(x: real, ns: int) {
    if x >= 0.0 then ns as real <= x * 1000000000.0 < ns as real + 1.0
    else ns as real - 1.0 < x * 1000000000.0 <= ns as real
  }

  lemma ArrivalInNs(t0: int, offset: real)
    ensures Nanoseconds(offset, ArrivalNs(t0, offset) - t0)
  {
    ProductSign(offset, 1000000000.0);
    assert Prod(offset, 1000000000.0) == offset * 1000000000.0;
  }

  /** Pairs the i-th arrival with the i-th request, until either runs out. */
  method Iterate<R>(t0: int, offsets: seq<real>, requests: seq<R>) returns (out: seq<(R, int)>)
    requires Nondecreasing(offsets)
    ensures |out| == Min(|offsets|, |requests|)
    ensures forall i :: 0 <= i < |out| ==> out[i] == (requests[i], ArrivalNs(t0, offsets[i]))
    ensures forall i :: 0 <= i < |out| ==> Nanoseconds(offsets[i], out[i].1 - t0)
    ensures forall i, j :: 0 <= i < j < |out| ==> out[i].1 <= out[j].1
  {
    out := [];
    for i := 0 to |offsets|
      invariant |out| == i <= |requests|
      invariant forall k :: 0 <= k < i ==> out[k] == (requests[k], ArrivalNs(t0, offsets[k]))
      invariant forall k :: 0 <= k < i ==> Nanoseconds(offsets[k], out[k].1 - t0)
      invariant forall j, k :: 0 <= j < k < i ==> out[j].1 <= out[k].1
    {
      if i >= |requests| {
        break;
      }
      forall k | 0 <= k < i ensures ArrivalNs(t0, offsets[k]) <= ArrivalNs(t0, offsets[i]) {
        ArrivalMonotone(t0, offsets[k], offsets[i]);
      }
      ArrivalInNs(t0, offsets[i]);
      out := out + [(requests[i], ArrivalNs(t0, offsets[i]))];
    }
  }

  /** From a fresh generator to the yielded pairs: in order, and inside the measured window. */
  method RunOnOff<R>(arrival: OnOffArrival, duration: real, t0: int, requests: seq<R>) returns (out: seq<(R, int)>)
    requires ValidOnOff(arrival.shape) && Nonnegative(arrival.rng)
    requires Finishes(arrival.rng, arrival.pos, arrival.shape, duration)
    modifies arrival
    ensures |out| <= |requests| && forall i :: 0 <= i < |out| ==> out[i].0 == requests[i]
    ensures Finishes(arrival.rng, old(arrival.pos), arrival.shape, duration)
    ensures var s := Schedule(arrival.rng, old(arrival.pos), arrival.shape, duration);
            |out| == Min(|s|, |requests|) && forall i :: 0 <= i < |out| ==> Nanoseconds(s[i], out[i].1 - t0)
    ensures forall i, j :: 0 <= i < j < |out| ==> out[i].1 <= out[j].1
    ensures forall i :: 0 <= i < |out| ==> t0 <= out[i].1 && (out[i].1 - t0) as real < duration * 1000000000.0
  {
    var offsets := arrival.Sample(duration);
    ScheduleSound(arrival.rng, old(arrival.pos), arrival.shape, duration);
    out := Iterate(t0, offsets, requests);
    forall i | 0 <= i < |out| ensures t0 <= out[i].1 && (out[i].1 - t0) as real < duration * 1000000000.0 {
      ArrivalMonotone(t0, 0.0, offsets[i]);
      MulMonoStrict(offsets[i], duration, 1000000000.0);
    }
  }
}
