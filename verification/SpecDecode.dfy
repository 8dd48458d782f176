/** spec/eagle.py: the draft-verify simulator with its sliding window and auto-disable. */
module SpecDecode {
  import opened Prelude
  import opened RealArith

  datatype Deployment = Colocated | Chunked | Disagg | DisaggTier

  datatype Policy = Policy(minRate: real, minWindow: nat, topology: Deployment)

  ghost predicate ValidPolicy(p: Policy) {
    0.0 <= p.minRate <= 1.0 && p.minWindow > 0
  }

  predicate Compatible(p: Policy) {
    p.topology == Colocated || p.topology == Chunked
  }

  /** Prefill and decode on pools of their own, with or without the KV tier. */
  ghost predicate Disaggregated(p: Policy) {
    p.topology == Disagg || p.topology == DisaggTier
  }

  /** The decoder's mutable state. */
  datatype Decoder = Decoder(enabled: bool, window: seq<int>, proposed: int, accepted: int)

  datatype Answer = Declined | Verified(tokens: seq<nat>, proposed: nat) | Raised

  function SumBins(s: seq<int>): int {
    if s == [] then 0 else SumBins(s[..|s| - 1]) + s[|s| - 1]
  }

  /** A deque with a maximum length keeps the last `w` entries. */
  function LastN<T>(s: seq<T>, w: nat): seq<T> {
    if |s| <= w then s else s[|s| - w..]
  }

  function ObservedRate(window: seq<int>): real {
    if window == [] then 0.0 else Quot(SumBins(window) as real, |window| as real)
  }

  /** One round's contribution: did its acceptance rate reach the threshold? */
  function Bin(p: Policy, n: int, hits: nat): int {
    var rate := if n > 0 then Quot(hits as real, n as real) else 0.0;
    if rate >= p.minRate then 1 else 0
  }

  predicate Trips(p: Policy, window: seq<int>) {
    |window| >= p.minWindow && ObservedRate(window) < p.minRate
  }

  /** One executed round of `n` drafts with `hits` acceptances. */
  function Execute(p: Policy, s: Decoder, n: int, hits: nat): Decoder {
    var window := LastN(s.window + [Bin(p, n, hits)], p.minWindow);
    Decoder(s.enabled && !Trips(p, window), window, s.proposed + n, s.accepted + hits)
  }

  /** Indices among the first `n` drafts whose draw from position `i` is below the target. */
  function Hits(rng: nat -> real, i: nat, target: real, n: nat): seq<nat> {
    if n == 0 then [] else Hits(rng, i, target, n - 1) + if rng(i + n - 1) < target then [n - 1] else []
  }

  lemma HitsNext(rng: nat -> real, i: nat, target: real, n: nat)
    ensures Hits(rng, i, target, 0) == []
    ensures Hits(rng, i, target, n + 1) == Hits(rng, i, target, n) + if rng(i + n) < target then [n] else []
  {}

  lemma {:induction false} HitsBounded(rng: nat -> real, i: nat, target: real, n: nat)
    ensures |Hits(rng, i, target, n)| <= n
  {
    if n > 0 {
      HitsBounded(rng, i, target, n - 1);
    }
  }

  /** Draft `j` of a round that draws from position `i`: its own draw fell below the target. */
  ghost predicate Accepts(rng: nat -> real, i: nat, target: real, j: nat) {
    rng(i + j) < target
  }

  /** The accepted drafts of a round, in ascending order. */
  lemma {:induction false} HitsMeaning(rng: nat -> real, i: nat, target: real, n: nat)
    ensures var hits := Hits(rng, i, target, n);
            && (forall k :: 0 <= k < |hits| ==> hits[k] < n && Accepts(rng, i, target, hits[k]))
            && (forall j: nat :: j < n && Accepts(rng, i, target, j) ==> j in hits)
            && (forall a, b :: 0 <= a < b < |hits| ==> hits[a] < hits[b])
  {
    if n > 0 {
      HitsMeaning(rng, i, target, n - 1);
      var front, hits := Hits(rng, i, target, n - 1), Hits(rng, i, target, n);
      assert hits == front + if Accepts(rng, i, target, n - 1) then [n - 1] else [];
    }
  }

  // ---------- the imperative decoder ----------

  class SpecDecoder {
    const policy: Policy
    const target: real
    const rng: nat -> real
    var pos: nat
    var enabled: bool
    var window: seq<int>
    var totalProposed: int
    var totalAccepted: int

    ghost function View(): Decoder
      reads this
    {
      Decoder(enabled, window, totalProposed, totalAccepted)
    }

    /** An incompatible topology starts disabled whatever the policy asks for. */
    constructor (policy: Policy, startEnabled: bool, target: real, rng: nat -> real)
      requires ValidPolicy(policy)
      ensures this.policy == policy && this.target == target && this.rng == rng && pos == 0
      ensures View() == Initial(policy, startEnabled)
      ensures enabled <==> startEnabled && !Disaggregated(policy)
    {
      this.policy, this.target, this.rng := policy, target, rng;
      pos, window, totalProposed, totalAccepted := 0, [], 0, 0;
      enabled := startEnabled;
      if !Compatible(policy) {
        enabled := false;
      }
    }

    method Enable()
      modifies this
      ensures View() == old(View()).(enabled := true) && pos == old(pos)
    {
      enabled := true;
    }

    method Disable()
      modifies this
      ensures View() == old(View()).(enabled := false) && pos == old(pos)
    {
      enabled := false;
    }

    /** A negative draft count still runs the whole round and then raises. */
    method ProposeAndVerify(n: int) returns (r: Answer)
      requires ValidPolicy(policy)
      modifies this
      ensures !old(enabled) ==> r == Declined && View() == old(View()) && pos == old(pos)
      ensures old(enabled) ==>
                var tokens := Hits(rng, old(pos), target, Max(n, 0));
                && View() == Execute(policy, old(View()), n, |tokens|)
                && pos == old(pos) + Max(n, 0)
                && r == if n < 0 then Raised else Verified(tokens, n)
    {
      hide Hits, LastN, SumBins, ObservedRate, Quot;
      if !enabled {
        return Declined;
      }
      var tokens: seq<nat> := [];
      var i := 0;
      HitsNext(rng, pos, target, 0);
      while i < n
        invariant 0 <= i <= Max(n, 0) && pos == old(pos) + i
        invariant tokens == Hits(rng, old(pos), target, i)
        invariant View() == old(View())
      {
        HitsNext(rng, old(pos), target, i);
        if rng(pos) < target {
          tokens := tokens + [i];
        }
        pos := pos + 1;
        i := i + 1;
      }
      var rate := if n > 0 then Quot(|tokens| as real, n as real) else 0.0;
      var bin := if rate >= policy.minRate then 1 else 0;
      window := LastN(window + [bin], policy.minWindow);
      totalProposed := totalProposed + n;
      totalAccepted := totalAccepted + |tokens|;
      if |window| >= policy.minWindow && ObservedRate(window) < policy.minRate {
        Disable();
      }
      if n < 0 {
        return Raised;
      }
      return Verified(tokens, n);
    }
  }

  // ---------- histories ----------

  /** One call; a round carries how many of its drafts the verifier would accept. */
  datatype Event = Round(n: int, hits: nat) | EnableCall | DisableCall

  function Apply(p: Policy, s: Decoder, e: Event): Decoder {
    match e
    case EnableCall => s.(enabled := true)
    case DisableCall => s.(enabled := false)
    case Round(n, hits) => if s.enabled then Execute(p, s, n, hits) else s
  }

  function Run(p: Policy, s: Decoder, h: seq<Event>): Decoder {
    if h == [] then s else Apply(p, Run(p, s, h[..|h| - 1]), h[|h| - 1])
  }

  function Fresh(enabled: bool): Decoder {
    Decoder(enabled, [], 0, 0)
  }

  /** The rounds that met an enabled decoder. */
  function Executed(p: Policy, s: Decoder, h: seq<Event>): (xs: seq<Event>)
    ensures OnlyRounds(xs)
  {
    if h == [] then []
    else
      var front, e := h[..|h| - 1], h[|h| - 1];
      Executed(p, s, front) + if e.Round? && Run(p, s, front).enabled then [e] else []
  }

  ghost predicate OnlyRounds(h: seq<Event>) {
    forall k :: 0 <= k < |h| ==> h[k].Round?
  }

  function Bins(p: Policy, xs: seq<Event>): (bins: seq<int>)
    requires OnlyRounds(xs)
    ensures |bins| == |xs|
  {
    if xs == [] then []
    else Bins(p, xs[..|xs| - 1]) + [Bin(p, xs[|xs| - 1].n, xs[|xs| - 1].hits)]
  }

  function Proposed(xs: seq<Event>): int
    requires OnlyRounds(xs)
  {
    if xs == [] then 0 else Proposed(xs[..|xs| - 1]) + xs[|xs| - 1].n
  }

  function Accepted(xs: seq<Event>): nat
    requires OnlyRounds(xs)
  {
    if xs == [] then 0 else Accepted(xs[..|xs| - 1]) + xs[|xs| - 1].hits
  }

  lemma LastNAppend<T>(s: seq<T>, x: T, w: nat)
    requires w > 0
    ensures LastN(LastN(s, w) + [x], w) == LastN(s + [x], w)
  {}

  /**
   Whatever the toggles, the window is the last `minWindow` bins of the rounds that met an
   enabled decoder, and the totals are those rounds' sums.
   */
  lemma {:induction false} WindowIsSuffix(p: Policy, on: bool, h: seq<Event>)
    requires ValidPolicy(p)
    ensures var s, xs := Run(p, Fresh(on), h), Executed(p, Fresh(on), h);
            s.window == LastN(Bins(p, xs), p.minWindow) && s.proposed == Proposed(xs) && s.accepted == Accepted(xs)
  {
    if h != [] {
      hide LastN, Trips, Bin;
      var front, e := h[..|h| - 1], h[|h| - 1];
      WindowIsSuffix(p, on, front);
      var xs, ys := Executed(p, Fresh(on), front), Executed(p, Fresh(on), h);
      if e.Round? && Run(p, Fresh(on), front).enabled {
        assert ys[..|ys| - 1] == xs;
        LastNAppend(Bins(p, xs), Bin(p, e.n, e.hits), p.minWindow);
      } else {
        assert ys == xs;
      }
    }
  }

  // ---------- what a window says ----------

  /** The round's accepted share reaches the threshold; a round of no drafts has share zero. */
  ghost predicate Good(p: Policy, e: Event)
    requires e.Round?
  {
    if e.n > 0 then e.hits as real >= p.minRate * e.n as real else p.minRate <= 0.0
  }

  ghost function GoodRounds(p: Policy, xs: seq<Event>): nat
    requires OnlyRounds(xs)
  {
    if xs == [] then 0 else GoodRounds(p, xs[..|xs| - 1]) + if Good(p, xs[|xs| - 1]) then 1 else 0
  }

  /** A bin is 1 for a good round and 0 for any other. */
  lemma BinIsGood(p: Policy, e: Event)
    requires e.Round?
    ensures Bin(p, e.n, e.hits) == if Good(p, e) then 1 else 0
  {
    if e.n > 0 {
      QuotientBounds(e.hits as real, e.n as real, p.minRate);
      assert Prod(p.minRate, e.n as real) == p.minRate * e.n as real;
    }
  }

  lemma {:induction false} BinAt(p: Policy, xs: seq<Event>, i: nat)
    requires OnlyRounds(xs) && i < |xs|
    ensures Bins(p, xs)[i] == if Good(p, xs[i]) then 1 else 0
  {
    hide Bin, Good;
    if i == |xs| - 1 {
      BinIsGood(p, xs[i]);
    } else {
      BinAt(p, xs[..|xs| - 1], i);
    }
  }

  lemma {:induction false} SumIsGood(p: Policy, xs: seq<Event>)
    requires OnlyRounds(xs)
    ensures SumBins(Bins(p, xs)) == GoodRounds(p, xs)
  {
    hide Bin, Good;
    if xs != [] {
      SumIsGood(p, xs[..|xs| - 1]);
      BinIsGood(p, xs[|xs| - 1]);
      assert Bins(p, xs)[..|xs| - 1] == Bins(p, xs[..|xs| - 1]);
    }
  }

  // ---------- auto-disable ----------

  /** The full window that ends with round `t` has a mean below the threshold. */
  predicate TripsAt(p: Policy, bins: seq<int>, t: nat)
    requires t <= |bins|
  {
    t >= p.minWindow > 0 && ObservedRate(bins[t - p.minWindow..t]) < p.minRate
  }

  /** Of the last `minWindow` of the first `t` rounds, fewer than the threshold's share were good. */
  ghost predicate FailsAt(p: Policy, h: seq<Event>, t: nat)
    requires OnlyRounds(h) && t <= |h|
  {
    t >= p.minWindow > 0 && GoodRounds(p, h[t - p.minWindow..t]) as real < p.minRate * p.minWindow as real
  }

  lemma {:induction false} BinsDrop(p: Policy, xs: seq<Event>, k: nat)
    requires OnlyRounds(xs) && k <= |xs|
    ensures Bins(p, xs[k..]) == Bins(p, xs)[k..]
  {
    if k < |xs| {
      BinsDrop(p, xs[..|xs| - 1], k);
      assert xs[k..][..|xs[k..]| - 1] == xs[..|xs| - 1][k..];
    } else {
      assert xs[k..] == [];
    }
  }

  lemma TripsIsFails(p: Policy, h: seq<Event>, t: nat)
    requires OnlyRounds(h) && t <= |h|
    ensures TripsAt(p, Bins(p, h), t) <==> FailsAt(p, h, t)
  {
    hide Bins, SumBins, GoodRounds, Bin, Good;
    if t >= p.minWindow > 0 {
      var w := p.minWindow;
      BinsPrefix(p, h, t);
      BinsDrop(p, h[..t], t - w);
      var xs := h[..t][t - w..];
      assert xs == h[t - w..t] && Bins(p, h)[..t][t - w..] == Bins(p, h)[t - w..t];
      SumIsGood(p, xs);
      QuotientBounds(GoodRounds(p, xs) as real, w as real, p.minRate);
      assert Prod(p.minRate, w as real) == p.minRate * w as real;
    }
  }

  /** `t` rounds run: none before fails, and `t` fails unless the history ends there. */
  ghost predicate StopsAfter(p: Policy, h: seq<Event>, t: nat)
    requires OnlyRounds(h)
  {
    && t <= |h|
    && (forall u: nat :: u < t ==> !FailsAt(p, h, u))
    && (t < |h| ==> FailsAt(p, h, t))
  }

  lemma {:induction false} BinsPrefix(p: Policy, xs: seq<Event>, t: nat)
    requires OnlyRounds(xs) && t <= |xs|
    ensures Bins(p, xs[..t]) == Bins(p, xs)[..t]
  {
    if t < |xs| {
      BinsPrefix(p, xs[..|xs| - 1], t);
      assert xs[..|xs| - 1][..t] == xs[..t];
    } else {
      assert xs[..t] == xs;
    }
  }

  lemma {:induction false} Frozen(p: Policy, s: Decoder, h: seq<Event>)
    requires OnlyRounds(h) && !s.enabled
    ensures Run(p, s, h) == s
  {
    if h != [] {
      Frozen(p, s, h[..|h| - 1]);
    }
  }

  lemma {:induction false} RunSplit(p: Policy, s: Decoder, h: seq<Event>, t: nat)
    requires t <= |h|
    ensures Run(p, s, h) == Run(p, Run(p, s, h[..t]), h[t..])
  {
    hide Apply;
    if t == |h| {
      assert h[..t] == h && h[t..] == [];
    } else {
      var front := h[..|h| - 1];
      RunSplit(p, s, front, t);
      assert front[..t] == h[..t] && h[t..][..|h[t..]| - 1] == front[t..];
    }
  }

  lemma TripsOfWindow(p: Policy, bins: seq<int>, t: nat)
    requires ValidPolicy(p) && t <= |bins|
    ensures Trips(p, LastN(bins[..t], p.minWindow)) <==> TripsAt(p, bins, t)
  {
    if t >= p.minWindow {
      assert LastN(bins[..t], p.minWindow) == bins[t - p.minWindow..t];
    }
  }

  /** Up to the first trip every round runs, and the decoder is enabled until it trips. */
  lemma {:induction false} RunsUntilTrip(p: Policy, h: seq<Event>)
    requires ValidPolicy(p) && OnlyRounds(h)
    requires forall u: nat :: u < |h| ==> !TripsAt(p, Bins(p, h), u)
    ensures var s := Run(p, Fresh(true), h);
            && s.window == LastN(Bins(p, h), p.minWindow) && s.proposed == Proposed(h) && s.accepted == Accepted(h)
            && (s.enabled <==> !TripsAt(p, Bins(p, h), |h|))
  {
    if h != [] {
      hide LastN, Trips, Bin, TripsAt;
      var front, e, bins := h[..|h| - 1], h[|h| - 1], Bins(p, h);
      forall u: nat | u < |h| ensures TripsAt(p, Bins(p, front), u) == TripsAt(p, bins, u) {
        SameTrip(p, bins, |front|, u);
      }
      RunsUntilTrip(p, front);
      LastNAppend(Bins(p, front), Bin(p, e.n, e.hits), p.minWindow);
      assert bins[..|h|] == bins;
      TripsOfWindow(p, bins, |h|);
    }
  }

  lemma SameTrip(p: Policy, bins: seq<int>, k: nat, u: nat)
    requires u <= k <= |bins|
    ensures TripsAt(p, bins[..k], u) == TripsAt(p, bins, u)
  {
    if u >= p.minWindow > 0 {
      assert bins[..k][u - p.minWindow..u] == bins[u - p.minWindow..u];
    }
  }

  /**
   Without manual toggles, the decoder runs exactly the rounds up to the first one that
   completes a window with fewer good rounds than the threshold asks for: it is disabled
   there, never earlier, and its window and totals are frozen from then on.
   */
  lemma DisablesExactlyAtFirstTrip(p: Policy, h: seq<Event>, t: nat)
    requires ValidPolicy(p) && OnlyRounds(h) && StopsAfter(p, h, t)
    ensures Run(p, Fresh(true), h)
            == Decoder(!FailsAt(p, h, t), LastN(Bins(p, h)[..t], p.minWindow), Proposed(h[..t]), Accepted(h[..t]))
  {
    hide LastN, TripsAt, FailsAt, Apply;
    var bins := Bins(p, h);
    forall u: nat | u <= t ensures TripsAt(p, bins, u) == FailsAt(p, h, u) {
      TripsIsFails(p, h, u);
    }
    BinsPrefix(p, h, t);
    forall u: nat | u <= t ensures TripsAt(p, Bins(p, h[..t]), u) == TripsAt(p, bins, u) {
      SameTrip(p, bins, t, u);
    }
    RunsUntilTrip(p, h[..t]);
    RunSplit(p, Fresh(true), h, t);
    if t < |h| {
      Frozen(p, Run(p, Fresh(true), h[..t]), h[t..]);
    } else {
      assert h[t..] == [];
    }
  }

  /** There is always such a point. */
  lemma {:induction false} SomeStop(p: Policy, h: seq<Event>)
    requires OnlyRounds(h)
    ensures exists t: nat :: StopsAfter(p, h, t)
  {
    hide FailsAt;
    var t := 0;
    while t < |h| && !FailsAt(p, h, t)
      invariant t <= |h| && forall u: nat :: u < t ==> !FailsAt(p, h, u)
    {
      t := t + 1;
    }
    assert StopsAfter(p, h, t);
  }

  // ---------- the topology gate ----------

  /** A new decoder: enabled when asked to be, unless the topology is incompatible. */
  function Initial(p: Policy, asked: bool): Decoder {
    Fresh(asked && Compatible(p))
  }

  /** The last manual toggle of a history was `enable()`. */
  predicate TurnedOn(h: seq<Event>) {
    if h == [] then false
    else if h[|h| - 1].Round? then TurnedOn(h[..|h| - 1])
    else h[|h| - 1].EnableCall?
  }

  /** No round comes while the last toggle is `enable()`. */
  ghost predicate NoRoundWhileOn(h: seq<Event>) {
    forall k :: 0 <= k < |h| && h[k].Round? ==> !TurnedOn(h[..k])
  }

  lemma NoRoundPrefix(h: seq<Event>)
    requires h != []
    ensures var front, e := h[..|h| - 1], h[|h| - 1];
            NoRoundWhileOn(h) <==> NoRoundWhileOn(front) && (e.Round? ==> !TurnedOn(front))
  {
    hide TurnedOn;
    var front := h[..|h| - 1];
    assert forall k :: 0 <= k < |front| ==> front[k] == h[k] && front[..k] == h[..k];
  }

  /**
   The gate is only an initial value.  On a disaggregated topology a decoder runs no round
   if and only if no round comes while the last toggle is `enable()`; until then its
   counters and window stay empty and it is enabled exactly as the last toggle says.
   */
  lemma {:induction false} GateHoldsIff(p: Policy, asked: bool, h: seq<Event>)
    requires Disaggregated(p)
    ensures var s := Initial(p, asked);
            && (Executed(p, s, h) == [] <==> NoRoundWhileOn(h))
            && (NoRoundWhileOn(h) ==> Run(p, s, h) == Fresh(TurnedOn(h)))
  {
    if h != [] {
      hide Execute, NoRoundWhileOn;
      GateHoldsIff(p, asked, h[..|h| - 1]);
      NoRoundPrefix(h);
    }
  }

  /** `enable()` does not look at the topology: the next round runs on a topology the gate is meant to refuse. */
  lemma EnableDefeatsGate(p: Policy, asked: bool)
    requires ValidPolicy(p) && Disaggregated(p)
    ensures var h := [EnableCall, Round(1, 1)];
            && Run(p, Initial(p, asked), h).proposed == 1
            && Executed(p, Initial(p, asked), h) == [Round(1, 1)]
  {
    var h := [EnableCall, Round(1, 1)];
    assert h[..1] == [EnableCall] && [EnableCall][..0] == [];
    assert Run(p, Initial(p, asked), []) == Initial(p, asked);
    assert Run(p, Initial(p, asked), [EnableCall]) == Fresh(true);
    assert Executed(p, Initial(p, asked), [EnableCall]) == [];
  }

  // ---------- totals ----------

  /** Accept counts that a round of `n` drafts can produce. */
  ghost predicate Possible(h: seq<Event>) {
    forall k :: 0 <= k < |h| && h[k].Round? ==> h[k].hits <= Max(h[k].n, 0)
  }

  ghost predicate Nonnegative(h: seq<Event>) {
    forall k :: 0 <= k < |h| && h[k].Round? ==> h[k].n >= 0
  }

  /** With nonnegative draft counts, acceptances never exceed proposals, through any toggles. */
  lemma {:induction false} TotalsOrdered(p: Policy, s: Decoder, h: seq<Event>)
    requires Possible(h) && Nonnegative(h) && 0 <= s.accepted <= s.proposed
    ensures 0 <= Run(p, s, h).accepted <= Run(p, s, h).proposed
  {
    hide LastN, Trips, Bin;
    if h != [] {
      assert forall k :: 0 <= k < |h| - 1 ==> h[..|h| - 1][k] == h[k];
      TotalsOrdered(p, s, h[..|h| - 1]);
    }
  }

  /** A round keeps the totals ordered, whatever the verifier accepts, exactly when its count is nonnegative or covered by slack. */
  lemma RoundKeepsOrderIff(p: Policy, s: Decoder, n: int)
    requires 0 <= s.accepted <= s.proposed
    ensures (forall hits: nat :: hits <= Max(n, 0) ==> Execute(p, s, n, hits).accepted <= Execute(p, s, n, hits).proposed)
       <==> n >= 0 || s.accepted <= s.proposed + n
  {
    hide LastN, Trips, Bin;
    var none := Execute(p, s, n, 0);
    if n < 0 && s.accepted > s.proposed + n {
      assert none.accepted > none.proposed;
    }
  }

  /** A negative count is only refused after the counters moved, which breaks the order. */
  lemma NegativeDraftBreaksTotals(p: Policy)
    ensures var s := Run(p, Fresh(true), [Round(-1, 0)]); s.proposed == -1 && s.accepted == 0
  {
    assert Run(p, Fresh(true), [Round(-1, 0)][..0]) == Fresh(true);
  }
}
