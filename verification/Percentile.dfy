/** The two interpolated percentiles: bench/kv_scaling/schema.py and bench/cell_runner.py. */
module Percentile {
  import opened RealArith

  ghost predicate Sorted(s: seq<real>) {
    forall i, j :: 0 <= i < j < |s| ==> s[i] <= s[j]
  }

  /** `a` is below `b` position by position. */
  ghost predicate Below(a: seq<real>, b: seq<real>) {
    |a| == |b| && forall i :: 0 <= i < |a| ==> a[i] <= b[i]
  }

  // ---------- Python's `sorted` ----------

  function Insert(x: real, s: seq<real>): (r: seq<real>)
    ensures |r| == |s| + 1
  {
    if s == [] || x <= s[0] then [x] + s else [s[0]] + Insert(x, s[1..])
  }

  function SortReals(s: seq<real>): (r: seq<real>)
    ensures |r| == |s|
  {
    if s == [] then [] else Insert(s[0], SortReals(s[1..]))
  }

  lemma {:induction false} InsertContents(x: real, s: seq<real>)
    ensures multiset(Insert(x, s)) == multiset(s) + multiset{x}
  {
    if s != [] && x > s[0] {
      InsertContents(x, s[1..]);
      assert s == [s[0]] + s[1..];
    }
  }

  lemma {:induction false} InsertSorted(x: real, s: seq<real>, low: real)
    requires Sorted(s) && low <= x && (s != [] ==> low <= s[0])
    ensures Sorted(Insert(x, s)) && low <= Insert(x, s)[0]
  {
    if s != [] && x > s[0] {
      InsertSorted(x, s[1..], s[0]);
    }
  }

  /** `sorted` returns an ascending permutation. */
  lemma {:induction false} SortProps(s: seq<real>)
    ensures Sorted(SortReals(s)) && multiset(SortReals(s)) == multiset(s)
  {
    if s != [] {
      SortProps(s[1..]);
      var t := SortReals(s[1..]);
      InsertContents(s[0], t);
      InsertSorted(s[0], t, if t == [] || s[0] <= t[0] then s[0] else t[0]);
      assert s == [s[0]] + s[1..];
    }
  }

  lemma TailContents(a: seq<real>)
    requires a != []
    ensures multiset(a[1..]) == multiset(a) - multiset{a[0]}
  {
    assert a == [a[0]] + a[1..];
  }

  lemma SameLength(a: seq<real>, b: seq<real>)
    requires multiset(a) == multiset(b)
    ensures |a| == |b|
  {
    assert |a| == |multiset(a)| && |b| == |multiset(b)|;
  }

  /** An ascending list is determined by its contents. */
  lemma {:induction false} SortedUnique(a: seq<real>, b: seq<real>)
    requires Sorted(a) && Sorted(b) && multiset(a) == multiset(b)
    ensures a == b
  {
    SameLength(a, b);
    if a != [] {
      SameLeast(a, b);
      TailContents(a);
      TailContents(b);
      SortedUnique(a[1..], b[1..]);
      assert a == [a[0]] + a[1..] && b == [b[0]] + b[1..];
    }
  }

  lemma SameLeast(a: seq<real>, b: seq<real>)
    requires a != [] && b != [] && Sorted(a) && Sorted(b) && multiset(a) == multiset(b)
    ensures a[0] == b[0]
  {
    assert a[0] in multiset(b) && b[0] in multiset(a);
  }

  lemma ConsBelow(x: real, y: real, a: seq<real>, b: seq<real>)
    requires x <= y && Below(a, b)
    ensures Below([x] + a, [y] + b)
  {}

  lemma Tails(a: seq<real>, b: seq<real>)
    requires a != [] && Sorted(a) && Sorted(b) && Below(a, b)
    ensures b != [] && a[0] <= b[0]
    ensures Sorted(a[1..]) && Sorted(b[1..]) && Below(a[1..], b[1..])
  {}

  lemma {:induction false} InsertBelow(x: real, y: real, a: seq<real>, b: seq<real>)
    requires Sorted(a) && Sorted(b) && Below(a, b) && x <= y
    ensures Below(Insert(x, a), Insert(y, b))
    decreases |a|
  {
    if a != [] {
      hide Sorted, Below;
      Tails(a, b);
      InsertFront(a);
      InsertFront(b);
      if x <= a[0] {
        if y > b[0] {
          InsertBelow(a[0], y, a[1..], b[1..]);
          ConsBelow(x, b[0], a, Insert(y, b[1..]));
        } else {
          ConsBelow(x, y, a, b);
        }
      } else if y <= b[0] {
        InsertBelow(x, b[0], a[1..], b[1..]);
        ConsBelow(a[0], y, Insert(x, a[1..]), b);
      } else {
        InsertBelow(x, y, a[1..], b[1..]);
        ConsBelow(a[0], b[0], Insert(x, a[1..]), Insert(y, b[1..]));
      }
    }
  }

  lemma InsertFront(a: seq<real>)
    requires a != [] && Sorted(a)
    ensures Insert(a[0], a[1..]) == a
  {
    assert [a[0]] + a[1..] == a;
  }

  lemma {:induction false} SortBelow(a: seq<real>, b: seq<real>)
    requires Below(a, b)
    ensures Below(SortReals(a), SortReals(b))
  {
    if a != [] {
      SortBelow(a[1..], b[1..]);
      SortProps(a[1..]);
      SortProps(b[1..]);
      InsertBelow(a[0], b[0], SortReals(a[1..]), SortReals(b[1..]));
    }
  }

  // ---------- the two percentile functions ----------

  /** Truncated rank; `rank >= 0` here, so `int(rank)` is the floor. */
  function Rank(n: nat, q: real): real
    requires n > 0
  {
    Prod(q, (n - 1) as real)
  }

  lemma RankRange(n: nat, q: real)
    requires n > 0 && 0.0 <= q <= 1.0
    ensures 0.0 <= Rank(n, q) <= (n - 1) as real
    ensures 0 <= Rank(n, q).Floor < n
  {
    MulMono(0.0, q, (n - 1) as real);
    MulMono(q, 1.0, (n - 1) as real);
  }

  /** The value at a real-valued position of a list, by linear interpolation. */
  function At(s: seq<real>, rank: real): real
    requires s != [] && 0.0 <= rank <= (|s| - 1) as real
  {
    var lo := rank.Floor;
    var hi := if lo + 1 <= |s| - 1 then lo + 1 else |s| - 1;
    s[lo] + Prod(rank - lo as real, s[hi] - s[lo])
  }

  /** `_percentile` of bench/kv_scaling/schema.py; its argument is already sorted. */
  function SchemaPercentile(sorted: seq<real>, q: real): real
    requires sorted != [] && 0.0 <= q <= 1.0
  {
    if |sorted| == 1 then sorted[0]
    else
      RankRange(|sorted|, q);
      At(sorted, Rank(|sorted|, q))
  }

  /** `_percentile` of bench/cell_runner.py; it sorts, and guards the empty list. */
  function RunnerPercentile(values: seq<real>, q: real): real
    requires 0.0 <= q <= 1.0
  {
    if values == [] then 0.0
    else if |values| == 1 then values[0]
    else
      var s := SortReals(values);
      RankRange(|s|, q);
      var k := Rank(|s|, q);
      var f := k.Floor;
      var c := if f + 1 <= |s| - 1 then f + 1 else |s| - 1;
      if f == c then s[f] else s[f] + Prod(s[c] - s[f], k - f as real)
  }

  /** The two interpolations agree on every nonempty list and every q in [0, 1]. */
  lemma PercentilesAgree(values: seq<real>, q: real)
    requires values != [] && 0.0 <= q <= 1.0
    ensures RunnerPercentile(values, q) == SchemaPercentile(SortReals(values), q)
  {
    if |values| == 1 {
      assert SortReals(values) == Insert(values[0], []) == values;
    } else {
      var s := SortReals(values);
      RankRange(|s|, q);
      var k := Rank(|s|, q);
      var f := k.Floor;
      var c := if f + 1 <= |s| - 1 then f + 1 else |s| - 1;
      assert Prod(s[c] - s[f], k - f as real) == Prod(k - f as real, s[c] - s[f]);
      assert f == c ==> Prod(k - f as real, 0.0) == 0.0;
    }
  }

  /** Interpolation stays between its two neighbours. */
  lemma Interpolation(a: real, b: real, t: real)
    requires a <= b && 0.0 <= t <= 1.0
    ensures a <= a + Prod(t, b - a) <= b
  {
    MulMono(0.0, t, b - a);
    MulMono(t, 1.0, b - a);
  }

  lemma AtBetween(s: seq<real>, rank: real)
    requires s != [] && Sorted(s) && 0.0 <= rank <= (|s| - 1) as real
    ensures var lo := rank.Floor;
            && 0 <= lo < |s| && s[lo] <= At(s, rank)
            && (lo + 1 < |s| ==> At(s, rank) <= s[lo + 1])
            && (lo + 1 == |s| ==> At(s, rank) == s[lo])
            && s[0] <= At(s, rank) <= s[|s| - 1]
  {
    var lo := rank.Floor;
    var hi := if lo + 1 <= |s| - 1 then lo + 1 else |s| - 1;
    Interpolation(s[lo], s[hi], rank - lo as real);
  }

  lemma AtMonotone(s: seq<real>, r1: real, r2: real)
    requires s != [] && Sorted(s) && 0.0 <= r1 <= r2 <= (|s| - 1) as real
    ensures At(s, r1) <= At(s, r2)
  {
    var l1, l2 := r1.Floor, r2.Floor;
    AtBetween(s, r1);
    AtBetween(s, r2);
    if l1 == l2 {
      var hi := if l1 + 1 <= |s| - 1 then l1 + 1 else |s| - 1;
      MulMono(r1 - l1 as real, r2 - l1 as real, s[hi] - s[l1]);
    } else {
      assert At(s, r1) <= s[l1 + 1] <= s[l2] <= At(s, r2);
    }
  }

  lemma AtBelow(a: seq<real>, b: seq<real>, rank: real)
    requires a != [] && Below(a, b) && 0.0 <= rank <= (|a| - 1) as real
    ensures At(a, rank) <= At(b, rank)
  {
    var lo := rank.Floor;
    var hi := if lo + 1 <= |a| - 1 then lo + 1 else |a| - 1;
    MixMonotone(rank - lo as real, a[lo], a[hi], b[lo], b[hi]);
  }

  lemma MixMonotone(t: real, a: real, a': real, b: real, b': real)
    requires 0.0 <= t <= 1.0 && a <= b && a' <= b'
    ensures a + Prod(t, a' - a) <= b + Prod(t, b' - b)
  {
    MulMono(a, b, 1.0 - t);
    MulMono(a', b', t);
    assert a + t * (a' - a) == a * (1.0 - t) + a' * t;
    assert b + t * (b' - b) == b * (1.0 - t) + b' * t;
  }

  // ---------- main results, stated once for the sorting form ----------

  /** The value between two neighbours of a list, from either end of the interval. */
  lemma AtBetweenNeighbours(s: seq<real>, rank: real, k: nat, t: real)
    requires k + 1 < |s| && 0.0 <= t <= 1.0 && rank == k as real + t
    ensures At(s, rank) == (1.0 - t) * s[k] + t * s[k + 1]
  {
    var lo := rank.Floor;
    assert t < 1.0 ==> lo == k;
    assert t == 1.0 ==> lo == k + 1;
    var hi := if lo + 1 <= |s| - 1 then lo + 1 else |s| - 1;
    if t < 1.0 {
      assert Prod(t, s[k + 1] - s[k]) == t * s[k + 1] - t * s[k];
    } else {
      assert Prod(0.0, s[hi] - s[lo]) == 0.0;
    }
  }

  /**
   What a percentile is: between the two order statistics around rank `q * (n - 1)`, by
   linear interpolation.  `s` is any ascending permutation of the samples.
   */
  lemma PercentileInterpolates(values: seq<real>, q: real, s: seq<real>, k: nat, t: real)
    requires 0.0 <= q <= 1.0 && Sorted(s) && multiset(s) == multiset(values)
    requires k + 1 < |s| && 0.0 <= t <= 1.0 && q * (|s| - 1) as real == k as real + t
    ensures values != [] && RunnerPercentile(values, q) == (1.0 - t) * s[k] + t * s[k + 1]
    ensures SchemaPercentile(s, q) == (1.0 - t) * s[k] + t * s[k + 1]
  {
    SameLength(s, values);
    SortProps(values);
    SortedUnique(s, SortReals(values));
    PercentilesAgree(values, q);
    RankRange(|s|, q);
    AtBetweenNeighbours(s, Rank(|s|, q), k, t);
  }

  /** One sample is its own percentile; of none the runner reports zero. */
  lemma FewSamples(x: real, q: real)
    requires 0.0 <= q <= 1.0
    ensures RunnerPercentile([x], q) == x && SchemaPercentile([x], q) == x && RunnerPercentile([], q) == 0.0
  {}

  /** The middle of an ascending list, or the mean of its two middle values. */
  function Median(s: seq<real>): real
    requires s != []
  {
    if |s| % 2 == 1 then s[|s| / 2] else (s[|s| / 2 - 1] + s[|s| / 2]) / 2.0
  }

  lemma HalfIsMedian(values: seq<real>, s: seq<real>)
    requires values != [] && Sorted(s) && multiset(s) == multiset(values)
    ensures s != [] && RunnerPercentile(values, 0.5) == Median(s)
  {
    hide RunnerPercentile, SchemaPercentile;
    SameLength(s, values);
    var n := |s|;
    if n == 1 {
      OneSample(values, s);
      FewSamples(s[0], 0.5);
    } else if n % 2 == 1 {
      HalfRank(n);
      PercentileInterpolates(values, 0.5, s, n / 2 - 1, 1.0);
    } else {
      HalfRank(n);
      PercentileInterpolates(values, 0.5, s, n / 2 - 1, 0.5);
    }
  }

  lemma OneSample(values: seq<real>, s: seq<real>)
    requires |values| == |s| == 1 && multiset(s) == multiset(values)
    ensures values == [s[0]]
  {
    assert s[0] in multiset(values);
  }

  lemma HalfRank(n: nat)
    requires n > 1
    ensures 0.5 * (n - 1) as real == (n / 2 - 1) as real + if n % 2 == 1 then 1.0 else 0.5
  {
    assert n == 2 * (n / 2) + n % 2;
    assert (n - 1) as real == 2.0 * (n / 2) as real + (n % 2 - 1) as real;
  }

  /** Between the smallest and the largest value. */
  lemma PercentileBetween(values: seq<real>, q: real, lo: real, hi: real)
    requires values != [] && 0.0 <= q <= 1.0
    requires forall v :: v in values ==> lo <= v <= hi
    ensures lo <= RunnerPercentile(values, q) <= hi
  {
    var s := SortReals(values);
    SortProps(values);
    PercentilesAgree(values, q);
    assert s[0] in multiset(s) && s[|s| - 1] in multiset(s);
    assert s[0] in values && s[|s| - 1] in values;
    if |s| > 1 {
      RankRange(|s|, q);
      AtBetween(s, Rank(|s|, q));
    }
  }

  lemma PercentileMonotoneInQ(values: seq<real>, q1: real, q2: real)
    requires values != [] && 0.0 <= q1 <= q2 <= 1.0
    ensures RunnerPercentile(values, q1) <= RunnerPercentile(values, q2)
  {
    var s := SortReals(values);
    SortProps(values);
    PercentilesAgree(values, q1);
    PercentilesAgree(values, q2);
    if |s| > 1 {
      RankRange(|s|, q1);
      RankRange(|s|, q2);
      MulMono(q1, q2, (|s| - 1) as real);
      AtMonotone(s, Rank(|s|, q1), Rank(|s|, q2));
    }
  }

  lemma PercentileMonotoneInSamples(a: seq<real>, b: seq<real>, q: real)
    requires a != [] && Below(a, b) && 0.0 <= q <= 1.0
    ensures RunnerPercentile(a, q) <= RunnerPercentile(b, q)
  {
    SortBelow(a, b);
    PercentilesAgree(a, q);
    PercentilesAgree(b, q);
    if |a| > 1 {
      RankRange(|a|, q);
      AtBelow(SortReals(a), SortReals(b), Rank(|a|, q));
    }
  }

  lemma PercentilePermutation(a: seq<real>, b: seq<real>, q: real)
    requires multiset(a) == multiset(b) && 0.0 <= q <= 1.0
    ensures RunnerPercentile(a, q) == RunnerPercentile(b, q)
  {
    SortProps(a);
    SortProps(b);
    SortedUnique(SortReals(a), SortReals(b));
    SameLength(a, b);
    if a != [] {
      PercentilesAgree(a, q);
      PercentilesAgree(b, q);
    }
  }

  lemma SchemaEnds(s: seq<real>)
    requires s != []
    ensures SchemaPercentile(s, 0.0) == s[0] && SchemaPercentile(s, 1.0) == s[|s| - 1]
  {
    if |s| > 1 {
      EndRanks(|s|);
    }
  }

  lemma EndRanks(n: nat)
    requires n > 0
    ensures Rank(n, 0.0) == 0.0 && Rank(n, 1.0) == (n - 1) as real
    ensures Rank(n, 0.0).Floor == 0 && Rank(n, 1.0).Floor == n - 1
  {}

  /** The extreme ranks are the extreme samples. */
  lemma PercentileEnds(values: seq<real>)
    requires values != []
    ensures var s := SortReals(values);
            RunnerPercentile(values, 0.0) == s[0] && RunnerPercentile(values, 1.0) == s[|s| - 1]
  {
    hide RunnerPercentile, SchemaPercentile, SortReals;
    PercentilesAgree(values, 0.0);
    PercentilesAgree(values, 1.0);
    SchemaEnds(SortReals(values));
  }
}
