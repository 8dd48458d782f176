/** `find_knee` of bench/kv_scaling/measure.py: the smallest measured point where KV dominates. */
module Knee {
  import opened Prelude
  import opened RealArith

  /** What the search looks at in a cell. */
  datatype Point = Point(totalTokens: int, p50: real, batchSize: int)

  datatype KneePoint = KneePoint(totalTokens: int, kvShare: real, batchSize: int)

  datatype KneeError = NegativeBaseline | NoCells | ZeroTotal | NotReached | InvalidKnee

  // ---------- `sorted(cells, key=...)`, which is stable ----------

  function InsertPoint(x: Point, s: seq<Point>): (r: seq<Point>)
    ensures |r| == |s| + 1
  {
    if s == [] || x.totalTokens <= s[0].totalTokens then [x] + s else [s[0]] + InsertPoint(x, s[1..])
  }

  function SortPoints(s: seq<Point>): (r: seq<Point>)
    ensures |r| == |s|
  {
    if s == [] then [] else InsertPoint(s[0], SortPoints(s[1..]))
  }

  ghost predicate Ascending(s: seq<Point>) {
    forall i, j :: 0 <= i < j < |s| ==> s[i].totalTokens <= s[j].totalTokens
  }

  lemma {:induction false} InsertPointMembers(x: Point, s: seq<Point>, y: Point)
    ensures y in InsertPoint(x, s) <==> y == x || y in s
  {
    if s != [] && x.totalTokens > s[0].totalTokens {
      InsertPointMembers(x, s[1..], y);
      assert s == [s[0]] + s[1..];
    }
  }

  lemma {:induction false} InsertPointAscending(x: Point, s: seq<Point>, low: int)
    requires Ascending(s) && low <= x.totalTokens && (s != [] ==> low <= s[0].totalTokens)
    ensures Ascending(InsertPoint(x, s)) && low <= InsertPoint(x, s)[0].totalTokens
  {
    if s != [] && x.totalTokens > s[0].totalTokens {
      InsertPointAscending(x, s[1..], s[0].totalTokens);
    }
  }

  lemma {:induction false} SortPointsAscending(s: seq<Point>)
    ensures Ascending(SortPoints(s))
  {
    if s != [] {
      SortPointsAscending(s[1..]);
      var t := SortPoints(s[1..]);
      InsertPointAscending(s[0], t, if t == [] then s[0].totalTokens else Min(s[0].totalTokens, t[0].totalTokens));
    }
  }

  lemma {:induction false} SortPointsMembers(s: seq<Point>, y: Point)
    ensures y in SortPoints(s) <==> y in s
  {
    if s != [] {
      SortPointsMembers(s[1..], y);
      InsertPointMembers(s[0], SortPoints(s[1..]), y);
      assert s == [s[0]] + s[1..];
    }
  }

  /** The cells of one token count, in order. */
  function WithTokens(s: seq<Point>, t: int): seq<Point> {
    if s == [] then []
    else (if s[0].totalTokens == t then [s[0]] else []) + WithTokens(s[1..], t)
  }

  lemma {:induction false} InsertStable(x: Point, s: seq<Point>, t: int)
    requires Ascending(s)
    ensures WithTokens(InsertPoint(x, s), t) == (if x.totalTokens == t then [x] else []) + WithTokens(s, t)
  {
    if s != [] && x.totalTokens > s[0].totalTokens {
      InsertStable(x, s[1..], t);
      if x.totalTokens == t {
        assert s[0].totalTokens != t;
      }
    }
  }

  /** Sorting keeps cells of equal token counts in the order they came in. */
  lemma {:induction false} SortStable(s: seq<Point>, t: int)
    ensures WithTokens(SortPoints(s), t) == WithTokens(s, t)
  {
    if s != [] {
      SortStable(s[1..], t);
      SortPointsAscending(s[1..]);
      InsertStable(s[0], SortPoints(s[1..]), t);
    }
  }

  lemma {:induction false} WithTokensConcat(a: seq<Point>, b: seq<Point>, t: int)
    ensures WithTokens(a + b, t) == WithTokens(a, t) + WithTokens(b, t)
  {
    if a == [] {
      assert a + b == b;
    } else {
      WithTokensConcat(a[1..], b, t);
      assert (a + b)[1..] == a[1..] + b;
    }
  }

  lemma {:induction false} WithTokensMembers(s: seq<Point>, t: int, y: Point)
    ensures y in WithTokens(s, t) <==> y in s && y.totalTokens == t
  {
    if s != [] {
      WithTokensMembers(s[1..], t, y);
      assert s == [s[0]] + s[1..];
    }
  }

  // ---------- the search ----------

  function Share(p: Point, baseline: int): real
    requires baseline as real + p.p50 != 0.0
  {
    Quot(p.p50, baseline as real + p.p50)
  }

  /** The loop over the ordered cells, with the `KneePoint` constraints at its return. */
  function FirstDominant(ordered: seq<Point>, baseline: int): Result<KneePoint, KneeError> {
    if ordered == [] then Err(NotReached)
    else
      var p := ordered[0];
      if baseline as real + p.p50 == 0.0 then Err(ZeroTotal)
      else if Share(p, baseline) >= 0.5 then
        if p.totalTokens > 0 && Share(p, baseline) <= 1.0 && p.batchSize > 0
        then Ok(KneePoint(p.totalTokens, Share(p, baseline), p.batchSize))
        else Err(InvalidKnee)
      else FirstDominant(ordered[1..], baseline)
  }

  function FindKnee(cells: seq<Point>, baseline: int): Result<KneePoint, KneeError> {
    if baseline < 0 then Err(NegativeBaseline)
    else
      var ordered := SortPoints(cells);
      if ordered == [] then Err(NoCells) else FirstDominant(ordered, baseline)
  }

  // ---------- what it finds ----------

  /** Measured cells: positive tokens and batch, nonnegative bytes, and not zero bytes on zero overhead. */
  ghost predicate Measured(p: Point, baseline: int) {
    p.totalTokens > 0 && p.batchSize > 0 && p.p50 >= 0.0 && baseline >= 0 && baseline as real + p.p50 > 0.0
  }

  /** KV reaches half of the total exactly when it reaches the fixed overhead. */
  lemma DominatesIff(p: Point, baseline: int)
    requires Measured(p, baseline)
    ensures Share(p, baseline) >= 0.5 <==> p.p50 >= baseline as real
    ensures 0.0 <= Share(p, baseline) <= 1.0
    ensures Share(p, baseline) * (baseline as real + p.p50) == p.p50
  {
    var f := baseline as real;
    DivMul(p.p50, f + p.p50);
    assert Prod(Share(p, baseline), f + p.p50) == Share(p, baseline) * (f + p.p50);
    QuotientBounds(p.p50, f + p.p50, 0.5);
    QuotientBounds(p.p50, f + p.p50, 0.0);
    QuotientBounds(p.p50, f + p.p50, 1.0);
  }

  /** `k` reports cell `p`, whose KV bytes reach the overhead. */
  ghost predicate Reports(p: Point, baseline: int, k: KneePoint) {
    && p.p50 >= baseline as real
    && k.totalTokens == p.totalTokens && k.batchSize == p.batchSize
    && k.kvShare * (baseline as real + p.p50) == p.p50
  }

  ghost predicate NoneBefore(ordered: seq<Point>, baseline: int, k: nat)
    requires k <= |ordered|
  {
    forall i :: 0 <= i < k ==> ordered[i].p50 < baseline as real
  }

  lemma {:induction false} FirstDominantFinds(ordered: seq<Point>, baseline: int) returns (k: nat)
    requires forall p :: p in ordered ==> Measured(p, baseline)
    ensures k <= |ordered| && NoneBefore(ordered, baseline, k)
    ensures var r := FirstDominant(ordered, baseline);
            if k < |ordered| then r.Ok? && Reports(ordered[k], baseline, r.value) else r == Err(NotReached)
  {
    k := 0;
    if ordered != [] {
      DominatesIff(ordered[0], baseline);
      if Share(ordered[0], baseline) < 0.5 {
        k := FirstDominantFinds(ordered[1..], baseline);
        assert forall i :: 1 <= i <= k && i < |ordered| ==> ordered[i] == ordered[1..][i - 1];
        k := k + 1;
      }
    }
  }

  /** Of these cells, the knee reports the first one whose bytes reach the overhead. */
  ghost predicate FirstOfEquals(group: seq<Point>, baseline: int, k: KneePoint) {
    exists i: nat :: i < |group| && Reports(group[i], baseline, k) && NoneBefore(group, baseline, i)
  }

  lemma FirstAmongEquals(ordered: seq<Point>, k: nat, baseline: int, r: KneePoint)
    requires k < |ordered| && NoneBefore(ordered, baseline, k) && Reports(ordered[k], baseline, r)
    ensures FirstOfEquals(WithTokens(ordered, r.totalTokens), baseline, r)
  {
    var t, front := r.totalTokens, ordered[..k];
    assert ordered == front + ([ordered[k]] + ordered[k + 1..]);
    WithTokensConcat(front, [ordered[k]] + ordered[k + 1..], t);
    WithTokensConcat([ordered[k]], ordered[k + 1..], t);
    var i, group := |WithTokens(front, t)|, WithTokens(ordered, t);
    assert group[i] == ordered[k];
    forall j | 0 <= j < i ensures group[j].p50 < baseline as real {
      assert group[j] == WithTokens(front, t)[j];
      WithTokensMembers(front, t, group[j]);
    }
  }

  /**
   The knee is a measured cell whose KV bytes reach the overhead, no cell with fewer
   tokens reaches it, nor one listed earlier with as many, and the search fails exactly
   when no cell does.
   */
  lemma KneeIsSmallest(cells: seq<Point>, baseline: int)
    requires baseline >= 0 && cells != [] && forall p :: p in cells ==> Measured(p, baseline)
    ensures var r := FindKnee(cells, baseline);
            && (r.Ok? <==> exists p :: p in cells && p.p50 >= baseline as real)
            && (r.Err? ==> r.error == NotReached)
            && (r.Ok? ==>
                  && (exists p :: p in cells && Reports(p, baseline, r.value))
                  && (forall p :: p in cells && p.totalTokens < r.value.totalTokens ==> p.p50 < baseline as real)
                  && FirstOfEquals(WithTokens(cells, r.value.totalTokens), baseline, r.value))
  {
    var ordered := SortPoints(cells);
    forall p: Point ensures p in ordered <==> p in cells {
      SortPointsMembers(cells, p);
    }
    var k := FirstDominantFinds(ordered, baseline);
    SortPointsAscending(cells);
    if k < |ordered| {
      assert ordered[k] in cells;
      forall p | p in cells && p.totalTokens < ordered[k].totalTokens ensures p.p50 < baseline as real {
        SmallerIsEarlier(ordered, k, p, baseline);
      }
      FirstAmongEquals(ordered, k, baseline, FindKnee(cells, baseline).value);
      SortStable(cells, ordered[k].totalTokens);
    } else {
      forall p | p in cells ensures p.p50 < baseline as real {
        assert p in ordered;
      }
    }
  }

  lemma SmallerIsEarlier(ordered: seq<Point>, k: nat, p: Point, baseline: int)
    requires Ascending(ordered) && k < |ordered| && NoneBefore(ordered, baseline, k)
    requires p in ordered && p.totalTokens < ordered[k].totalTokens
    ensures p.p50 < baseline as real
  {
    var i :| 0 <= i < |ordered| && ordered[i] == p;
    assert i < k;
  }
}
