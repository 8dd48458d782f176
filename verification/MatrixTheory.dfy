/** Resume correctness: what sweeps over the matrix keep, count and never redo. */
module MatrixTheory {
  import opened Prelude
  import opened Matrix

  // ---------- the enumeration has no repeated cell ----------

  ghost predicate Unique<T>(s: seq<T>) {
    forall i, j :: 0 <= i < j < |s| ==> s[i] != s[j]
  }

  ghost predicate DistinctIds(specs: seq<CellSpec>) {
    forall i, j :: 0 <= i < j < |specs| ==> CellId(specs[i]) != CellId(specs[j])
  }

  lemma {:induction false} FlatMapMember<A, B>(xs: seq<A>, f: A -> seq<B>, y: B) returns (x: A)
    requires y in FlatMap(xs, f)
    ensures x in xs && y in f(x)
  {
    if y in f(xs[0]) {
      x := xs[0];
    } else {
      x := FlatMapMember(xs[1..], f, y);
    }
  }

  lemma UniqueConcat<T>(s: seq<T>, t: seq<T>)
    requires Unique(s) && Unique(t) && forall y :: y in s ==> y !in t
    ensures Unique(s + t)
  {
    forall i, j | 0 <= i < j < |s + t| ensures (s + t)[i] != (s + t)[j] {
      if i < |s| <= j {
        assert s[i] in s && t[j - |s|] in t;
      }
    }
  }

  /** Nested loops over duplicate-free lists whose bodies yield disjoint, duplicate-free blocks. */
  lemma {:induction false} FlatMapUnique<A(!new), B>(xs: seq<A>, f: A -> seq<B>, n: nat)
    requires Unique(xs)
    requires forall x :: x in xs ==> Unique(f(x)) && |f(x)| == n
    requires forall x, x', y :: x in xs && x' in xs && y in f(x) && y in f(x') ==> x == x'
    ensures Unique(FlatMap(xs, f)) && |FlatMap(xs, f)| == |xs| * n
  {
    if xs != [] {
      FlatMapUnique(xs[1..], f, n);
      var rest := FlatMap(xs[1..], f);
      forall y | y in f(xs[0]) ensures y !in rest {
        if y in rest {
          var x := FlatMapMember(xs[1..], f, y);
        }
      }
      UniqueConcat(f(xs[0]), rest);
      assert |xs| * n == n + |xs[1..]| * n;
    }
  }

  lemma {:induction false} MixBlock(m: MatrixSpec, t: Topology, md: Model, r: nat)
    requires Unique(m.mixes)
    ensures var s := MixCells(m, t, md, r);
            && Unique(s) && |s| == |m.mixes| * 1
            && forall c :: c in s ==> c.topology == t && c.model == md && c.rate == r && c.warmup == m.warmup && c.measure == m.measure
  {
    var f := x => [CellSpec(t, md, r, x, m.warmup, m.measure)];
    FlatMapUnique(m.mixes, f, 1);
    forall c | c in MixCells(m, t, md, r)
      ensures c.topology == t && c.model == md && c.rate == r && c.warmup == m.warmup && c.measure == m.measure
    {
      var x := FlatMapMember(m.mixes, f, c);
    }
  }

  lemma {:induction false} RateBlock(m: MatrixSpec, t: Topology, md: Model)
    requires Unique(m.mixes) && Unique(m.rates)
    ensures var s := RateCells(m, t, md);
            && Unique(s) && |s| == |m.rates| * (|m.mixes| * 1)
            && forall c :: c in s ==> c.topology == t && c.model == md && c.warmup == m.warmup && c.measure == m.measure
  {
    var f := r => MixCells(m, t, md, r);
    forall r: nat ensures Unique(f(r)) && |f(r)| == |m.mixes| * 1 && forall c :: c in f(r) ==> c.rate == r {
      MixBlock(m, t, md, r);
    }
    FlatMapUnique(m.rates, f, |m.mixes| * 1);
    forall c | c in RateCells(m, t, md)
      ensures c.topology == t && c.model == md && c.warmup == m.warmup && c.measure == m.measure
    {
      var r := FlatMapMember(m.rates, f, c);
      MixBlock(m, t, md, r);
    }
  }

  lemma {:induction false} ModelBlock(m: MatrixSpec, t: Topology)
    requires Unique(m.mixes) && Unique(m.rates) && Unique(m.models)
    ensures var s := ModelCells(m, t);
            && Unique(s) && |s| == |m.models| * (|m.rates| * (|m.mixes| * 1))
            && forall c :: c in s ==> c.topology == t && c.warmup == m.warmup && c.measure == m.measure
  {
    var f := md => RateCells(m, t, md);
    forall md: Model ensures Unique(f(md)) && |f(md)| == |m.rates| * (|m.mixes| * 1) && forall c :: c in f(md) ==> c.model == md {
      RateBlock(m, t, md);
    }
    FlatMapUnique(m.models, f, |m.rates| * (|m.mixes| * 1));
    forall c | c in ModelCells(m, t) ensures c.topology == t && c.warmup == m.warmup && c.measure == m.measure {
      var md := FlatMapMember(m.models, f, c);
      RateBlock(m, t, md);
    }
  }

  /** `total_cells`. */
  function TotalCells(m: MatrixSpec): nat {
    |m.topologies| * (|m.models| * (|m.rates| * (|m.mixes| * 1)))
  }

  /** Duplicate-free lists give exactly `total_cells` cells, no two with the same id. */
  lemma CellsDistinct(m: MatrixSpec)
    requires Unique(m.topologies) && Unique(m.models) && Unique(m.rates) && Unique(m.mixes)
    ensures |Cells(m)| == TotalCells(m) && DistinctIds(Cells(m))
  {
    hide CellId;
    var f := t => ModelCells(m, t);
    forall t: Topology
      ensures Unique(f(t)) && |f(t)| == |m.models| * (|m.rates| * (|m.mixes| * 1))
      ensures forall c :: c in f(t) ==> c.topology == t
    {
      ModelBlock(m, t);
    }
    FlatMapUnique(m.topologies, f, |m.models| * (|m.rates| * (|m.mixes| * 1)));
    var s := Cells(m);
    forall i, j | 0 <= i < j < |s| ensures CellId(s[i]) != CellId(s[j]) {
      var t := FlatMapMember(m.topologies, f, s[i]);
      var t' := FlatMapMember(m.topologies, f, s[j]);
      ModelBlock(m, t);
      ModelBlock(m, t');
      if CellId(s[i]) == CellId(s[j]) {
        CellIdInjective(s[i], s[j]);
      }
    }
  }

  /** Position `j` of block `i` when all blocks have `n` elements. */
  lemma {:induction false} FlatMapIndex<A(!new), B>(xs: seq<A>, f: A -> seq<B>, n: nat, i: nat, j: nat)
    requires forall x :: x in xs ==> |f(x)| == n
    requires i < |xs| && j < n
    ensures 0 <= i * n + j < |FlatMap(xs, f)| == |xs| * n
    ensures FlatMap(xs, f)[i * n + j] == f(xs[i])[j]
  {
    FlatMapLength(xs, f, n);
    BlockFits(i, j, n, |xs|);
    if i > 0 {
      FlatMapLength(xs[1..], f, n);
      FlatMapIndex(xs[1..], f, n, i - 1, j);
      assert i * n + j == n + ((i - 1) * n + j);
    }
  }

  lemma BlockFits(i: nat, j: nat, n: nat, m: nat)
    requires i < m && j < n
    ensures 0 <= i * n + j < m * n
  {
    MulMonotone(i + 1, m, n);
    assert (i + 1) * n == i * n + n;
  }

  lemma {:induction false} FlatMapLength<A(!new), B>(xs: seq<A>, f: A -> seq<B>, n: nat)
    requires forall x :: x in xs ==> |f(x)| == n
    ensures |FlatMap(xs, f)| == |xs| * n
  {
    if xs != [] {
      FlatMapLength(xs[1..], f, n);
      assert |xs| * n == n + |xs[1..]| * n;
    }
  }

  lemma MixLength(m: MatrixSpec, t: Topology, md: Model, r: nat)
    ensures |MixCells(m, t, md, r)| == |m.mixes|
  {
    FlatMapLength(m.mixes, x => [CellSpec(t, md, r, x, m.warmup, m.measure)], 1);
  }

  lemma RateLength(m: MatrixSpec, t: Topology, md: Model)
    ensures |RateCells(m, t, md)| == |m.rates| * |m.mixes|
  {
    forall r: nat ensures |MixCells(m, t, md, r)| == |m.mixes| {
      MixLength(m, t, md, r);
    }
    FlatMapLength(m.rates, r => MixCells(m, t, md, r), |m.mixes|);
  }

  lemma ModelLength(m: MatrixSpec, t: Topology)
    ensures |ModelCells(m, t)| == |m.models| * (|m.rates| * |m.mixes|)
  {
    forall md: Model ensures |RateCells(m, t, md)| == |m.rates| * |m.mixes| {
      RateLength(m, t, md);
    }
    FlatMapLength(m.models, md => RateCells(m, t, md), |m.rates| * |m.mixes|);
  }

  lemma MixAt(m: MatrixSpec, t: Topology, md: Model, r: nat, d: nat)
    requires d < |m.mixes|
    ensures |MixCells(m, t, md, r)| == |m.mixes|
    ensures MixCells(m, t, md, r)[d] == CellSpec(t, md, r, m.mixes[d], m.warmup, m.measure)
  {
    FlatMapIndex(m.mixes, x => [CellSpec(t, md, r, x, m.warmup, m.measure)], 1, d, 0);
  }

  lemma RateAt(m: MatrixSpec, t: Topology, md: Model, c: nat, d: nat)
    requires c < |m.rates| && d < |m.mixes|
    ensures 0 <= c * |m.mixes| + d < |RateCells(m, t, md)| == |m.rates| * |m.mixes|
    ensures RateCells(m, t, md)[c * |m.mixes| + d] == CellSpec(t, md, m.rates[c], m.mixes[d], m.warmup, m.measure)
  {
    hide MixCells, FlatMap;
    forall r: nat ensures |MixCells(m, t, md, r)| == |m.mixes| {
      MixLength(m, t, md, r);
    }
    FlatMapIndex(m.rates, r => MixCells(m, t, md, r), |m.mixes|, c, d);
    MixAt(m, t, md, m.rates[c], d);
  }

  lemma ModelAt(m: MatrixSpec, t: Topology, b: nat, n: nat, k: nat)
    requires b < |m.models| && n == |m.rates| * |m.mixes| && k < n
    ensures 0 <= b * n + k < |ModelCells(m, t)| == |m.models| * n
    ensures |RateCells(m, t, m.models[b])| == n && ModelCells(m, t)[b * n + k] == RateCells(m, t, m.models[b])[k]
  {
    hide RateCells, FlatMap;
    forall md: Model ensures |RateCells(m, t, md)| == n {
      RateLength(m, t, md);
    }
    FlatMapIndex(m.models, md => RateCells(m, t, md), n, b, k);
  }

  lemma TopologyAt(m: MatrixSpec, a: nat, n: nat, k: nat)
    requires a < |m.topologies| && n == |m.models| * (|m.rates| * |m.mixes|) && k < n
    ensures 0 <= a * n + k < |Cells(m)| == |m.topologies| * n
    ensures |ModelCells(m, m.topologies[a])| == n && Cells(m)[a * n + k] == ModelCells(m, m.topologies[a])[k]
  {
    hide ModelCells, FlatMap;
    forall t: Topology ensures |ModelCells(m, t)| == n {
      ModelLength(m, t);
    }
    FlatMapIndex(m.topologies, t => ModelCells(m, t), n, a, k);
  }

  /** The enumeration, with or without duplicates: topologies outermost, then models, rates and mixes. */
  lemma CellsInOrder(m: MatrixSpec, a: nat, b: nat, c: nat, d: nat)
    requires a < |m.topologies| && b < |m.models| && c < |m.rates| && d < |m.mixes|
    ensures |Cells(m)| == |m.topologies| * (|m.models| * (|m.rates| * |m.mixes|))
    ensures var at := a * (|m.models| * (|m.rates| * |m.mixes|)) + (b * (|m.rates| * |m.mixes|) + (c * |m.mixes| + d));
            0 <= at < |Cells(m)|
            && Cells(m)[at] == CellSpec(m.topologies[a], m.models[b], m.rates[c], m.mixes[d], m.warmup, m.measure)
  {
    hide Cells, ModelCells, RateCells;
    var t, n := m.topologies[a], |m.rates| * |m.mixes|;
    RateAt(m, t, m.models[b], c, d);
    ModelAt(m, t, b, n, c * |m.mixes| + d);
    TopologyAt(m, a, |m.models| * n, b * n + (c * |m.mixes| + d));
  }

  // ---------- one cell ----------

  /** No parseable file carries a foreign id: what the sweep itself always leaves behind. */
  ghost predicate Consistent(disk: Disk) {
    forall id :: id in disk ==> !Mismatched(disk, id)
  }

  /**
   What one `run_cell` does to the directory: a valid cell is untouched and not executed,
   no other file changes, and a consistent directory stays consistent.
   */
  lemma RunCellFrame(world: nat -> Outcome, b: Bench, c: CellSpec)
    ensures var (b', r) := RunCell(world, b, c);
            && (forall id :: id in b.disk && id != CellId(c) ==> id in b'.disk && b'.disk[id] == b.disk[id])
            && (forall id :: id in b'.disk && id != CellId(c) ==> id in b.disk)
            && (CellId(c) in b.disk && b.disk[CellId(c)].Parsed? ==> b' == b && r.Some?)
            && (Consistent(b.disk) ==> Consistent(b'.disk))
            && (b'.log == b.log || (b'.log == b.log + [CellId(c)] && !ValidOn(b.disk, CellId(c)) && !Mismatched(b.disk, CellId(c))))
            && (!Mismatched(b.disk, CellId(c)) ==> (r.Some? <==> ValidOn(b'.disk, CellId(c))))
  {
    hide CellId;
  }

  // ---------- sweeps ----------

  function Attempted(t: Tally): nat {
    t.completed + t.failed
  }

  /** What makes a strict sweep break off: a failure, or a result that did not reconcile. */
  predicate Unsettled(r: Option<CellResult>) {
    r.None? || !r.value.reconcilePasses
  }

  /** What a cell adds to the sweep's total duration. */
  function Seconds(r: Option<CellResult>): real {
    if r.Some? then r.value.durationS else 0.0
  }

  /** One iteration of the sweep's loop. */
  lemma SweepUnfolds(world: nat -> Outcome, b: Bench, specs: seq<CellSpec>, stop: bool, n: nat)
    requires 0 < n <= |specs|
    ensures var s, s' := Sweep(world, b, specs, stop, n - 1), Sweep(world, b, specs, stop, n);
            && (s.halted ==> s' == s)
            && (!s.halted ==> && s'.bench == RunCell(world, s.bench, specs[n - 1]).0
                              && Attempted(s'.tally) == Attempted(s.tally) + 1
                              && s'.tally.completed == s.tally.completed
                                 + (if RunCell(world, s.bench, specs[n - 1]).1.Some? then 1 else 0)
                              && s'.tally.duration == s.tally.duration + Seconds(RunCell(world, s.bench, specs[n - 1]).1)
                              && (s'.halted <==> stop && Unsettled(RunCell(world, s.bench, specs[n - 1]).1)))
  {
    hide RunCell;
  }

  /** File `id` is as it was, and was not executed in between. */
  ghost predicate Keeps(b: Bench, b': Bench, id: string) {
    && id in b'.disk && id in b.disk && b'.disk[id] == b.disk[id]
    && |b.log| <= |b'.log| && b'.log[..|b.log|] == b.log && id !in b'.log[|b.log|..]
  }

  lemma KeepsItself(b: Bench, id: string)
    requires id in b.disk
    ensures Keeps(b, b, id)
  {}

  lemma KeepsParsed(b: Bench, b': Bench, id: string)
    requires Keeps(b, b', id)
    ensures id in b.disk && id in b'.disk && b'.disk[id] == b.disk[id]
  {}

  lemma KeepsChain(b: Bench, b1: Bench, b': Bench, id: string)
    requires Keeps(b, b1, id) && Keeps(b1, b', id)
    ensures Keeps(b, b', id)
  {
    assert b'.log == b1.log + b'.log[|b1.log|..];
    assert b'.log[|b.log|..] == b1.log[|b.log|..] + b'.log[|b1.log|..];
  }

  lemma RunCellKeeps(world: nat -> Outcome, b: Bench, c: CellSpec, id: string)
    requires id in b.disk && b.disk[id].Parsed?
    ensures Keeps(b, RunCell(world, b, c).0, id)
  {
    hide CellId;
  }

  /** A file that parses, under any id, survives every sweep unchanged and is never executed. */
  lemma {:induction false} SweepPreserves(world: nat -> Outcome, b: Bench, specs: seq<CellSpec>, stop: bool, n: nat, id: string)
    requires n <= |specs| && id in b.disk && b.disk[id].Parsed?
    ensures Keeps(b, Sweep(world, b, specs, stop, n).bench, id)
    decreases n
  {
    hide RunCell, Sweep, Keeps, CellId, Unsettled;
    if n == 0 {
      SweepStart(world, b, specs, stop);
      KeepsItself(b, id);
    } else {
      SweepPreserves(world, b, specs, stop, n - 1, id);
      SweepUnfolds(world, b, specs, stop, n);
      var s := Sweep(world, b, specs, stop, n - 1);
      if !s.halted {
        KeepsParsed(b, s.bench, id);
        RunCellKeeps(world, s.bench, specs[n - 1], id);
        KeepsChain(b, s.bench, RunCell(world, s.bench, specs[n - 1]).0, id);
      }
    }
  }

  lemma {:induction false} SweepConsistent(world: nat -> Outcome, b: Bench, specs: seq<CellSpec>, stop: bool, n: nat)
    requires n <= |specs| && Consistent(b.disk)
    ensures Consistent(Sweep(world, b, specs, stop, n).bench.disk)
    decreases n
  {
    hide RunCell, CellId, Consistent, Sweep, Unsettled, Attempted;
    if n == 0 {
      SweepStart(world, b, specs, stop);
    } else {
      SweepUnfolds(world, b, specs, stop, n);
      SweepConsistent(world, b, specs, stop, n - 1);
      RunCellFrame(world, Sweep(world, b, specs, stop, n - 1).bench, specs[n - 1]);
    }
  }

  ghost predicate SameFile(disk: Disk, disk': Disk, id: string) {
    (id in disk <==> id in disk') && (id in disk ==> disk'[id] == disk[id])
  }

  ghost predicate Absent(specs: seq<CellSpec>, n: nat, id: string)
    requires n <= |specs|
  {
    forall k :: 0 <= k < n ==> CellId(specs[k]) != id
  }

  /** Ids outside the specs are left alone. */
  lemma {:induction false} SweepFrame(world: nat -> Outcome, b: Bench, specs: seq<CellSpec>, stop: bool, n: nat, id: string)
    requires n <= |specs| && Absent(specs, n, id)
    ensures SameFile(b.disk, Sweep(world, b, specs, stop, n).bench.disk, id)
    decreases n
  {
    hide RunCell, CellId, Sweep;
    if n > 0 {
      SweepUnfolds(world, b, specs, stop, n);
      assert CellId(specs[n - 1]) != id;
      SweepFrame(world, b, specs, stop, n - 1, id);
      OtherFile(world, Sweep(world, b, specs, stop, n - 1).bench, specs[n - 1], id);
    } else {
      SweepStart(world, b, specs, stop);
    }
  }

  lemma SweepStart(world: nat -> Outcome, b: Bench, specs: seq<CellSpec>, stop: bool)
    ensures Sweep(world, b, specs, stop, 0) == SweepState(b, Tally(0, 0, 0.0), false)
  {}

  lemma OtherFile(world: nat -> Outcome, b: Bench, c: CellSpec, id: string)
    requires CellId(c) != id
    ensures SameFile(b.disk, RunCell(world, b, c).0.disk, id)
  {
    hide RunCell, CellId;
    RunCellFrame(world, b, c);
  }

  // ---------- counting ----------

  lemma {:induction false} PendingSame(disk: Disk, disk': Disk, specs: seq<CellSpec>)
    requires forall c :: c in specs ==> (ValidOn(disk, CellId(c)) <==> ValidOn(disk', CellId(c)))
    ensures Pending(disk', specs) == Pending(disk, specs)
  {
    hide CellId, ValidOn;
    if specs != [] {
      assert specs[0] in specs;
      PendingSame(disk, disk', specs[1..]);
    }
  }

  lemma {:induction false} PendingMembers(disk: Disk, specs: seq<CellSpec>, c: CellSpec)
    ensures c in Pending(disk, specs) <==> c in specs && !ValidOn(disk, CellId(c))
  {
    hide CellId, ValidOn;
    if specs != [] {
      PendingMembers(disk, specs[1..], c);
      assert specs == [specs[0]] + specs[1..];
    }
  }

  lemma {:induction false} PendingDistinct(disk: Disk, specs: seq<CellSpec>)
    requires DistinctIds(specs)
    ensures DistinctIds(Pending(disk, specs))
  {
    hide CellId, ValidOn;
    if specs != [] {
      assert forall k :: 0 <= k < |specs[1..]| ==> specs[1..][k] == specs[k + 1];
      PendingDistinct(disk, specs[1..]);
      var rest := Pending(disk, specs[1..]);
      forall k | 0 <= k < |rest| ensures CellId(specs[0]) != CellId(rest[k]) {
        PendingFrom(disk, specs, rest[k]);
      }
      DistinctCons(specs[0], rest);
    }
  }

  lemma PendingFrom(disk: Disk, specs: seq<CellSpec>, c: CellSpec)
    requires DistinctIds(specs) && specs != [] && c in Pending(disk, specs[1..])
    ensures CellId(specs[0]) != CellId(c)
  {
    hide CellId, ValidOn, Pending;
    PendingMembers(disk, specs[1..], c);
    var j :| 0 <= j < |specs[1..]| && specs[1..][j] == c;
    assert specs[j + 1] == c;
  }

  lemma DistinctCons(c: CellSpec, rest: seq<CellSpec>)
    requires DistinctIds(rest) && forall k :: 0 <= k < |rest| ==> CellId(c) != CellId(rest[k])
    ensures DistinctIds([c] + rest)
  {
    hide CellId;
    forall i, j | 0 <= i < j < |[c] + rest| ensures CellId(([c] + rest)[i]) != CellId(([c] + rest)[j]) {
      assert ([c] + rest)[j] == rest[j - 1];
      assert i > 0 ==> ([c] + rest)[i] == rest[i - 1];
    }
  }

  /** Storing one missing cell takes exactly one entry off the pending list. */
  lemma {:induction false} PendingLosesOne(disk: Disk, disk': Disk, specs: seq<CellSpec>, c: CellSpec)
    requires DistinctIds(specs) && c in specs && !ValidOn(disk, CellId(c)) && ValidOn(disk', CellId(c))
    requires forall id :: id != CellId(c) ==> (ValidOn(disk, id) <==> ValidOn(disk', id))
    ensures |Pending(disk', specs)| == |Pending(disk, specs)| - 1
  {
    hide CellId, ValidOn;
    var rest := specs[1..];
    assert forall k :: 0 <= k < |rest| ==> rest[k] == specs[k + 1];
    if c in rest {
      var j :| 0 <= j < |rest| && rest[j] == c;
      assert CellId(specs[0]) != CellId(specs[j + 1]);
      PendingLosesOne(disk, disk', rest, c);
    } else {
      forall d | d in rest ensures ValidOn(disk, CellId(d)) <==> ValidOn(disk', CellId(d)) {
        var j :| 0 <= j < |rest| && rest[j] == d;
        assert CellId(specs[0]) != CellId(specs[j + 1]);
      }
      PendingSame(disk, disk', rest);
    }
  }

  /** Cells of the list whose file parses under another id. */
  function Stale(disk: Disk, cs: seq<CellSpec>): nat {
    if cs == [] then 0
    else Stale(disk, cs[..|cs| - 1]) + if Mismatched(disk, CellId(cs[|cs| - 1])) then 1 else 0
  }

  /** One attempted cell: completed, and either stored now or answered from a mismatched file; or failed. */
  lemma RunCellCount(world: nat -> Outcome, b: Bench, c: CellSpec, specs: seq<CellSpec>)
    requires DistinctIds(specs) && c in specs && !ValidOn(b.disk, CellId(c))
    ensures var (b', r) := RunCell(world, b, c);
            |Pending(b'.disk, specs)| + (if r.Some? then 1 else 0)
            == |Pending(b.disk, specs)| + if Mismatched(b.disk, CellId(c)) then 1 else 0
  {
    hide CellId;
    var (b', r) := RunCell(world, b, c);
    RunCellFrame(world, b, c);
    if Mismatched(b.disk, CellId(c)) {
      PendingSame(b.disk, b'.disk, specs);
    } else if r.Some? {
      PendingLosesOne(b.disk, b'.disk, specs, c);
    } else {
      PendingSame(b.disk, b'.disk, specs);
    }
  }

  /** The cells a sweep attempted are a prefix of its list. */
  lemma {:induction false} AttemptedPrefix(world: nat -> Outcome, b: Bench, specs: seq<CellSpec>, stop: bool, n: nat)
    requires n <= |specs|
    ensures var s := Sweep(world, b, specs, stop, n); Attempted(s.tally) <= n && (!s.halted ==> Attempted(s.tally) == n)
    decreases n
  {
    hide RunCell, Sweep;
    if n > 0 {
      SweepUnfolds(world, b, specs, stop, n);
      AttemptedPrefix(world, b, specs, stop, n - 1);
    } else {
      SweepStart(world, b, specs, stop);
    }
  }

  /** Completions so far, against what left the pending list and what was answered from a foreign file. */
  ghost predicate Accounted(disk: Disk, specs: seq<CellSpec>, s: SweepState) {
    var todo := Pending(disk, specs);
    && Attempted(s.tally) <= |todo|
    && |Pending(s.bench.disk, specs)| + s.tally.completed == |todo| + Stale(disk, todo[..Attempted(s.tally)])
  }

  lemma SweepAccountingStep(world: nat -> Outcome, b: Bench, specs: seq<CellSpec>, stop: bool, n: nat)
    requires DistinctIds(specs) && 0 < n <= |Pending(b.disk, specs)|
    requires Accounted(b.disk, specs, Sweep(world, b, Pending(b.disk, specs), stop, n - 1))
    requires !Sweep(world, b, Pending(b.disk, specs), stop, n - 1).halted
    ensures Accounted(b.disk, specs, Sweep(world, b, Pending(b.disk, specs), stop, n))
  {
    hide RunCell, CellId, Sweep, Pending, Mismatched, Stale, ValidOn, Attempted, SameFile;
    var todo := Pending(b.disk, specs);
    var c, s, s' := todo[n - 1], Sweep(world, b, todo, stop, n - 1), Sweep(world, b, todo, stop, n);
    SweepUnfolds(world, b, todo, stop, n);
    AttemptedPrefix(world, b, todo, stop, n - 1);
    PendingDistinct(b.disk, specs);
    PendingMembers(b.disk, specs, c);
    SweepFrame(world, b, todo, stop, n - 1, CellId(c));
    SameStatus(b.disk, s.bench.disk, CellId(c));
    RunCellCount(world, s.bench, c, specs);
    StaleExtends(b.disk, todo, n - 1);
    assert Attempted(s'.tally) == n;
  }

  /**
   Accounting of one sweep over the pending cells: every completion took one cell off the
   pending list, except those answered from a file that parses under another id.
   */
  lemma {:induction false} SweepAccounting(world: nat -> Outcome, b: Bench, specs: seq<CellSpec>, stop: bool, n: nat)
    requires DistinctIds(specs) && n <= |Pending(b.disk, specs)|
    ensures Accounted(b.disk, specs, Sweep(world, b, Pending(b.disk, specs), stop, n))
    decreases n
  {
    hide Sweep, Pending, Stale, Accounted;
    if n == 0 {
      AccountedAtStart(world, b, specs, stop);
    } else {
      SweepAccounting(world, b, specs, stop, n - 1);
      if Sweep(world, b, Pending(b.disk, specs), stop, n - 1).halted {
        SweepUnfolds(world, b, Pending(b.disk, specs), stop, n);
      } else {
        SweepAccountingStep(world, b, specs, stop, n);
      }
    }
  }

  lemma AccountedAtStart(world: nat -> Outcome, b: Bench, specs: seq<CellSpec>, stop: bool)
    ensures Accounted(b.disk, specs, Sweep(world, b, Pending(b.disk, specs), stop, 0))
  {
    assert Pending(b.disk, specs)[..0] == [];
  }

  lemma SameStatus(disk: Disk, disk': Disk, id: string)
    requires SameFile(disk, disk', id)
    ensures ValidOn(disk, id) <==> ValidOn(disk', id)
    ensures Mismatched(disk, id) <==> Mismatched(disk', id)
  {}

  lemma StaleExtends(disk: Disk, cs: seq<CellSpec>, k: nat)
    requires k < |cs|
    ensures Stale(disk, cs[..k + 1]) == Stale(disk, cs[..k]) + if Mismatched(disk, CellId(cs[k])) then 1 else 0
  {
    hide CellId;
    assert cs[..k + 1][..k] == cs[..k];
  }

  // ---------- how far a sweep gets ----------

  predicate Parses(disk: Disk, id: string) {
    id in disk && disk[id].Parsed?
  }

  /** How many of these cells a sweep executes. */
  function Executions(disk: Disk, cs: seq<CellSpec>): nat {
    if cs == [] then 0
    else Executions(disk, cs[..|cs| - 1]) + if Parses(disk, CellId(cs[|cs| - 1])) then 0 else 1
  }

  /** Cell `k` makes a strict sweep break off: its stored result did not reconcile, or its measurement fails or does not. */
  predicate Breaks(world: nat -> Outcome, b: Bench, specs: seq<CellSpec>, k: nat)
    requires k < |specs|
  {
    var id := CellId(specs[k]);
    if Parses(b.disk, id) then !b.disk[id].result.reconcilePasses
    else
      var o := world(|b.log| + Executions(b.disk, specs[..k]));
      o.Fails? || !o.reconcilePasses
  }

  /** The cells that a sweep limited to `n` gets to: up to the first one that breaks it off, when it is strict. */
  function Reached(world: nat -> Outcome, b: Bench, specs: seq<CellSpec>, stop: bool, n: nat): (r: nat)
    requires n <= |specs|
    ensures r <= n
  {
    if n == 0 then 0
    else
      var r := Reached(world, b, specs, stop, n - 1);
      if r < n - 1 || (stop && r > 0 && Breaks(world, b, specs, r - 1)) then r else n
  }

  lemma RunCellUnsettled(world: nat -> Outcome, b: Bench, c: CellSpec)
    ensures var id := CellId(c);
            Unsettled(RunCell(world, b, c).1)
            <==> (if Parses(b.disk, id) then !b.disk[id].result.reconcilePasses
                  else world(|b.log|).Fails? || !world(|b.log|).reconcilePasses)
  {
    hide CellId;
  }

  lemma ExecutionsSnoc(disk: Disk, specs: seq<CellSpec>, k: nat)
    requires k < |specs|
    ensures Executions(disk, specs[..k + 1]) == Executions(disk, specs[..k]) + if Parses(disk, CellId(specs[k])) then 0 else 1
  {
    hide CellId, Parses;
    assert specs[..k + 1][..k] == specs[..k];
  }

  lemma ReachedUnfolds(world: nat -> Outcome, b: Bench, specs: seq<CellSpec>, stop: bool, n: nat)
    requires 0 < n <= |specs|
    ensures var r := Reached(world, b, specs, stop, n - 1);
            Reached(world, b, specs, stop, n)
            == if r < n - 1 || (stop && r > 0 && Breaks(world, b, specs, r - 1)) then r else n
  {
    hide Breaks;
  }

  /** The sweep's state, against how far it must have got. */
  ghost predicate GotTo(world: nat -> Outcome, b: Bench, specs: seq<CellSpec>, stop: bool, r: nat, s: SweepState)
    requires r <= |specs|
  {
    && Attempted(s.tally) == r
    && (s.halted <==> stop && r > 0 && Breaks(world, b, specs, r - 1))
    && |s.bench.log| == |b.log| + Executions(b.disk, specs[..r])
  }

  lemma GetsFurther(world: nat -> Outcome, b: Bench, specs: seq<CellSpec>, stop: bool, n: nat)
    requires DistinctIds(specs) && 0 < n <= |specs|
    requires GotTo(world, b, specs, stop, n - 1, Sweep(world, b, specs, stop, n - 1))
    requires !Sweep(world, b, specs, stop, n - 1).halted
    ensures GotTo(world, b, specs, stop, n, Sweep(world, b, specs, stop, n))
  {
    hide RunCell, CellId, Sweep, Attempted, Executions, Unsettled;
    var s, c := Sweep(world, b, specs, stop, n - 1), specs[n - 1];
    SweepUnfolds(world, b, specs, stop, n);
    RunCellLog(world, s.bench, c);
    RunCellUnsettled(world, s.bench, c);
    EarlierIds(specs, n - 1);
    SweepFrame(world, b, specs, stop, n - 1, CellId(c));
    SameParses(b.disk, s.bench.disk, CellId(c));
    ExecutionsSnoc(b.disk, specs, n - 1);
  }

  /** A sweep of distinct cells attempts exactly the cells up to the first that breaks it off. */
  lemma {:induction false} SweepReaches(world: nat -> Outcome, b: Bench, specs: seq<CellSpec>, stop: bool, n: nat)
    requires DistinctIds(specs) && n <= |specs|
    ensures GotTo(world, b, specs, stop, Reached(world, b, specs, stop, n), Sweep(world, b, specs, stop, n))
    decreases n
  {
    hide Sweep, Reached, Breaks, Executions, Attempted;
    if n == 0 {
      ReachesNothing(world, b, specs, stop);
    } else {
      SweepReaches(world, b, specs, stop, n - 1);
      ReachedUnfolds(world, b, specs, stop, n);
      SweepUnfolds(world, b, specs, stop, n);
      AttemptedPrefix(world, b, specs, stop, n - 1);
      if !Sweep(world, b, specs, stop, n - 1).halted {
        GetsFurther(world, b, specs, stop, n);
      }
    }
  }

  // ---------- what a sweep reports and leaves on disk ----------

  /** What cell `k` gives a sweep that gets to it: the result on disk, else what is measured, if it is. */
  function Given(world: nat -> Outcome, b: Bench, specs: seq<CellSpec>, k: nat): Option<CellResult>
    requires k < |specs|
  {
    var id := CellId(specs[k]);
    if Parses(b.disk, id) then Some(b.disk[id].result)
    else
      match world(|b.log| + Executions(b.disk, specs[..k]))
      case Fails => None
      case Measures(ok, d) => Some(CellResult(id, ok, d))
  }

  /** Results and seconds of the first `r` cells. */
  function GivenResults(world: nat -> Outcome, b: Bench, specs: seq<CellSpec>, r: nat): nat
    requires r <= |specs|
  {
    if r == 0 then 0 else GivenResults(world, b, specs, r - 1) + if Given(world, b, specs, r - 1).Some? then 1 else 0
  }

  function GivenSeconds(world: nat -> Outcome, b: Bench, specs: seq<CellSpec>, r: nat): real
    requires r <= |specs|
  {
    if r == 0 then 0.0
    else GivenSeconds(world, b, specs, r - 1)
         + if Given(world, b, specs, r - 1).Some? then Given(world, b, specs, r - 1).value.durationS else 0.0
  }

  /** Cell `k`'s file after the sweep: what it gave, or as before when it gave nothing. */
  ghost predicate Left(world: nat -> Outcome, b: Bench, specs: seq<CellSpec>, k: nat, disk': Disk)
    requires k < |specs|
  {
    var id, g := CellId(specs[k]), Given(world, b, specs, k);
    if g.Some? then id in disk' && disk'[id] == Parsed(g.value) else SameFile(b.disk, disk', id)
  }

  ghost predicate Reports(world: nat -> Outcome, b: Bench, specs: seq<CellSpec>, r: nat, s: SweepState)
    requires r <= |specs|
  {
    && s.tally.completed == GivenResults(world, b, specs, r)
    && s.tally.failed == r - GivenResults(world, b, specs, r)
    && s.tally.duration == GivenSeconds(world, b, specs, r)
    && forall k :: 0 <= k < r ==> Left(world, b, specs, k, s.bench.disk)
  }

  /** One cell run from a bench that agrees with the first one on its file and on how much was executed. */
  lemma RunCellGives(world: nat -> Outcome, b: Bench, specs: seq<CellSpec>, k: nat, b1: Bench)
    requires k < |specs| && SameFile(b.disk, b1.disk, CellId(specs[k]))
    requires |b1.log| == |b.log| + Executions(b.disk, specs[..k])
    ensures RunCell(world, b1, specs[k]).1 == Given(world, b, specs, k)
    ensures Left(world, b, specs, k, RunCell(world, b1, specs[k]).0.disk)
  {
    hide CellId, Executions;
  }

  lemma LeftStays(world: nat -> Outcome, b: Bench, specs: seq<CellSpec>, k: nat, disk: Disk, disk': Disk)
    requires k < |specs| && Left(world, b, specs, k, disk) && SameFile(disk, disk', CellId(specs[k]))
    ensures Left(world, b, specs, k, disk')
  {
    hide CellId, Given;
  }

  lemma ReportsNothing(world: nat -> Outcome, b: Bench, specs: seq<CellSpec>, stop: bool)
    ensures Reports(world, b, specs, 0, Sweep(world, b, specs, stop, 0))
  {}

  lemma ReportsOneMore(world: nat -> Outcome, b: Bench, specs: seq<CellSpec>, stop: bool, n: nat)
    requires DistinctIds(specs) && 0 < n <= |specs| && !Sweep(world, b, specs, stop, n - 1).halted
    requires GotTo(world, b, specs, stop, n - 1, Sweep(world, b, specs, stop, n - 1))
    requires Reports(world, b, specs, n - 1, Sweep(world, b, specs, stop, n - 1))
    ensures Reports(world, b, specs, n, Sweep(world, b, specs, stop, n))
  {
    hide RunCell, CellId, Sweep, Executions, Unsettled, Given, Left, SameFile, Breaks;
    var s, c := Sweep(world, b, specs, stop, n - 1), specs[n - 1];
    SweepUnfolds(world, b, specs, stop, n);
    EarlierIds(specs, n - 1);
    SweepFrame(world, b, specs, stop, n - 1, CellId(c));
    RunCellGives(world, b, specs, n - 1, s.bench);
    forall k | 0 <= k < n - 1 ensures Left(world, b, specs, k, RunCell(world, s.bench, c).0.disk) {
      OtherFile(world, s.bench, c, CellId(specs[k]));
      LeftStays(world, b, specs, k, s.bench.disk, RunCell(world, s.bench, c).0.disk);
    }
  }

  /**
   The report of a sweep of distinct cells, and the files it leaves: completed are the cells
   it gets to that have a stored result or are measured, failed the others, the duration is
   the sum over the completed ones, and each completed cell's file holds its result.
   */
  lemma {:induction false} SweepReports(world: nat -> Outcome, b: Bench, specs: seq<CellSpec>, stop: bool, n: nat)
    requires DistinctIds(specs) && n <= |specs|
    ensures Reports(world, b, specs, Reached(world, b, specs, stop, n), Sweep(world, b, specs, stop, n))
    decreases n
  {
    hide Sweep, Reached, Breaks, Executions, Attempted, Reports;
    if n == 0 {
      ReachesNothing(world, b, specs, stop);
      ReportsNothing(world, b, specs, stop);
    } else {
      SweepReports(world, b, specs, stop, n - 1);
      SweepReaches(world, b, specs, stop, n - 1);
      ReachedUnfolds(world, b, specs, stop, n);
      SweepUnfolds(world, b, specs, stop, n);
      AttemptedPrefix(world, b, specs, stop, n - 1);
      if !Sweep(world, b, specs, stop, n - 1).halted {
        ReportsOneMore(world, b, specs, stop, n);
      }
    }
  }

  lemma ReachesNothing(world: nat -> Outcome, b: Bench, specs: seq<CellSpec>, stop: bool)
    ensures Reached(world, b, specs, stop, 0) == 0
    ensures GotTo(world, b, specs, stop, 0, Sweep(world, b, specs, stop, 0))
  {
    assert specs[..0] == [];
  }

  lemma {:induction false} LenientReachesAll(world: nat -> Outcome, b: Bench, specs: seq<CellSpec>, n: nat)
    requires n <= |specs|
    ensures Reached(world, b, specs, false, n) == n
  {
    hide Breaks;
    if n > 0 {
      LenientReachesAll(world, b, specs, n - 1);
    }
  }

  /** So a sweep shrinks the pending list by exactly its completions iff no cell it gets to has a mismatched file. */
  lemma ShrinksByCompletedIff(world: nat -> Outcome, b: Bench, specs: seq<CellSpec>, stop: bool, n: nat)
    requires DistinctIds(specs) && n <= |Pending(b.disk, specs)|
    ensures var todo := Pending(b.disk, specs);
            var s := Sweep(world, b, todo, stop, n);
            |Pending(s.bench.disk, specs)| == |todo| - s.tally.completed
            <==> NoneMismatched(b.disk, todo[..Reached(world, b, todo, stop, n)])
  {
    hide Sweep, Pending, CellId, Reached, Breaks, Executions, NoneMismatched;
    var todo := Pending(b.disk, specs);
    SweepAccounting(world, b, specs, stop, n);
    PendingDistinct(b.disk, specs);
    SweepReaches(world, b, todo, stop, n);
    StaleZero(b.disk, todo[..Reached(world, b, todo, stop, n)]);
  }

  /** Without the strict flag, exactly when no pending cell has a file under another id. */
  lemma LenientShrinksIff(world: nat -> Outcome, b: Bench, specs: seq<CellSpec>)
    requires DistinctIds(specs)
    ensures var todo := Pending(b.disk, specs);
            var s := Sweep(world, b, todo, false, |todo|);
            |Pending(s.bench.disk, specs)| == |todo| - s.tally.completed <==> NoneMismatched(b.disk, todo)
  {
    hide Sweep, Pending, Reached, NoneMismatched;
    var todo := Pending(b.disk, specs);
    ShrinksByCompletedIff(world, b, specs, false, |todo|);
    LenientReachesAll(world, b, todo, |todo|);
    assert todo[..|todo|] == todo;
  }

  ghost predicate NoneMismatched(disk: Disk, cs: seq<CellSpec>) {
    forall k :: 0 <= k < |cs| ==> !Mismatched(disk, CellId(cs[k]))
  }

  lemma NoneMismatchedSnoc(disk: Disk, cs: seq<CellSpec>)
    requires cs != []
    ensures NoneMismatched(disk, cs) <==> NoneMismatched(disk, cs[..|cs| - 1]) && !Mismatched(disk, CellId(cs[|cs| - 1]))
  {
    hide CellId, Mismatched;
    var front := cs[..|cs| - 1];
    assert forall k :: 0 <= k < |front| ==> front[k] == cs[k];
  }

  lemma {:induction false} StaleZero(disk: Disk, cs: seq<CellSpec>)
    ensures Stale(disk, cs) == 0 <==> NoneMismatched(disk, cs)
  {
    hide CellId, Mismatched, NoneMismatched;
    if cs != [] {
      StaleZero(disk, cs[..|cs| - 1]);
      NoneMismatchedSnoc(disk, cs);
    } else {
      assert NoneMismatched(disk, []) by {
        NothingMismatched(disk);
      }
    }
  }

  lemma NothingMismatched(disk: Disk)
    ensures NoneMismatched(disk, [])
  {}

  // ---------- campaigns of sweeps ----------

  /**
   One sitting of the campaign: a `run_pending` that the process may not survive.  It dies
   after `cut` cells, or in the middle of executing the next one, which then stores nothing.
   */
  datatype Sitting = Sitting(stop: bool, cut: nat, midCell: bool)

  function Sit(world: nat -> Outcome, b: Bench, todo: seq<CellSpec>, x: Sitting): SweepState {
    var n := Min(x.cut, |todo|);
    var s := Sweep(world, b, todo, x.stop, n);
    if x.midCell && n < |todo| && !s.halted && !Parses(s.bench.disk, CellId(todo[n])) then
      s.(bench := s.bench.(log := s.bench.log + [CellId(todo[n])]))
    else s
  }

  /** The sittings one after the other; the cells they completed add up. */
  function Campaign(world: nat -> Outcome, b: Bench, specs: seq<CellSpec>, xs: seq<Sitting>): (Bench, nat) {
    if xs == [] then (b, 0)
    else
      var (b1, done) := Campaign(world, b, specs, xs[..|xs| - 1]);
      var s := Sit(world, b1, Pending(b1.disk, specs), xs[|xs| - 1]);
      (s.bench, done + s.tally.completed)
  }

  /** Dying changes neither the directory nor what was completed. */
  lemma SittingIsSweep(world: nat -> Outcome, b: Bench, todo: seq<CellSpec>, x: Sitting)
    ensures var s, swept := Sit(world, b, todo, x), Sweep(world, b, todo, x.stop, Min(x.cut, |todo|));
            s.bench.disk == swept.bench.disk && s.tally == swept.tally
  {
    hide Sweep, CellId, Parses;
  }

  lemma ConsistentSitting(world: nat -> Outcome, b: Bench, specs: seq<CellSpec>, x: Sitting)
    requires DistinctIds(specs) && Consistent(b.disk)
    ensures var s := Sit(world, b, Pending(b.disk, specs), x);
            Consistent(s.bench.disk) && |Pending(s.bench.disk, specs)| + s.tally.completed == |Pending(b.disk, specs)|
  {
    hide Sweep, Pending, CellId, Sit, Stale;
    var todo := Pending(b.disk, specs);
    var n := Min(x.cut, |todo|);
    SittingIsSweep(world, b, todo, x);
    SweepAccounting(world, b, specs, x.stop, n);
    SweepConsistent(world, b, todo, x.stop, n);
    NoForeign(b.disk, todo[..Attempted(Sweep(world, b, todo, x.stop, n).tally)]);
  }

  lemma NoForeign(disk: Disk, cs: seq<CellSpec>)
    requires Consistent(disk)
    ensures Stale(disk, cs) == 0
  {
    hide CellId, Stale;
    ConsistentMatches(disk, cs);
    StaleZero(disk, cs);
  }

  /**
   Resume: over any number of sittings, each cut short, stopped or failing anywhere, from a
   directory with no foreign ids, the completions are exactly the cells taken off the pending
   list, so no cell is completed twice.
   */
  lemma {:induction false} CampaignAccounting(world: nat -> Outcome, b: Bench, specs: seq<CellSpec>, xs: seq<Sitting>)
    requires DistinctIds(specs) && Consistent(b.disk)
    ensures var (b', done) := Campaign(world, b, specs, xs);
            Consistent(b'.disk) && |Pending(b'.disk, specs)| + done == |Pending(b.disk, specs)|
  {
    hide Sit, Pending, Consistent, DistinctIds;
    if xs != [] {
      CampaignAccounting(world, b, specs, xs[..|xs| - 1]);
      ConsistentSitting(world, Campaign(world, b, specs, xs[..|xs| - 1]).0, specs, xs[|xs| - 1]);
    }
  }

  lemma SittingPreserves(world: nat -> Outcome, b: Bench, todo: seq<CellSpec>, x: Sitting, id: string)
    requires id in b.disk && b.disk[id].Parsed?
    ensures Keeps(b, Sit(world, b, todo, x).bench, id)
  {
    hide Sweep, CellId;
    var n := Min(x.cut, |todo|);
    SweepPreserves(world, b, todo, x.stop, n, id);
    var b1, b2 := Sweep(world, b, todo, x.stop, n).bench, Sit(world, b, todo, x).bench;
    assert Keeps(b1, b2, id);
    KeepsChain(b, b1, b2, id);
  }

  /** Any parseable file, valid or foreign, is never re-executed and never changed. */
  lemma {:induction false} CampaignPreserves(world: nat -> Outcome, b: Bench, specs: seq<CellSpec>, xs: seq<Sitting>, id: string)
    requires id in b.disk && b.disk[id].Parsed?
    ensures Keeps(b, Campaign(world, b, specs, xs).0, id)
  {
    hide Sit, Pending;
    if xs != [] {
      CampaignPreserves(world, b, specs, xs[..|xs| - 1], id);
      var b1 := Campaign(world, b, specs, xs[..|xs| - 1]).0;
      var todo, x := Pending(b1.disk, specs), xs[|xs| - 1];
      SittingPreserves(world, b1, todo, x, id);
      KeepsChain(b, b1, Sit(world, b1, todo, x).bench, id);
    }
  }

  /**
   A foreign id never heals: the cell is listed as pending, every sweep answers it from the
   foreign file, and it is still pending afterwards.
   */
  lemma MismatchNeverHeals(world: nat -> Outcome, b: Bench, specs: seq<CellSpec>, xs: seq<Sitting>, c: CellSpec)
    requires c in specs && Mismatched(b.disk, CellId(c))
    ensures var b' := Campaign(world, b, specs, xs).0;
            c in Pending(b'.disk, specs) && Keeps(b, b', CellId(c))
  {
    hide Campaign, CellId;
    CampaignPreserves(world, b, specs, xs, CellId(c));
    PendingMembers(Campaign(world, b, specs, xs).0.disk, specs, c);
  }

  // ---------- which cells are executed ----------

  /** `id` was executed between `b` and `b'`. */
  ghost predicate ExecutedSince(b: Bench, b': Bench, id: string) {
    |b.log| <= |b'.log| && b'.log[..|b.log|] == b.log && id in b'.log[|b.log|..]
  }

  ghost predicate Extends(b: Bench, b': Bench) {
    |b.log| <= |b'.log| && b'.log[..|b.log|] == b.log
  }

  /** One cell's effect on the log. */
  lemma RunCellLog(world: nat -> Outcome, b: Bench, c: CellSpec)
    ensures RunCell(world, b, c).0.log == b.log + if Parses(b.disk, CellId(c)) then [] else [CellId(c)]
  {
    hide CellId;
  }

  lemma LogSnoc(b: Bench, b1: Bench, b2: Bench, more: seq<string>, id: string)
    requires Extends(b, b1) && b2.log == b1.log + more
    ensures Extends(b, b2) && (ExecutedSince(b, b2, id) <==> ExecutedSince(b, b1, id) || id in more)
  {
    assert b2.log[|b.log|..] == b1.log[|b.log|..] + more;
  }

  /** A cell is executed exactly when the sweep got to it and its file was absent or corrupt. */
  lemma {:induction false} ExecutedWhenAttempted(world: nat -> Outcome, b: Bench, specs: seq<CellSpec>, stop: bool, n: nat, k: nat)
    requires DistinctIds(specs) && n <= |specs| && k < |specs|
    ensures var s := Sweep(world, b, specs, stop, n);
            && Extends(b, s.bench) && Attempted(s.tally) <= n
            && (ExecutedSince(b, s.bench, CellId(specs[k])) <==> k < Attempted(s.tally) && !Parses(b.disk, CellId(specs[k])))
    decreases n
  {
    hide RunCell, CellId, Sweep, Parses, Extends, ExecutedSince, Attempted;
    if n == 0 {
      NothingYet(world, b, specs, stop, CellId(specs[k]));
    } else {
      ExecutedWhenAttempted(world, b, specs, stop, n - 1, k);
      AttemptedPrefix(world, b, specs, stop, n - 1);
      SweepUnfolds(world, b, specs, stop, n);
      var s, c := Sweep(world, b, specs, stop, n - 1), specs[n - 1];
      if !s.halted {
        RunCellLog(world, s.bench, c);
        EarlierIds(specs, n - 1);
        SweepFrame(world, b, specs, stop, n - 1, CellId(c));
        SameParses(b.disk, s.bench.disk, CellId(c));
        LogSnoc(b, s.bench, RunCell(world, s.bench, c).0, if Parses(s.bench.disk, CellId(c)) then [] else [CellId(c)], CellId(specs[k]));
        if k != n - 1 {
          assert CellId(specs[k]) != CellId(c);
        }
      }
    }
  }

  /**
   Over any sweep of distinct cells, a cell is executed exactly when no earlier cell breaks
   the sweep off and its file is absent or corrupt.
   */
  lemma ExecutedIff(world: nat -> Outcome, b: Bench, specs: seq<CellSpec>, stop: bool, n: nat, k: nat)
    requires DistinctIds(specs) && n <= |specs| && k < |specs|
    ensures ExecutedSince(b, Sweep(world, b, specs, stop, n).bench, CellId(specs[k]))
       <==> k < Reached(world, b, specs, stop, n) && !Parses(b.disk, CellId(specs[k]))
  {
    hide CellId, Sweep, Parses, ExecutedSince, Reached, Breaks, Executions;
    ExecutedWhenAttempted(world, b, specs, stop, n, k);
    SweepReaches(world, b, specs, stop, n);
  }

  lemma NothingYet(world: nat -> Outcome, b: Bench, specs: seq<CellSpec>, stop: bool, id: string)
    ensures var s := Sweep(world, b, specs, stop, 0);
            Extends(b, s.bench) && Attempted(s.tally) == 0 && !ExecutedSince(b, s.bench, id)
  {}

  lemma EarlierIds(specs: seq<CellSpec>, n: nat)
    requires DistinctIds(specs) && n < |specs|
    ensures Absent(specs, n, CellId(specs[n]))
  {
    hide CellId;
  }

  lemma SameParses(disk: Disk, disk': Disk, id: string)
    requires SameFile(disk, disk', id)
    ensures Parses(disk, id) <==> Parses(disk', id)
  {}

  /** Every cell of the list was executed. */
  ghost predicate AllExecuted(b: Bench, b': Bench, specs: seq<CellSpec>) {
    forall k :: 0 <= k < |specs| ==> ExecutedSince(b, b', CellId(specs[k]))
  }

  ghost predicate NoneParses(disk: Disk, specs: seq<CellSpec>) {
    forall k :: 0 <= k < |specs| ==> !Parses(disk, CellId(specs[k]))
  }

  /**
   "Run every cell in the matrix, regardless of existing JSON", exactly: an unstopped sweep
   over the whole matrix executes every cell if and only if no cell has a file that parses.
   */
  lemma RunAllExecutesAllIff(world: nat -> Outcome, b: Bench, specs: seq<CellSpec>)
    requires DistinctIds(specs)
    ensures AllExecuted(b, Sweep(world, b, specs, false, |specs|).bench, specs) <==> NoneParses(b.disk, specs)
  {
    hide Sweep, CellId, Parses, ExecutedSince, Reached;
    LenientReachesAll(world, b, specs, |specs|);
    var b' := Sweep(world, b, specs, false, |specs|).bench;
    forall k | 0 <= k < |specs|
      ensures ExecutedSince(b, b', CellId(specs[k])) <==> !Parses(b.disk, CellId(specs[k]))
    {
      ExecutedIff(world, b, specs, false, |specs|, k);
    }
  }

  /** When every cell parses it executes nothing and still reports every cell completed. */
  lemma {:induction false} RunAllSkipsStored(world: nat -> Outcome, b: Bench, specs: seq<CellSpec>, n: nat)
    requires n <= |specs| && forall c :: c in specs ==> CellId(c) in b.disk && b.disk[CellId(c)].Parsed?
    ensures var s := Sweep(world, b, specs, false, n); s.bench == b && s.tally.completed == n && s.tally.failed == 0 && !s.halted
    decreases n
  {
    hide Sweep, RunCell, CellId;
    if n == 0 {
      SweepStart(world, b, specs, false);
    } else {
      RunAllSkipsStored(world, b, specs, n - 1);
      SweepUnfolds(world, b, specs, false, n);
      assert specs[n - 1] in specs;
      RunCellFrame(world, b, specs[n - 1]);
    }
  }

  /** With no failures and no foreign ids, one uninterrupted sweep finishes the matrix. */
  lemma SweepFinishes(world: nat -> Outcome, b: Bench, specs: seq<CellSpec>)
    requires DistinctIds(specs) && Consistent(b.disk) && forall k: nat :: world(k).Measures?
    ensures var todo := Pending(b.disk, specs);
            var s := Sweep(world, b, todo, false, |todo|);
            s.tally.completed == |todo| && Pending(s.bench.disk, specs) == []
  {
    hide Sweep, Pending, Consistent, NoneMismatched, CellId;
    var todo := Pending(b.disk, specs);
    NoFailures(world, b, todo, |todo|);
    ConsistentMatches(b.disk, todo);
    LenientShrinksIff(world, b, specs);
  }

  lemma ConsistentMatches(disk: Disk, cs: seq<CellSpec>)
    requires Consistent(disk)
    ensures NoneMismatched(disk, cs)
  {
    hide CellId;
  }

  lemma MeasuredCell(world: nat -> Outcome, b: Bench, c: CellSpec)
    requires forall k: nat :: world(k).Measures?
    ensures RunCell(world, b, c).1.Some?
  {
    hide CellId;
  }

  lemma {:induction false} NoFailures(world: nat -> Outcome, b: Bench, specs: seq<CellSpec>, n: nat)
    requires n <= |specs| && forall k: nat :: world(k).Measures?
    ensures var s := Sweep(world, b, specs, false, n); s.tally.completed == n && s.tally.failed == 0 && !s.halted
    decreases n
  {
    hide Sweep, RunCell;
    if n == 0 {
      SweepStart(world, b, specs, false);
    } else {
      NoFailures(world, b, specs, n - 1);
      SweepUnfolds(world, b, specs, false, n);
      MeasuredCell(world, Sweep(world, b, specs, false, n - 1).bench, specs[n - 1]);
    }
  }
}
