/** The cell matrix, its files on disk, and the resumable sweep over it. */
module Matrix {
  import opened Prelude
  import opened RequestIds

  // ---------- cells and their ids (bench/schema/cell_schema.py) ----------

  datatype Topology = COLOCATED | CHUNKED | DISAGG | DISAGG_TIER
  datatype Model = QWEN3_1_7B | QWEN2_5_7B | QWEN3_30B
  datatype Mix = CHAT | RAG | AGENTIC

  datatype CellSpec = CellSpec(topology: Topology, model: Model, rate: nat, mix: Mix, warmup: nat, measure: nat)

  function TopologyName(t: Topology): string {
    match t
    case COLOCATED => "colocated"
    case CHUNKED => "chunked"
    case DISAGG => "disagg"
    case DISAGG_TIER => "disagg_tier"
  }

  function ModelName(m: Model): string {
    match m
    case QWEN3_1_7B => "qwen3-1.7b"
    case QWEN2_5_7B => "qwen2.5-7b"
    case QWEN3_30B => "qwen3-30b"
  }

  function MixName(m: Mix): string {
    match m
    case CHAT => "chat"
    case RAG => "rag"
    case AGENTIC => "agentic"
  }

  function CellId(c: CellSpec): string {
    TopologyName(c.topology) + ("__" + (ModelName(c.model) + ("__rate-" + (Decimal(c.rate) + ("__" + MixName(c.mix))))))
  }

  lemma TopologySplit(t: Topology, t': Topology, u: string, v: string)
    requires TopologyName(t) + ("__" + u) == TopologyName(t') + ("__" + v)
    ensures t == t' && u == v
  {
    var w, w' := TopologyName(t) + ("__" + u), TopologyName(t') + ("__" + v);
    assert w[1] == TopologyName(t)[1] && w'[1] == TopologyName(t')[1];
    assert t == DISAGG ==> w[7] == '_';
    assert t' == DISAGG ==> w'[7] == '_';
    assert t == t';
    SamePrefix(TopologyName(t), "__" + u, "__" + v);
    SamePrefix("__", u, v);
  }

  lemma ModelSplit(m: Model, m': Model, u: string, v: string)
    requires ModelName(m) + u == ModelName(m') + v
    ensures m == m' && u == v
  {
    var w, w' := ModelName(m) + u, ModelName(m') + v;
    assert w[4] == ModelName(m)[4] && w'[4] == ModelName(m')[4];
    assert w[6] == ModelName(m)[6] && w'[6] == ModelName(m')[6];
    assert m == m';
    SamePrefix(ModelName(m), u, v);
  }

  /** The id determines all four coordinates of the cell. */
  lemma CellIdInjective(c: CellSpec, d: CellSpec)
    requires CellId(c) == CellId(d)
    ensures c.topology == d.topology && c.model == d.model && c.rate == d.rate && c.mix == d.mix
  {
    hide TopologyName, ModelName, Decimal;
    var r, r' := "__" + MixName(c.mix), "__" + MixName(d.mix);
    var m, m' := "__rate-" + (Decimal(c.rate) + r), "__rate-" + (Decimal(d.rate) + r');
    TopologySplit(c.topology, d.topology, ModelName(c.model) + m, ModelName(d.model) + m');
    ModelSplit(c.model, d.model, m, m');
    SamePrefix("__rate-", Decimal(c.rate) + r, Decimal(d.rate) + r');
    DigitsSplit(Decimal(c.rate), Decimal(d.rate), r, r');
    DecimalInjective(c.rate, d.rate);
    SamePrefix("__", MixName(c.mix), MixName(d.mix));
    assert MixName(c.mix)[0] == MixName(d.mix)[0];
  }

  /** Substring search, as in `"__rate-" in path.name`. */
  predicate HasRate(name: string) {
    exists i :: 0 <= i < |name| && RateAt(name, i)
  }

  predicate RateAt(name: string, i: nat) {
    i + 7 <= |name| && name[i..i + 7] == "__rate-"
  }

  lemma CellIdHasRate(c: CellSpec, suffix: string)
    ensures HasRate(CellId(c) + suffix)
  {
    var i := |TopologyName(c.topology)| + 2 + |ModelName(c.model)|;
    var front := TopologyName(c.topology) + "__" + ModelName(c.model);
    var tail := Decimal(c.rate) + ("__" + MixName(c.mix)) + suffix;
    assert CellId(c) + suffix == front + "__rate-" + tail;
    assert RateAt(CellId(c) + suffix, i);
  }

  // ---------- the matrix (bench/runpod_matrix.py) ----------

  datatype MatrixSpec = MatrixSpec(
    topologies: seq<Topology>,
    models: seq<Model>,
    rates: seq<nat>,
    mixes: seq<Mix>,
    warmup: nat,
    measure: nat)

  /** A nested loop over `xs` that yields `f(x)` for each. */
  function FlatMap<A, B>(xs: seq<A>, f: A -> seq<B>): seq<B> {
    if xs == [] then [] else f(xs[0]) + FlatMap(xs[1..], f)
  }

  function MixCells(m: MatrixSpec, t: Topology, md: Model, r: nat): seq<CellSpec> {
    FlatMap(m.mixes, x => [CellSpec(t, md, r, x, m.warmup, m.measure)])
  }

  function RateCells(m: MatrixSpec, t: Topology, md: Model): seq<CellSpec> {
    FlatMap(m.rates, r => MixCells(m, t, md, r))
  }

  function ModelCells(m: MatrixSpec, t: Topology): seq<CellSpec> {
    FlatMap(m.models, md => RateCells(m, t, md))
  }

  function Cells(m: MatrixSpec): seq<CellSpec> {
    FlatMap(m.topologies, t => ModelCells(m, t))
  }

  // ---------- files on disk ----------

  datatype CellResult = CellResult(cellId: string, reconcilePasses: bool, durationS: real)

  /** A cell file either fails to parse or holds a result. */
  datatype File = Corrupt | Parsed(result: CellResult)

  /** The `*.json` files of the directory, by stem. */
  type Disk = map<string, File>

  /** A parseable file whose id matches its name. */
  predicate ValidOn(disk: Disk, id: string) {
    id in disk && disk[id].Parsed? && disk[id].result.cellId == id
  }

  /** Parseable under another id. */
  predicate Mismatched(disk: Disk, id: string) {
    id in disk && disk[id].Parsed? && disk[id].result.cellId != id
  }

  function Pending(disk: Disk, specs: seq<CellSpec>): seq<CellSpec> {
    if specs == [] then []
    else (if ValidOn(disk, CellId(specs[0])) then [] else [specs[0]]) + Pending(disk, specs[1..])
  }

  // ---------- running cells ----------

  /** What the measurement of one cell does, decided outside. */
  datatype Outcome = Fails | Measures(reconcilePasses: bool, durationS: real)

  /** The directory and the ids executed so far; the k-th execution meets outcome `world(k)`. */
  datatype Bench = Bench(disk: Disk, log: seq<string>)

  datatype Tally = Tally(completed: nat, failed: nat, duration: real)

  /** The sweep's loop state; `halted` once it has broken off. */
  datatype SweepState = SweepState(bench: Bench, tally: Tally, halted: bool)

  function RunCell(world: nat -> Outcome, b: Bench, c: CellSpec): (Bench, Option<CellResult>) {
    var id := CellId(c);
    if id in b.disk && b.disk[id].Parsed? then (b, Some(b.disk[id].result))
    else
      match world(|b.log|)
      case Fails => (b.(log := b.log + [id]), None)
      case Measures(ok, d) =>
        var result := CellResult(id, ok, d);
        (Bench(b.disk[id := Parsed(result)], b.log + [id]), Some(result))
  }

  /** One pass through the loop body. */
  function SweepOne(world: nat -> Outcome, s: SweepState, c: CellSpec, stop: bool): SweepState {
    var (b, r) := RunCell(world, s.bench, c);
    var t := s.tally;
    if r.None? then SweepState(b, t.(failed := t.failed + 1), stop)
    else SweepState(b, t.(completed := t.completed + 1, duration := t.duration + r.value.durationS),
                    stop && !r.value.reconcilePasses)
  }

  /** The loop after the first `n` specs. */
  function Sweep(world: nat -> Outcome, b: Bench, specs: seq<CellSpec>, stop: bool, n: nat): SweepState
    requires n <= |specs|
    decreases n
  {
    if n == 0 then SweepState(b, Tally(0, 0, 0.0), false)
    else
      var s := Sweep(world, b, specs, stop, n - 1);
      if s.halted then s else SweepOne(world, s, specs[n - 1], stop)
  }

  lemma {:induction false} HaltedStays(world: nat -> Outcome, b: Bench, specs: seq<CellSpec>, stop: bool, i: nat, n: nat)
    requires i <= n <= |specs| && Sweep(world, b, specs, stop, i).halted
    ensures Sweep(world, b, specs, stop, n) == Sweep(world, b, specs, stop, i)
    decreases n - i
  {
    hide SweepOne;
    if i < n {
      HaltedStays(world, b, specs, stop, i + 1, n);
    }
  }

  lemma {:induction false} PendingBySet(disk: Disk, specs: seq<CellSpec>, existing: set<string>)
    requires forall c :: c in specs ==> (CellId(c) in existing <==> ValidOn(disk, CellId(c)))
    ensures Pending(disk, specs) == WithoutIds(specs, existing)
  {
    hide CellId, ValidOn;
    if specs != [] {
      assert specs[0] in specs;
      PendingBySet(disk, specs[1..], existing);
    }
  }

  function WithoutIds(specs: seq<CellSpec>, existing: set<string>): seq<CellSpec> {
    if specs == [] then []
    else (if CellId(specs[0]) in existing then [] else [specs[0]]) + WithoutIds(specs[1..], existing)
  }

  const SIDECARS := {"summary", "preflight"}

  lemma NotSidecar(c: CellSpec)
    ensures CellId(c) !in SIDECARS
  {
    assert CellId(c)[1] == TopologyName(c.topology)[1];
  }

  class BenchMatrix {
    const specs: seq<CellSpec>
    const world: nat -> Outcome
    var disk: Disk
    var log: seq<string>

    ghost function View(): Bench
      reads this
    {
      Bench(disk, log)
    }

    constructor (spec: MatrixSpec, world: nat -> Outcome, disk: Disk)
      ensures specs == Cells(spec) && this.world == world && View() == Bench(disk, [])
    {
      this.specs, this.world, this.disk, log := Cells(spec), world, disk, [];
    }

    /** Scans the directory in any order, skipping the sidecars. */
    method PendingCellSpecs() returns (pending: seq<CellSpec>)
      ensures pending == Pending(disk, specs)
    {
      var existing: set<string> := {};
      var unread := disk.Keys;
      while unread != {}
        invariant unread <= disk.Keys
        invariant existing == set id | id in disk.Keys - unread && id !in SIDECARS && ValidOn(disk, id)
        decreases |unread|
      {
        var stem :| stem in unread;
        unread := unread - {stem};
        if stem !in SIDECARS && disk[stem].Parsed? && disk[stem].result.cellId == stem {
          existing := existing + {disk[stem].result.cellId};
        }
      }
      forall c | c in specs ensures CellId(c) in existing <==> ValidOn(disk, CellId(c)) {
        NotSidecar(c);
      }
      PendingBySet(disk, specs, existing);
      return WithoutIds(specs, existing);
    }

    /** Skips a parseable file, whatever its id; otherwise measures and writes. */
    method RunOne(c: CellSpec) returns (r: Option<CellResult>)
      modifies this
      ensures (View(), r) == RunCell(world, old(View()), c)
    {
      var id := CellId(c);
      if id in disk {
        if disk[id].Parsed? {
          return Some(disk[id].result);
        }
      }
      var outcome := world(|log|);
      log := log + [id];
      match outcome {
        case Fails =>
          return None;
        case Measures(ok, d) =>
          var result := CellResult(id, ok, d);
          disk := disk[result.cellId := Parsed(result)];
          return Some(result);
      }
    }

    method RunSpecs(todo: seq<CellSpec>, stop: bool) returns (t: Tally)
      modifies this
      ensures View() == Sweep(world, old(View()), todo, stop, |todo|).bench
      ensures t == Sweep(world, old(View()), todo, stop, |todo|).tally
    {
      hide RunCell;
      t := Tally(0, 0, 0.0);
      for i := 0 to |todo|
        invariant SweepState(View(), t, false) == Sweep(world, old(View()), todo, stop, i)
      {
        var r := RunOne(todo[i]);
        if r.None? {
          t := t.(failed := t.failed + 1);
          if stop {
            HaltedStays(world, old(View()), todo, stop, i + 1, |todo|);
            break;
          }
        } else {
          t := t.(completed := t.completed + 1, duration := t.duration + r.value.durationS);
          if stop && !r.value.reconcilePasses {
            HaltedStays(world, old(View()), todo, stop, i + 1, |todo|);
            break;
          }
        }
      }
    }

    method RunPending(stop: bool) returns (t: Tally)
      modifies this
      ensures var todo := Pending(old(disk), specs);
              && View() == Sweep(world, old(View()), todo, stop, |todo|).bench
              && t == Sweep(world, old(View()), todo, stop, |todo|).tally
    {
      var todo := PendingCellSpecs();
      t := RunSpecs(todo, stop);
    }

    method RunAll(stop: bool) returns (t: Tally)
      modifies this
      ensures View() == Sweep(world, old(View()), specs, stop, |specs|).bench
      ensures t == Sweep(world, old(View()), specs, stop, |specs|).tally
    {
      t := RunSpecs(specs, stop);
    }
  }
}
