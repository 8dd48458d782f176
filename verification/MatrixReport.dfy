/** bench/matrix_report.py: the read-only diagnosis of how much of the matrix is on disk. */
module MatrixReport {
  import opened RealArith
  import opened Matrix
  import opened MatrixTheory

  datatype Report = Report(
    expectedTotal: nat,
    onDisk: nat,
    missingByTopology: map<Topology, nat>,
    missingIds: set<string>,
    corrupt: set<string>,
    completionPct: real)

  /** A cell file by the naming convention; other artifacts are ignored. */
  predicate CellFile(stem: string) {
    HasRate(stem + ".json")
  }

  /** Valid ids and corrupt or mismatched files among the cell files. */
  method ScanRaw(disk: Disk) returns (valid: set<string>, corrupt: set<string>)
    ensures valid == set id | id in disk && CellFile(id) && ValidOn(disk, id)
    ensures corrupt == set id | id in disk && CellFile(id) && !ValidOn(disk, id)
  {
    hide HasRate;
    valid, corrupt := {}, {};
    var unread := disk.Keys;
    while unread != {}
      invariant unread <= disk.Keys
      invariant valid == set id | id in disk.Keys - unread && CellFile(id) && ValidOn(disk, id)
      invariant corrupt == set id | id in disk.Keys - unread && CellFile(id) && !ValidOn(disk, id)
      decreases |unread|
    {
      var stem :| stem in unread;
      unread := unread - {stem};
      if CellFile(stem) {
        if disk[stem].Corrupt? {
          corrupt := corrupt + {stem};
        } else if disk[stem].result.cellId != stem {
          corrupt := corrupt + {stem};
        } else {
          valid := valid + {disk[stem].result.cellId};
        }
      }
    }
  }

  function IdsOf(specs: seq<CellSpec>): set<string> {
    set c | c in specs :: CellId(c)
  }

  /** The expected ids that are not valid on disk are the ids of the pending cells. */
  lemma MissingIsPending(disk: Disk, specs: seq<CellSpec>, valid: set<string>)
    requires valid == set id | id in disk && CellFile(id) && ValidOn(disk, id)
    ensures IdsOf(specs) - valid == IdsOf(Pending(disk, specs))
  {
    hide CellId, HasRate, Pending;
    forall c: CellSpec
      ensures c in Pending(disk, specs) <==> c in specs && !ValidOn(disk, CellId(c))
      ensures CellFile(CellId(c))
    {
      PendingMembers(disk, specs, c);
      CellIdHasRate(c, ".json");
    }
  }

  lemma IdsOfCons(specs: seq<CellSpec>)
    requires specs != []
    ensures IdsOf(specs) == IdsOf(specs[1..]) + {CellId(specs[0])}
    ensures DistinctIds(specs) ==> DistinctIds(specs[1..]) && CellId(specs[0]) !in IdsOf(specs[1..])
  {
    hide CellId;
    var rest := specs[1..];
    assert forall k :: 0 <= k < |rest| ==> rest[k] == specs[k + 1];
    assert specs == [specs[0]] + rest;
  }

  lemma {:induction false} DistinctIdCount(specs: seq<CellSpec>)
    requires DistinctIds(specs)
    ensures |IdsOf(specs)| == |specs|
  {
    if specs == [] {
      assert IdsOf(specs) == {};
    } else {
      hide CellId, IdsOf, DistinctIds;
      IdsOfCons(specs);
      DistinctIdCount(specs[1..]);
    }
  }

  /** Missing cells of one topology. */
  function MissingIn(ids: set<string>, topo: map<string, Topology>, t: Topology): set<string> {
    set id | id in ids && id in topo && topo[id] == t
  }

  function Count(m: map<Topology, nat>, t: Topology): nat {
    if t in m then m[t] else 0
  }

  function CountAll(m: map<Topology, nat>): nat {
    Count(m, COLOCATED) + Count(m, CHUNKED) + Count(m, DISAGG) + Count(m, DISAGG_TIER)
  }

  /** `topo_for_id`: well defined because the id determines the topology. */
  method TopologyForId(specs: seq<CellSpec>) returns (topo: map<string, Topology>)
    ensures topo.Keys == IdsOf(specs)
    ensures forall c :: c in specs ==> CellId(c) in topo && topo[CellId(c)] == c.topology
  {
    hide CellId;
    topo := map[];
    for i := 0 to |specs|
      invariant topo.Keys == IdsOf(specs[..i])
      invariant forall c :: c in specs[..i] ==> CellId(c) in topo && topo[CellId(c)] == c.topology
    {
      assert specs[..i + 1] == specs[..i] + [specs[i]];
      forall c | c in specs[..i] && CellId(c) == CellId(specs[i]) ensures c.topology == specs[i].topology {
        CellIdInjective(c, specs[i]);
      }
      topo := topo[CellId(specs[i]) := specs[i].topology];
    }
    assert specs[..|specs|] == specs;
  }

  lemma OneMore(done: set<string>, id: string, topo: map<string, Topology>, u: Topology)
    requires id !in done && id in topo
    ensures |MissingIn(done + {id}, topo, u)| == |MissingIn(done, topo, u)| + if topo[id] == u then 1 else 0
  {
    if topo[id] == u {
      assert MissingIn(done + {id}, topo, u) == MissingIn(done, topo, u) + {id};
    } else {
      assert MissingIn(done + {id}, topo, u) == MissingIn(done, topo, u);
    }
  }

  ghost predicate Counted(byTopo: map<Topology, nat>, done: set<string>, topo: map<string, Topology>) {
    CountAll(byTopo) == |done| && forall t: Topology :: Count(byTopo, t) == |MissingIn(done, topo, t)|
  }

  lemma CountBumped(m: map<Topology, nat>, t: Topology)
    ensures var m' := m[t := Count(m, t) + 1];
            && CountAll(m') == CountAll(m) + 1
            && forall u: Topology :: Count(m', u) == Count(m, u) + if u == t then 1 else 0
  {
    assert t == COLOCATED || t == CHUNKED || t == DISAGG || t == DISAGG_TIER;
  }

  lemma CountOneMore(byTopo: map<Topology, nat>, done: set<string>, id: string, topo: map<string, Topology>)
    requires Counted(byTopo, done, topo) && id !in done && id in topo
    ensures Counted(byTopo[topo[id] := Count(byTopo, topo[id]) + 1], done + {id}, topo)
  {
    hide MissingIn, Count, CountAll;
    CountBumped(byTopo, topo[id]);
    forall u: Topology ensures |MissingIn(done + {id}, topo, u)| == |MissingIn(done, topo, u)| + if topo[id] == u then 1 else 0 {
      OneMore(done, id, topo, u);
    }
  }

  lemma NothingCounted(topo: map<string, Topology>)
    ensures Counted(map[], {}, topo)
  {
    assert forall t :: MissingIn({}, topo, t) == {};
  }

  /** The counter over missing ids. */
  method CountMissing(missing: set<string>, topo: map<string, Topology>) returns (byTopo: map<Topology, nat>)
    requires missing <= topo.Keys
    ensures Counted(byTopo, missing, topo)
  {
    hide Counted, MissingIn, Count;
    byTopo := map[];
    var rest := missing;
    NothingCounted(topo);
    assert missing - rest == {};
    while rest != {}
      invariant rest <= missing
      invariant Counted(byTopo, missing - rest, topo)
      decreases |rest|
    {
      var id :| id in rest;
      CountOneMore(byTopo, missing - rest, id, topo);
      assert missing - (rest - {id}) == (missing - rest) + {id};
      rest := rest - {id};
      byTopo := byTopo[topo[id] := Count(byTopo, topo[id]) + 1];
    }
    assert missing - rest == missing;
  }

  /** Every topology gets an entry, zero when nothing is missing. */
  method WithDefaults(counted: map<Topology, nat>) returns (byTopo: map<Topology, nat>)
    ensures byTopo.Keys == {COLOCATED, CHUNKED, DISAGG, DISAGG_TIER}
    ensures forall t: Topology :: Count(byTopo, t) == Count(counted, t)
  {
    byTopo := counted;
    var topologies := [COLOCATED, CHUNKED, DISAGG, DISAGG_TIER];
    for i := 0 to |topologies|
      invariant forall k :: 0 <= k < i ==> topologies[k] in byTopo
      invariant forall t: Topology :: Count(byTopo, t) == Count(counted, t)
    {
      if topologies[i] !in byTopo {
        byTopo := byTopo[topologies[i] := 0];
      }
    }
    forall t: Topology ensures t in byTopo && t in {COLOCATED, CHUNKED, DISAGG, DISAGG_TIER} {
      match t {
        case COLOCATED => assert topologies[0] in byTopo;
        case CHUNKED => assert topologies[1] in byTopo;
        case DISAGG => assert topologies[2] in byTopo;
        case DISAGG_TIER => assert topologies[3] in byTopo;
      }
    }
  }

  /**
   The report agrees with the resumable sweep: the missing ids are exactly the ids of the
   pending cells, grouped by topology without loss.
   */
  method SweepCompletionReport(disk: Disk, m: MatrixSpec) returns (r: Report)
    ensures r.missingIds == IdsOf(Pending(disk, Cells(m)))
    ensures CountAll(r.missingByTopology) == |r.missingIds|
    ensures r.missingByTopology.Keys == {COLOCATED, CHUNKED, DISAGG, DISAGG_TIER}
    ensures forall t :: t in r.missingByTopology ==>
              r.missingByTopology[t] == |set c | c in Pending(disk, Cells(m)) && c.topology == t :: CellId(c)|
    ensures DistinctIds(Cells(m)) ==>
              |r.missingIds| == |Pending(disk, Cells(m))| && r.expectedTotal == |Cells(m)|
    ensures forall id :: id in r.corrupt <==> id in disk && CellFile(id) && !ValidOn(disk, id)
    ensures r.onDisk == |set id | id in disk && CellFile(id) && ValidOn(disk, id)|
    ensures Prod(r.completionPct, r.expectedTotal as real) == 100.0 * (r.expectedTotal - |r.missingIds|) as real
    ensures r.expectedTotal == |IdsOf(Cells(m))|
    ensures r.expectedTotal == 0 ==> r.completionPct == 100.0
  {
    hide CellId, HasRate, Pending, Cells, DistinctIds, IdsOf, ValidOn, MissingIn, Prod, Quot;
    var specs := Cells(m);
    var expected := IdsOf(specs);
    var valid, corrupt := ScanRaw(disk);
    var missing := expected - valid;
    MissingIsPending(disk, specs, valid);
    var topo := TopologyForId(specs);
    var counted := CountMissing(missing, topo);
    var byTopo := WithDefaults(counted);
    forall t | t in byTopo
      ensures byTopo[t] == |set c | c in Pending(disk, specs) && c.topology == t :: CellId(c)|
    {
      assert byTopo[t] == Count(byTopo, t);
      GroupMeaning(disk, specs, missing, topo, t);
    }
    var pct := if expected == {} then 100.0 else Quot(100.0 * |expected * valid| as real, |expected| as real);
    Overlap(expected, valid);
    Percentage(|expected|, |expected * valid|);
    MissingCount(disk, specs);
    r := Report(|expected|, |valid|, byTopo, missing, corrupt, pct);
  }

  lemma Overlap(expected: set<string>, valid: set<string>)
    ensures |expected * valid| == |expected| - |expected - valid|
    ensures expected == {} <==> |expected| == 0
  {
    assert expected == expected * valid + (expected - valid);
  }

  lemma MissingCount(disk: Disk, specs: seq<CellSpec>)
    ensures DistinctIds(specs) ==> |IdsOf(Pending(disk, specs))| == |Pending(disk, specs)| && |IdsOf(specs)| == |specs|
  {
    hide Pending;
    if DistinctIds(specs) {
      DistinctIdCount(specs);
      PendingDistinct(disk, specs);
      DistinctIdCount(Pending(disk, specs));
    }
  }

  lemma Percentage(n: nat, k: nat)
    requires k <= n
    ensures n > 0 ==> Prod(Quot(100.0 * k as real, n as real), n as real) == 100.0 * k as real
    ensures Prod(100.0, 0.0) == 0.0
  {
    if n > 0 {
      DivMul(100.0 * k as real, n as real);
    }
  }

  lemma GroupMeaning(disk: Disk, specs: seq<CellSpec>, missing: set<string>, topo: map<string, Topology>, t: Topology)
    requires missing == IdsOf(Pending(disk, specs)) && topo.Keys == IdsOf(specs)
    requires forall c :: c in specs ==> CellId(c) in topo && topo[CellId(c)] == c.topology
    ensures MissingIn(missing, topo, t) == set c | c in Pending(disk, specs) && c.topology == t :: CellId(c)
  {
    hide CellId, Pending;
    forall c: CellSpec ensures c in Pending(disk, specs) ==> c in specs {
      PendingMembers(disk, specs, c);
    }
  }
}
