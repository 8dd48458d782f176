/** Which salts make the router's cache harmless, over every run. */
module RouterSalts {
  import opened Prelude
  import opened RealArith
  import opened Pools
  import opened Router
  import opened RouterTheory
  import opened OrderedDict

  const EMPTY_ROUTER := State([], [], 0)

  /** A run and a further request that only use these prefixes. */
  ghost predicate InUse(ops: seq<Op>, q: Request, prefixes: set<string>) {
    PrefixesOf(ops) <= prefixes && q.prefix in prefixes
  }

  predicate IsBatch(q: Request) {
    !q.interactive && !q.rag
  }

  /** Pool and admission are those of a router without a cache. */
  ghost predicate AsWithoutCache(cfg: Config, s: State, q: Request) {
    var d := Routed(cfg, s, q).1;
    (d.pool, d.admitted) == CacheFree(cfg, s.pools, q)
  }

  /** After no run does the cache change the placement of a batch request. */
  ghost predicate BatchIgnoresCache(cfg: Config, prefixes: set<string>) {
    forall ops, q :: InUse(ops, q, prefixes) && IsBatch(q) ==> AsWithoutCache(cfg, Run(cfg, EMPTY_ROUTER, ops), q)
  }

  /** The same of every request. */
  ghost predicate CacheNeverMatters(cfg: Config, prefixes: set<string>) {
    forall ops, q :: InUse(ops, q, prefixes) ==> AsWithoutCache(cfg, Run(cfg, EMPTY_ROUTER, ops), q)
  }

  lemma NotDiverted(cfg: Config, s: State, q: Request)
    ensures AsWithoutCache(cfg, s, q) <==> !Diverted(cfg, s, q)
  {
    CacheIgnoredIff(cfg, s, q);
  }

  // ---------- harmless configurations ----------

  lemma SeparateNeverDiverts(cfg: Config, prefixes: set<string>, ops: seq<Op>, q: Request)
    requires SeparateKeys(cfg, prefixes) && InUse(ops, q, prefixes)
    ensures !Diverted(cfg, Run(cfg, EMPTY_ROUTER, ops), q)
  {
    hide Run, Diverted, SeparateKeys;
    assert Salted(cfg, EMPTY_ROUTER.cache, {});
    SaltedRun(cfg, EMPTY_ROUTER, ops, {});
    SaltedMore(cfg, Run(cfg, EMPTY_ROUTER, ops).cache, {} + PrefixesOf(ops), prefixes);
    NeverDiverted(cfg, Run(cfg, EMPTY_ROUTER, ops), q, prefixes);
  }

  /** A cache without room is always empty. */
  lemma NoRoomNeverHits(cfg: Config, ops: seq<Op>, q: Request)
    requires cfg.cacheMax <= 0
    ensures !Diverted(cfg, Run(cfg, EMPTY_ROUTER, ops), q)
  {
    hide Run, Select, RouteKey;
    var s := Run(cfg, EMPTY_ROUTER, ops);
    CacheIsRecent(cfg, EMPTY_ROUTER, ops);
    assert s.cache == [];
  }

  /** Without headroom no pool admits a request that may not bypass it. */
  lemma NoHeadroomNeverHits(cfg: Config, s: State, q: Request)
    requires cfg.policy.headroomPct <= 0.0 && !(q.interactive && cfg.policy.interactiveBypass)
    ensures !Diverted(cfg, s, q)
  {
    hide Select, RouteKey, Lookup, Find, HeadroomUsedPct;
    var cached := Lookup(s.cache, RouteKey(cfg, s, q));
    if cached.Some? && Find(s.pools, cached.value).Some? {
      UsedNonnegative(Find(s.pools, cached.value).value);
    }
  }

  lemma UsedNonnegative(st: PoolState)
    ensures HeadroomUsedPct(st) >= 0.0
  {
    if st.capacity > 0 {
      QuotientBounds(st.queueDepth as real, st.capacity as real, 0.0);
      assert Prod(0.0, st.capacity as real) == 0.0;
      ProductSign(Quot(st.queueDepth as real, st.capacity as real), 100.0);
    }
  }

  // ---------- two pools whose keys meet ----------

  /** A capacity of which one queued request takes less than the headroom. */
  lemma RoomyCapacity(headroom: real) returns (capacity: int)
    requires headroom > 0.0
    ensures capacity > 0
    ensures forall p :: HeadroomUsedPct(PoolState(p, 1, capacity, true)) < headroom
    ensures forall p :: HeadroomUsedPct(PoolState(p, 0, capacity, true)) == 0.0
  {
    var need := Quot(100.0, headroom);
    DivMul(100.0, headroom);
    capacity := Max(0, need.Floor) + 1;
    var c := capacity as real;
    MulMonoStrict(need, c, headroom);
    assert Prod(0.01 * headroom, c) == 0.01 * Prod(c, headroom);
    QuotientBounds(1.0, c, 0.01 * headroom);
    DivMul(1.0, c);
    assert Quot(1.0, c) != 0.01 * headroom;
    DivMul(0.0, c);
    CancelFactor(Quot(0.0, c), 0.0, c);
    assert Prod(0.0, c) == 0.0;
  }

  lemma OnePoolSelected(policy: Policy, q: Request, st: PoolState)
    requires Admissible(policy, q, st)
    ensures Select(policy, q, [st]) == Some(st.pool)
  {
    hide Select, Admissible, Admits;
    AdmissibleIff(policy, q, st);
    SelectMeaning(policy, q, [st]);
    assert st in [st];
  }

  /** Of two admissible pools the idle one is selected for any but a RAG request. */
  lemma IdlePoolSelected(policy: Policy, q: Request, busy: PoolState, idle: PoolState)
    requires Admissible(policy, q, busy) && Admissible(policy, q, idle) && !q.rag
    requires idle.queueDepth < busy.queueDepth
    ensures Select(policy, q, [busy, idle]) == Some(idle.pool)
  {
    hide Select, Admissible, Admits;
    AdmissibleIff(policy, q, busy);
    AdmissibleIff(policy, q, idle);
    SelectMeaning(policy, q, [busy, idle]);
    assert busy in [busy, idle] && idle in [busy, idle];
  }

  /** The first pool serves the first prefix, then has a request waiting while an idle second pool joins. */
  function DivertingRun(p: Pool, x: string, p': Pool, capacity: int, interactive: bool): seq<Op> {
    [Register(PoolState(p, 0, capacity, true)), Route(Request(x, interactive, false)),
     Update(p, 1), Register(PoolState(p', 0, capacity, true))]
  }

  lemma RunOfFour(cfg: Config, s: State, a: Op, b: Op, c: Op, d: Op)
    ensures Run(cfg, s, [a, b, c, d]) == Apply(cfg, Apply(cfg, Apply(cfg, Apply(cfg, s, a), b), c), d)
  {
    hide Apply;
    assert [a, b, c, d][..3] == [a, b, c] && [a, b, c][..2] == [a, b] && [a, b][..1] == [a] && [a][..0] == [];
    assert Run(cfg, s, [a]) == Apply(cfg, s, a);
    assert Run(cfg, s, [a, b]) == Apply(cfg, Apply(cfg, s, a), b);
    assert Run(cfg, s, [a, b, c]) == Apply(cfg, Apply(cfg, Apply(cfg, s, a), b), c);
  }

  /** The first request to a single idle pool is sent there and remembered. */
  lemma FirstRoute(cfg: Config, q: Request, st: PoolState)
    requires cfg.cacheMax >= 1 && Admissible(cfg.policy, q, st)
    ensures Routed(cfg, State([st], [], 0), q).0 == State([st], [Entry(cfg.keyOf(st.pool, q.prefix), st.pool)], 1)
  {
    hide Select, Admissible;
    OnePoolSelected(cfg.policy, q, st);
  }

  lemma DivertingState(cfg: Config, p: Pool, x: string, p': Pool, capacity: int, interactive: bool)
    requires p != p' && cfg.cacheMax >= 1
    requires Admissible(cfg.policy, Request(x, interactive, false), PoolState(p, 0, capacity, true))
    ensures var s := Run(cfg, EMPTY_ROUTER, DivertingRun(p, x, p', capacity, interactive));
            && s.pools == [PoolState(p, 1, capacity, true), PoolState(p', 0, capacity, true)]
            && s.cache == [Entry(cfg.keyOf(p, x), p)]
  {
    hide Routed, HeadroomUsedPct;
    var ops := DivertingRun(p, x, p', capacity, interactive);
    FirstRoute(cfg, Request(x, interactive, false), PoolState(p, 0, capacity, true));
    RunOfFour(cfg, EMPTY_ROUTER, ops[0], ops[1], ops[2], ops[3]);
    assert Registered([PoolState(p, 1, capacity, true)], PoolState(p', 0, capacity, true))
        == [PoolState(p, 1, capacity, true), PoolState(p', 0, capacity, true)];
  }

  lemma FourPrefixes(p: Pool, x: string, p': Pool, capacity: int, interactive: bool)
    ensures PrefixesOf(DivertingRun(p, x, p', capacity, interactive)) == {x}
  {
    var ops := DivertingRun(p, x, p', capacity, interactive);
    assert ops[..3][..2] == ops[..2] && ops[..3][..2][..1] == ops[..1] && ops[..1][..0] == [];
    assert PrefixesOf(ops[..1]) == {} && PrefixesOf(ops[..2]) == {x};
  }

  /** If the keys of two pools meet on prefixes in use, some run diverts a request of this class. */
  lemma MeetingKeysDivert(cfg: Config, p: Pool, x: string, p': Pool, x': string, interactive: bool)
    returns (ops: seq<Op>, q: Request)
    requires p != p' && cfg.keyOf(p, x) == cfg.keyOf(p', x') && cfg.cacheMax >= 1
    requires cfg.policy.headroomPct > 0.0 || (interactive && cfg.policy.interactiveBypass)
    ensures PrefixesOf(ops) == {x} && q == Request(x', interactive, false)
    ensures Diverted(cfg, Run(cfg, EMPTY_ROUTER, ops), q)
  {
    hide Run, HeadroomUsedPct, Select, DivertingRun;
    var capacity := 1;
    if cfg.policy.headroomPct > 0.0 {
      capacity := RoomyCapacity(cfg.policy.headroomPct);
    }
    ops, q := DivertingRun(p, x, p', capacity, interactive), Request(x', interactive, false);
    FourPrefixes(p, x, p', capacity, interactive);
    DivertingState(cfg, p, x, p', capacity, interactive);
    var s := Run(cfg, EMPTY_ROUTER, ops);
    var busy, idle := PoolState(p, 1, capacity, true), PoolState(p', 0, capacity, true);
    IdlePoolSelected(cfg.policy, q, busy, idle);
    assert RouteKey(cfg, s, q) == cfg.keyOf(p, x);
    assert Lookup(s.cache, cfg.keyOf(p, x)) == Some(p);
    assert Find(s.pools, p) == Some(busy);
  }

  /**
   "Batch requests go to the pool of least depth regardless of cache", exactly: over every run
   from an empty router on these prefixes, a batch request is placed as without a cache if and
   only if the salts keep the pools' keys apart on them, or the cache has no room, or no pool
   admits batch requests.
   */
  lemma BatchIgnoresCacheIff(cfg: Config, prefixes: set<string>)
    ensures BatchIgnoresCache(cfg, prefixes)
       <==> SeparateKeys(cfg, prefixes) || cfg.cacheMax <= 0 || cfg.policy.headroomPct <= 0.0
  {
    hide Run, Diverted, AsWithoutCache;
    if SeparateKeys(cfg, prefixes) || cfg.cacheMax <= 0 || cfg.policy.headroomPct <= 0.0 {
      forall ops, q | InUse(ops, q, prefixes) && IsBatch(q) ensures AsWithoutCache(cfg, Run(cfg, EMPTY_ROUTER, ops), q) {
        NotDiverted(cfg, Run(cfg, EMPTY_ROUTER, ops), q);
        if SeparateKeys(cfg, prefixes) {
          SeparateNeverDiverts(cfg, prefixes, ops, q);
        } else if cfg.cacheMax <= 0 {
          NoRoomNeverHits(cfg, ops, q);
        } else {
          NoHeadroomNeverHits(cfg, Run(cfg, EMPTY_ROUTER, ops), q);
        }
      }
    } else {
      var p, x, p', x' :| x in prefixes && x' in prefixes && cfg.keyOf(p, x) == cfg.keyOf(p', x') && p != p';
      var ops, q := MeetingKeysDivert(cfg, p, x, p', x', false);
      NotDiverted(cfg, Run(cfg, EMPTY_ROUTER, ops), q);
      assert InUse(ops, q, prefixes);
    }
  }

  /** The same for every class of request; an interactive one may also bypass missing headroom. */
  lemma CacheNeverMattersIff(cfg: Config, prefixes: set<string>)
    ensures CacheNeverMatters(cfg, prefixes)
       <==> SeparateKeys(cfg, prefixes) || cfg.cacheMax <= 0 || (cfg.policy.headroomPct <= 0.0 && !cfg.policy.interactiveBypass)
  {
    hide Run, Diverted, AsWithoutCache;
    if SeparateKeys(cfg, prefixes) || cfg.cacheMax <= 0 || (cfg.policy.headroomPct <= 0.0 && !cfg.policy.interactiveBypass) {
      forall ops, q | InUse(ops, q, prefixes) ensures AsWithoutCache(cfg, Run(cfg, EMPTY_ROUTER, ops), q) {
        NotDiverted(cfg, Run(cfg, EMPTY_ROUTER, ops), q);
        if SeparateKeys(cfg, prefixes) {
          SeparateNeverDiverts(cfg, prefixes, ops, q);
        } else if cfg.cacheMax <= 0 {
          NoRoomNeverHits(cfg, ops, q);
        } else {
          NoHeadroomNeverHits(cfg, Run(cfg, EMPTY_ROUTER, ops), q);
        }
      }
    } else {
      var p, x, p', x' :| x in prefixes && x' in prefixes && cfg.keyOf(p, x) == cfg.keyOf(p', x') && p != p';
      var ops, q := MeetingKeysDivert(cfg, p, x, p', x', true);
      NotDiverted(cfg, Run(cfg, EMPTY_ROUTER, ops), q);
      assert InUse(ops, q, prefixes);
    }
  }
}
