/** control/router.py: cache-aware routing with admission control. */
module Router {
  import opened Prelude
  import opened Pools
  import opened OrderedDict

  /** What the router reads of a request: the hashed prefix of its prompt, its SLO class and workload. */
  datatype Request = Request(prefix: string, interactive: bool, rag: bool)

  datatype Policy = Policy(headroomPct: real, interactiveBypass: bool)

  datatype Reason = NoPoolsRegistered | HitInCache | AllPoolsFull | LoadBalance

  datatype Decision = Decision(pool: Pool, admitted: bool, reason: Reason, prefixHash: Option<string>)

  /** `keyOf` stands for hashing the pool's salt with the prefix. */
  datatype Config = Config(policy: Policy, cacheMax: int, keyOf: (Pool, string) -> string)

  /** `pools` in registration order, `cache` from least to most recently used. */
  datatype State = State(pools: seq<PoolState>, cache: seq<Entry<Pool>>, noHistory: nat)

  // ---------- the pool registry ----------

  function Find(pools: seq<PoolState>, p: Pool): Option<PoolState> {
    if pools == [] then None
    else if pools[0].pool == p then Some(pools[0])
    else Find(pools[1..], p)
  }

  /** Dict assignment: replace in place, or append. */
  function Registered(pools: seq<PoolState>, st: PoolState): seq<PoolState> {
    if pools == [] then [st]
    else if pools[0].pool == st.pool then [st] + pools[1..]
    else [pools[0]] + Registered(pools[1..], st)
  }

  function WithDepth(pools: seq<PoolState>, p: Pool, depth: int): seq<PoolState> {
    if pools == [] then []
    else if pools[0].pool == p then [pools[0].(queueDepth := Max(0, depth))] + pools[1..]
    else [pools[0]] + WithDepth(pools[1..], p, depth)
  }

  /** The registered pools, in registration order. */
  function Names(pools: seq<PoolState>): (ns: seq<Pool>)
    ensures |ns| == |pools|
  {
    seq(|pools|, i requires 0 <= i < |pools| => pools[i].pool)
  }

  lemma NamesCons(st: PoolState, tail: seq<PoolState>)
    ensures Names([st] + tail) == [st.pool] + Names(tail)
  {}

  /** Registering sets this pool's state, keeps every other, and keeps the order, a new pool coming last. */
  lemma {:induction false} RegisteredMeaning(pools: seq<PoolState>, st: PoolState)
    ensures var pools' := Registered(pools, st);
            && Find(pools', st.pool) == Some(st)
            && (forall q: Pool :: q != st.pool ==> Find(pools', q) == Find(pools, q))
            && Names(pools') == Names(pools) + if Find(pools, st.pool).Some? then [] else [st.pool]
  {
    hide Names;
    if pools == [] {
      NamesCons(st, []);
      assert [st] + [] == [st];
    } else {
      assert pools == [pools[0]] + pools[1..];
      NamesCons(pools[0], pools[1..]);
      if pools[0].pool == st.pool {
        NamesCons(st, pools[1..]);
      } else {
        RegisteredMeaning(pools[1..], st);
        NamesCons(pools[0], Registered(pools[1..], st));
      }
    }
  }

  /** A depth update sets this pool's depth only, keeps every other pool and the order, and ignores an unknown pool. */
  lemma {:induction false} WithDepthMeaning(pools: seq<PoolState>, p: Pool, depth: int)
    ensures var pools' := WithDepth(pools, p, depth);
            && Find(pools', p) == (if Find(pools, p).Some? then Some(Find(pools, p).value.(queueDepth := Max(0, depth))) else None)
            && (forall q: Pool :: q != p ==> Find(pools', q) == Find(pools, q))
            && Names(pools') == Names(pools)
            && (Find(pools, p).None? ==> pools' == pools)
  {
    hide Names;
    if pools != [] {
      assert pools == [pools[0]] + pools[1..];
      NamesCons(pools[0], pools[1..]);
      if pools[0].pool == p {
        NamesCons(pools[0].(queueDepth := Max(0, depth)), pools[1..]);
      } else {
        WithDepthMeaning(pools[1..], p, depth);
        NamesCons(pools[0], WithDepth(pools[1..], p, depth));
      }
    }
  }

  // ---------- admission ----------

  predicate Admissible(policy: Policy, q: Request, st: PoolState) {
    st.healthy && (HeadroomUsedPct(st) < policy.headroomPct || (q.interactive && policy.interactiveBypass))
  }

  /** The order `eligible.sort` uses. */
  predicate Before(a: PoolState, b: PoolState) {
    a.queueDepth < b.queueDepth || (a.queueDepth == b.queueDepth && Rank(a.pool) <= Rank(b.pool))
  }

  function InsertPool(x: PoolState, s: seq<PoolState>): seq<PoolState> {
    if s == [] || Before(x, s[0]) then [x] + s else [s[0]] + InsertPool(x, s[1..])
  }

  function SortPools(s: seq<PoolState>): seq<PoolState> {
    if s == [] then [] else InsertPool(s[0], SortPools(s[1..]))
  }

  function Healthy(pools: seq<PoolState>): seq<PoolState> {
    if pools == [] then []
    else if pools[0].healthy then [pools[0]] + Healthy(pools[1..])
    else Healthy(pools[1..])
  }

  function FirstAdmissible(policy: Policy, q: Request, s: seq<PoolState>): Option<Pool> {
    if s == [] then None
    else if Admissible(policy, q, s[0]) then Some(s[0].pool)
    else FirstAdmissible(policy, q, s[1..])
  }

  /** `_select_admissible`: RAG tries the tier pool first, then depth order. */
  function Select(policy: Policy, q: Request, pools: seq<PoolState>): Option<Pool> {
    var tier := Find(Healthy(pools), TIER);
    if q.rag && tier.Some? && Admissible(policy, q, tier.value) then Some(TIER)
    else FirstAdmissible(policy, q, SortPools(Healthy(pools)))
  }

  // ---------- the cache bound ----------

  function Trimmed(cache: seq<Entry<Pool>>, cacheMax: int): seq<Entry<Pool>>
    requires cache != []
  {
    if |cache| > cacheMax then cache[1..] else cache
  }

  // ---------- routing ----------

  /** The key looked up: under the selected pool's salt, or provisionally under COLOCATED's. */
  function RouteKey(cfg: Config, s: State, q: Request): string {
    var chosen := Select(cfg.policy, q, s.pools);
    cfg.keyOf(if chosen.Some? then chosen.value else COLOCATED, q.prefix)
  }

  predicate Hits(cfg: Config, s: State, q: Request) {
    var cached := Lookup(s.cache, RouteKey(cfg, s, q));
    && cached.Some?
    && var st := Find(s.pools, cached.value);
       st.Some? && st.value.healthy && Admissible(cfg.policy, q, st.value)
  }

  function Routed(cfg: Config, s: State, q: Request): (State, Decision) {
    if s.pools == [] then (s, Decision(COLOCATED, false, NoPoolsRegistered, None))
    else
      var chosen := Select(cfg.policy, q, s.pools);
      var key := RouteKey(cfg, s, q);
      var cached := Lookup(s.cache, key);
      var touched := if cached.Some? then MovedToEnd(s.cache, key, cached.value) else s.cache;
      if Hits(cfg, s, q) then
        (s.(cache := touched), Decision(cached.value, true, HitInCache, Some(key)))
      else if chosen.None? then
        (s.(cache := touched, noHistory := s.noHistory + 1), Decision(COLOCATED, false, AllPoolsFull, Some(key)))
      else
        AssignedNonempty(touched, key, chosen.value);
        (s.(cache := Trimmed(Assigned(touched, key, chosen.value), cfg.cacheMax), noHistory := s.noHistory + 1),
         Decision(chosen.value, true, LoadBalance, Some(key)))
  }

  // ---------- the imperative router ----------

  class Router {
    const cfg: Config
    var pools: seq<PoolState>
    var cache: seq<Entry<Pool>>
    var noHistory: nat

    ghost function View(): State
      reads this
    {
      State(pools, cache, noHistory)
    }

    constructor (cfg: Config)
      ensures this.cfg == cfg && View() == State([], [], 0)
    {
      this.cfg := cfg;
      pools, cache, noHistory := [], [], 0;
    }

    method RegisterPool(st: PoolState)
      modifies this`pools
      ensures pools == Registered(old(pools), st)
      ensures Find(pools, st.pool) == Some(st)
      ensures forall q: Pool :: q != st.pool ==> Find(pools, q) == Find(old(pools), q)
      ensures Names(pools) == Names(old(pools)) + if Find(old(pools), st.pool).Some? then [] else [st.pool]
    {
      RegisteredMeaning(pools, st);
      pools := Registered(pools, st);
    }

    method UpdateDepth(p: Pool, depth: int)
      modifies this`pools
      ensures pools == WithDepth(old(pools), p, depth)
      ensures Find(old(pools), p).Some? ==> Find(pools, p) == Some(Find(old(pools), p).value.(queueDepth := Max(0, depth)))
      ensures forall q: Pool :: q != p ==> Find(pools, q) == Find(old(pools), q)
      ensures Names(pools) == Names(old(pools))
      ensures Find(old(pools), p).None? ==> pools == old(pools)
    {
      WithDepthMeaning(pools, p, depth);
      pools := WithDepth(pools, p, depth);
    }

    method SelectAdmissible(q: Request) returns (r: Option<Pool>)
      ensures r == Select(cfg.policy, q, pools)
    {
      var eligible := Healthy(pools);
      if eligible == [] {
        return None;
      }
      if q.rag {
        var tier := Find(eligible, TIER);
        if tier.Some? && Admissible(cfg.policy, q, tier.value) {
          return Some(TIER);
        }
      }
      var ordered := SortPools(eligible);
      for i := 0 to |ordered|
        invariant FirstAdmissible(cfg.policy, q, ordered) == FirstAdmissible(cfg.policy, q, ordered[i..])
      {
        assert ordered[i..][0] == ordered[i] && ordered[i..][1..] == ordered[i + 1..];
        if Admissible(cfg.policy, q, ordered[i]) {
          return Some(ordered[i].pool);
        }
      }
      return None;
    }

    method Route(q: Request) returns (d: Decision)
      modifies this`cache, this`noHistory
      ensures (View(), d) == Routed(cfg, old(View()), q)
    {
      hide Lookup, MovedToEnd, Assigned, Select, Find, Admissible;
      if pools == [] {
        return Decision(COLOCATED, false, NoPoolsRegistered, None);
      }
      var chosen := SelectAdmissible(q);
      var key := cfg.keyOf(if chosen.Some? then chosen.value else COLOCATED, q.prefix);
      var cached := Lookup(cache, key);
      if cached.Some? {
        cache := MovedToEnd(cache, key, cached.value);
        var st := Find(pools, cached.value);
        if st.Some? && st.value.healthy && Admissible(cfg.policy, q, st.value) {
          return Decision(cached.value, true, HitInCache, Some(key));
        }
      }
      noHistory := noHistory + 1;
      if chosen.None? {
        return Decision(COLOCATED, false, AllPoolsFull, Some(key));
      }
      cache := Assigned(cache, key, chosen.value);
      if |cache| > cfg.cacheMax {
        AssignedNonempty(if cached.Some? then MovedToEnd(old(cache), key, cached.value) else old(cache), key, chosen.value);
        cache := cache[1..];
      }
      return Decision(chosen.value, true, LoadBalance, Some(key));
    }
  }
}
