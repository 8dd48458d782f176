/** Properties of the router over single requests and over whole runs. */
module RouterTheory {
  import opened Prelude
  import opened RealArith
  import opened Recency
  import opened Pools
  import opened Router
  import opened OrderedDict

  // ---------- selection and admission ----------

  ghost predicate UniquePools(pools: seq<PoolState>) {
    forall i, j :: 0 <= i < j < |pools| ==> pools[i].pool != pools[j].pool
  }

  lemma {:induction false} HealthyMembers(pools: seq<PoolState>, st: PoolState)
    ensures st in Healthy(pools) <==> st in pools && st.healthy
  {
    if pools != [] {
      HealthyMembers(pools[1..], st);
      assert pools == [pools[0]] + pools[1..];
    }
  }

  lemma {:induction false} InsertPoolMembers(x: PoolState, s: seq<PoolState>, y: PoolState)
    ensures y in InsertPool(x, s) <==> y == x || y in s
  {
    if s != [] && !Before(x, s[0]) {
      InsertPoolMembers(x, s[1..], y);
      assert s == [s[0]] + s[1..];
    }
  }

  lemma {:induction false} SortPoolsMembers(s: seq<PoolState>, y: PoolState)
    ensures y in SortPools(s) <==> y in s
  {
    if s != [] {
      SortPoolsMembers(s[1..], y);
      InsertPoolMembers(s[0], SortPools(s[1..]), y);
      assert s == [s[0]] + s[1..];
    }
  }

  ghost predicate InOrder(s: seq<PoolState>) {
    forall i, j :: 0 <= i < j < |s| ==> Before(s[i], s[j])
  }

  lemma {:induction false} InsertPoolOrder(x: PoolState, s: seq<PoolState>)
    requires InOrder(s)
    ensures InOrder(InsertPool(x, s))
  {
    if s != [] && !Before(x, s[0]) {
      InsertPoolOrder(x, s[1..]);
      var t := InsertPool(x, s[1..]);
      forall i | 0 <= i < |t| ensures Before(s[0], t[i]) {
        InsertPoolMembers(x, s[1..], t[i]);
      }
    }
  }

  lemma {:induction false} SortPoolsOrder(s: seq<PoolState>)
    ensures InOrder(SortPools(s))
  {
    if s != [] {
      SortPoolsOrder(s[1..]);
      InsertPoolOrder(s[0], SortPools(s[1..]));
    }
  }

  // ---------- admission without percentages ----------

  /** The queue is below the headroom: `depth / capacity` under `headroomPct` per cent; a pool of no capacity counts as full. */
  ghost predicate HasRoom(policy: Policy, st: PoolState) {
    if st.capacity > 0 then 100.0 * (st.queueDepth as real) < policy.headroomPct * (st.capacity as real)
    else 100.0 < policy.headroomPct
  }

  ghost predicate Admits(policy: Policy, q: Request, st: PoolState) {
    st.healthy && (HasRoom(policy, st) || (q.interactive && policy.interactiveBypass))
  }

  lemma AdmissibleIff(policy: Policy, q: Request, st: PoolState)
    ensures Admissible(policy, q, st) <==> Admits(policy, q, st)
  {
    if st.capacity > 0 {
      PercentBelow(st.queueDepth as real, st.capacity as real, policy.headroomPct);
    }
  }

  lemma PercentBelow(depth: real, capacity: real, pct: real)
    requires capacity > 0.0
    ensures Prod(Quot(depth, capacity), 100.0) < pct <==> 100.0 * depth < pct * capacity
  {
    QuotientBounds(depth, capacity, Quot(pct, 100.0));
    DivMul(pct, 100.0);
    assert Prod(Quot(pct, 100.0), capacity) == Prod(pct, capacity) / 100.0;
  }

  /** Less queued, or as much and alphabetically first. */
  ghost predicate Preferred(a: PoolState, b: PoolState) {
    a.queueDepth < b.queueDepth || (a.queueDepth == b.queueDepth && StringLeq(PoolName(a.pool), PoolName(b.pool)))
  }

  lemma BeforeIsPreferred(a: PoolState, b: PoolState)
    ensures Before(a, b) <==> Preferred(a, b)
  {
    RankIsAlphabetical(a.pool, b.pool);
  }

  /** `st` admits the request and nothing preferred to it does. */
  ghost predicate Best(policy: Policy, q: Request, s: seq<PoolState>, st: PoolState) {
    && st in s && Admits(policy, q, st)
    && forall o :: o in s && Admits(policy, q, o) ==> Preferred(st, o)
  }

  lemma {:induction false} FirstIsBest(policy: Policy, q: Request, s: seq<PoolState>)
    requires InOrder(s)
    ensures var r := FirstAdmissible(policy, q, s);
            && (r.None? ==> forall o :: o in s ==> !Admits(policy, q, o))
            && (r.Some? ==> exists st :: Best(policy, q, s, st) && st.pool == r.value)
  {
    hide Admissible, Admits, Before, Preferred;
    if s != [] {
      FirstIsBest(policy, q, s[1..]);
      assert s == [s[0]] + s[1..];
      AdmissibleIff(policy, q, s[0]);
      if Admissible(policy, q, s[0]) {
        forall o | o in s && Admits(policy, q, o) ensures Preferred(s[0], o) {
          BeforeIsPreferred(s[0], o);
          BeforeIsPreferred(s[0], s[0]);
          ItselfFirst(s[0]);
        }
        assert Best(policy, q, s, s[0]);
      } else if FirstAdmissible(policy, q, s[1..]).Some? {
        var st :| Best(policy, q, s[1..], st) && st.pool == FirstAdmissible(policy, q, s[1..]).value;
        assert Best(policy, q, s, st);
      }
    }
  }

  lemma ItselfFirst(a: PoolState)
    ensures Before(a, a)
  {}

  lemma {:induction false} FindSound(pools: seq<PoolState>, p: Pool)
    ensures var r := Find(pools, p);
            && (r.Some? ==> r.value in pools && r.value.pool == p)
            && (r.None? ==> forall o :: o in pools ==> o.pool != p)
  {
    if pools != [] {
      FindSound(pools[1..], p);
      assert pools == [pools[0]] + pools[1..];
    }
  }

  ghost predicate SomeAdmits(policy: Policy, q: Request, pools: seq<PoolState>) {
    exists o :: o in pools && Admits(policy, q, o)
  }

  /**
   Selection: a pool is chosen exactly when some registered pool admits the request;
   RAG takes an admissible tier pool, everything else the admissible pool of least
   depth, ties by name.
   */
  lemma SelectMeaning(policy: Policy, q: Request, pools: seq<PoolState>)
    ensures var r := Select(policy, q, pools);
            && (r.Some? <==> SomeAdmits(policy, q, pools))
            && (r.Some? ==>
                  exists st :: && st in pools && st.pool == r.value && Admits(policy, q, st)
                               && ((q.rag && st.pool == TIER) || Best(policy, q, pools, st)))
  {
    hide Admissible, HasRoom, Preferred;
    var h := Healthy(pools);
    var s := SortPools(h);
    FindSound(h, TIER);
    if Find(h, TIER).Some? {
      AdmissibleIff(policy, q, Find(h, TIER).value);
    }
    SortPoolsOrder(h);
    FirstIsBest(policy, q, s);
    forall o: PoolState ensures (o in h <==> o in pools && o.healthy) && (o in s <==> o in h) {
      HealthyMembers(pools, o);
      SortPoolsMembers(h, o);
    }
    var r := FirstAdmissible(policy, q, s);
    if r.Some? {
      var st :| Best(policy, q, s, st) && st.pool == r.value;
      assert Best(policy, q, pools, st);
    }
    if SomeAdmits(policy, q, pools) {
      var o :| o in pools && Admits(policy, q, o);
      assert o in s;
    }
  }

  /** RAG is sent to the tier pool whenever that pool admits it. */
  lemma RagPrefersTier(policy: Policy, q: Request, pools: seq<PoolState>, st: PoolState)
    requires UniquePools(pools) && st in pools && st.pool == TIER && q.rag && Admits(policy, q, st)
    ensures Select(policy, q, pools) == Some(TIER)
  {
    HealthyMembers(pools, st);
    FindSound(Healthy(pools), TIER);
    var f := Find(Healthy(pools), TIER);
    HealthyMembers(pools, f.value);
    AdmissibleIff(policy, q, st);
  }

  /**
   Admission is complete and sound: a request is admitted exactly when some registered pool is
   healthy and either has room or is bypassed by an interactive request, and to such a pool.
   */
  lemma AdmissionComplete(cfg: Config, s: State, q: Request)
    ensures var d := Routed(cfg, s, q).1;
            && (d.admitted <==> SomeAdmits(cfg.policy, q, s.pools))
            && (d.admitted ==> exists o :: o in s.pools && o.pool == d.pool && Admits(cfg.policy, q, o))
  {
    SelectMeaning(cfg.policy, q, s.pools);
    var cached := Lookup(s.cache, RouteKey(cfg, s, q));
    if cached.Some? && Find(s.pools, cached.value).Some? {
      FindSound(s.pools, cached.value);
      AdmissibleIff(cfg.policy, q, Find(s.pools, cached.value).value);
    }
  }

  /** The cache holds this key for a registered pool that admits the request. */
  ghost predicate Answers(cfg: Config, s: State, q: Request, key: string, p: Pool) {
    Entry(key, p) in s.cache && Find(s.pools, p).Some? && Admits(cfg.policy, q, Find(s.pools, p).value)
  }

  /** The key a request is looked up under: its prefix, salted for the pool it would be sent to. */
  ghost predicate LookedUpUnder(cfg: Config, s: State, q: Request, key: string) {
    var chosen := Select(cfg.policy, q, s.pools);
    key == cfg.keyOf(if chosen.Some? then chosen.value else COLOCATED, q.prefix)
  }

  /**
   Why a request got the decision it got, and what is counted: it is answered from the
   cache exactly when its key is cached for a pool that admits it, is otherwise sent to the
   selected pool, and every request that meets a pool and no such entry counts as one
   without history.
   */
  lemma DecisionMeaning(cfg: Config, s: State, q: Request)
    requires Distinct(Keys(s.cache))
    ensures var (s', d) := Routed(cfg, s, q);
            var key := RouteKey(cfg, s, q);
            && LookedUpUnder(cfg, s, q, key)
            && (d.reason == NoPoolsRegistered <==> s.pools == [])
            && (d.reason == HitInCache <==> s.pools != [] && exists p :: Answers(cfg, s, q, key, p))
            && (d.reason == HitInCache ==> Answers(cfg, s, q, key, d.pool))
            && (d.reason == AllPoolsFull <==> s.pools != [] && !SomeAdmits(cfg.policy, q, s.pools))
            && (d.reason == LoadBalance ==> Select(cfg.policy, q, s.pools) == Some(d.pool))
            && (d.admitted <==> d.reason == HitInCache || d.reason == LoadBalance)
            && d.prefixHash == (if s.pools == [] then None else Some(key))
            && s'.noHistory == s.noHistory + if s.pools != [] && d.reason != HitInCache then 1 else 0
  {
    hide Select, Lookup, Admissible, Admits, Removed, Assigned, Trimmed, Keys;
    var key := RouteKey(cfg, s, q);
    SelectMeaning(cfg.policy, q, s.pools);
    LookupIsMembership(s.cache, key);
    var cached := Lookup(s.cache, key);
    if cached.Some? {
      LookupEntry(s.cache, key);
      OnlyEntry(s.cache, key, cached.value);
      forall p | Answers(cfg, s, q, key, p) ensures p == cached.value {
        assert Entry(key, p) in s.cache && Entry(key, p).value == p;
      }
      if Find(s.pools, cached.value).Some? {
        FindSound(s.pools, cached.value);
        AdmissibleIff(cfg.policy, q, Find(s.pools, cached.value).value);
        AdmitsHealthy(cfg.policy, q, Find(s.pools, cached.value).value);
        assert Hits(cfg, s, q) <==> s.pools != [] && Answers(cfg, s, q, key, cached.value);
      }
    } else {
      forall p ensures Entry(key, p) !in s.cache {
        if Entry(key, p) in s.cache {
          EntryKey(s.cache, Entry(key, p));
        }
      }
    }
  }

  lemma AdmitsHealthy(policy: Policy, q: Request, st: PoolState)
    ensures Admits(policy, q, st) ==> st.healthy
  {}

  lemma EntryKey(cache: seq<Entry<Pool>>, e: Entry<Pool>)
    requires e in cache
    ensures e.key in Keys(cache)
  {
    var i :| 0 <= i < |cache| && cache[i] == e;
    assert Keys(cache)[i] == e.key;
  }

  // ---------- the cache is an LRU ----------

  /** Capacity in entries: a negative maximum holds nothing. */
  function Cap(cfg: Config): nat {
    Max(0, cfg.cacheMax)
  }

  ghost predicate ValidCache(cfg: Config, s: State) {
    Distinct(Keys(s.cache)) && |s.cache| <= Cap(cfg)
  }

  /** A request touches its key when the key is cached or some pool was selected. */
  ghost predicate Touches(cfg: Config, s: State, q: Request) {
    s.pools != [] && (Lookup(s.cache, RouteKey(cfg, s, q)).Some? || Select(cfg.policy, q, s.pools).Some?)
  }

  /** One request is one LRU access of its key, or leaves the cache alone. */
  lemma RouteIsAccess(cfg: Config, s: State, q: Request)
    requires ValidCache(cfg, s)
    ensures var s' := Routed(cfg, s, q).0;
            && ValidCache(cfg, s') && s'.pools == s.pools
            && Keys(s'.cache) == if Touches(cfg, s, q) then Access(Keys(s.cache), RouteKey(cfg, s, q), Cap(cfg)) else Keys(s.cache)
  {
    hide Touch, Without, Select, RouteKey, Lookup, Removed, Assigned, Keys, Admissible;
    var key, chosen := RouteKey(cfg, s, q), Select(cfg.policy, q, s.pools);
    var cached := Lookup(s.cache, key);
    var ks := Keys(s.cache);
    LookupIsMembership(s.cache, key);
    TouchDistinct(ks, key);
    TouchLength(ks, key);
    var touched := if cached.Some? then MovedToEnd(s.cache, key, cached.value) else s.cache;
    MovedKeys(s.cache, key, touched);
    if s.pools != [] && !Hits(cfg, s, q) && chosen.Some? {
      AssignedAfterMove(ks, touched, key, chosen.value);
      TrimmedKeys(Assigned(touched, key, chosen.value), cfg.cacheMax);
    }
  }

  lemma TrimmedKeys(cache: seq<Entry<Pool>>, cacheMax: int)
    requires cache != [] && |cache| <= Max(0, cacheMax) + 1
    ensures Keys(Trimmed(cache, cacheMax)) == if |Keys(cache)| > Max(0, cacheMax) then Keys(cache)[1..] else Keys(cache)
    ensures Distinct(Keys(cache)) ==> Distinct(Keys(Trimmed(cache, cacheMax)))
    ensures |Trimmed(cache, cacheMax)| <= Max(0, cacheMax)
  {}

  // ---------- whole runs ----------

  datatype Op = Register(state: PoolState) | Update(pool: Pool, depth: int) | Route(request: Request)

  function Apply(cfg: Config, s: State, op: Op): State {
    match op
    case Register(st) => s.(pools := Registered(s.pools, st))
    case Update(p, depth) => s.(pools := WithDepth(s.pools, p, depth))
    case Route(q) => Routed(cfg, s, q).0
  }

  function Run(cfg: Config, s: State, ops: seq<Op>): State {
    if ops == [] then s else Apply(cfg, Run(cfg, s, ops[..|ops| - 1]), ops[|ops| - 1])
  }

  /** The keys one operation touches: at most one. */
  ghost function TouchedBy(cfg: Config, s: State, op: Op): seq<string> {
    if op.Route? && Touches(cfg, s, op.request) then [RouteKey(cfg, s, op.request)] else []
  }

  ghost function Touched(cfg: Config, s: State, ops: seq<Op>): seq<string> {
    if ops == [] then []
    else
      var front := ops[..|ops| - 1];
      Touched(cfg, s, front) + TouchedBy(cfg, Run(cfg, s, front), ops[|ops| - 1])
  }

  /**
   LRU refinement.  After any run of requests, depth updates and registrations, the
   cache's keys are the last `cacheMax` distinct keys touched, by last touch.
   */
  lemma {:induction false} CacheIsRecent(cfg: Config, s: State, ops: seq<Op>)
    requires ValidCache(cfg, s)
    ensures ValidCache(cfg, Run(cfg, s, ops))
    ensures Keys(Run(cfg, s, ops).cache) == Suffix(Recent(Keys(s.cache) + Touched(cfg, s, ops)), Cap(cfg))
  {
    hide Routed, Keys, Suffix;
    if ops == [] {
      assert Keys(s.cache) + [] == Keys(s.cache);
      RecentOfDistinct(Keys(s.cache));
      WholeSuffix(Keys(s.cache), Cap(cfg));
    } else {
      var front, op := ops[..|ops| - 1], ops[|ops| - 1];
      CacheIsRecent(cfg, s, front);
      OpIsAccess(cfg, Run(cfg, s, front), op, Keys(s.cache) + Touched(cfg, s, front));
      assert Keys(s.cache) + Touched(cfg, s, ops)
          == (Keys(s.cache) + Touched(cfg, s, front)) + TouchedBy(cfg, Run(cfg, s, front), op);
    }
  }

  lemma WholeSuffix(ks: seq<string>, cap: nat)
    requires |ks| <= cap
    ensures Suffix(ks, cap) == ks
  {}

  lemma OpIsAccess(cfg: Config, s: State, op: Op, h: seq<string>)
    requires ValidCache(cfg, s) && Keys(s.cache) == Suffix(Recent(h), Cap(cfg))
    ensures ValidCache(cfg, Apply(cfg, s, op))
    ensures Keys(Apply(cfg, s, op).cache) == Suffix(Recent(h + TouchedBy(cfg, s, op)), Cap(cfg))
  {
    hide Routed, Suffix, Touch, Access, RouteKey;
    if op.Route? {
      RouteIsAccess(cfg, s, op.request);
      if Touches(cfg, s, op.request) {
        var key := RouteKey(cfg, s, op.request);
        RecentDistinct(h);
        AccessSuffix(Recent(h), key, Cap(cfg));
        assert (h + [key])[..|h|] == h;
      } else {
        assert h + [] == h;
      }
    } else {
      assert h + [] == h;
    }
  }

  /** Requests of a run that met a registered pool, and those answered from the cache. */
  ghost function Asked(pools: seq<PoolState>, ops: seq<Op>): nat {
    if ops == [] then 0
    else
      var front, op := ops[..|ops| - 1], ops[|ops| - 1];
      Asked(pools, front) + if op.Route? && PoolsAfter(pools, front) != [] then 1 else 0
  }

  ghost function AnsweredFromCache(cfg: Config, s: State, ops: seq<Op>): nat {
    if ops == [] then 0
    else
      var front, op := ops[..|ops| - 1], ops[|ops| - 1];
      AnsweredFromCache(cfg, s, front)
      + if op.Route? && Routed(cfg, Run(cfg, s, front), op.request).1.reason == HitInCache then 1 else 0
  }

  /** Over every run, each request that meets a pool is answered from the cache or counted as one without history. */
  lemma {:induction false} HistoryBalance(cfg: Config, s: State, ops: seq<Op>)
    requires ValidCache(cfg, s)
    ensures Run(cfg, s, ops).noHistory + AnsweredFromCache(cfg, s, ops) == s.noHistory + Asked(s.pools, ops)
  {
    hide Routed, RouteKey, SomeAdmits, Answers, LookedUpUnder, PoolsAfter;
    if ops != [] {
      var front, op := ops[..|ops| - 1], ops[|ops| - 1];
      HistoryBalance(cfg, s, front);
      CacheIsRecent(cfg, s, front);
      RunPools(cfg, s, front);
      if op.Route? {
        DecisionMeaning(cfg, Run(cfg, s, front), op.request);
      }
    }
  }

  // ---------- different cache sizes ----------

  /** Every request of the run finds an admissible pool; this does not depend on the cache. */
  ghost predicate AlwaysAdmits(policy: Policy, pools: seq<PoolState>, ops: seq<Op>) {
    forall k :: 0 <= k < |ops| && ops[k].Route? ==> SomeAdmits(policy, ops[k].request, PoolsAfter(pools, ops[..k]))
  }

  /** The registry after a run: requests never change it. */
  function PoolsAfter(pools: seq<PoolState>, ops: seq<Op>): seq<PoolState> {
    if ops == [] then pools
    else
      var before := PoolsAfter(pools, ops[..|ops| - 1]);
      match ops[|ops| - 1]
      case Register(st) => Registered(before, st)
      case Update(p, depth) => WithDepth(before, p, depth)
      case Route(_) => before
  }

  lemma {:induction false} RunPools(cfg: Config, s: State, ops: seq<Op>)
    ensures Run(cfg, s, ops).pools == PoolsAfter(s.pools, ops)
  {
    if ops != [] {
      RunPools(cfg, s, ops[..|ops| - 1]);
    }
  }

  /** The keys requested, when every request is admitted: no cache involved. */
  ghost function Requested(cfg: Config, pools: seq<PoolState>, ops: seq<Op>): seq<string> {
    if ops == [] then []
    else
      var front, op := ops[..|ops| - 1], ops[|ops| - 1];
      Requested(cfg, pools, front)
      + if op.Route? then [RouteKey(cfg, State(PoolsAfter(pools, front), [], 0), op.request)] else []
  }

  lemma {:induction false} TouchedIsRequested(cfg: Config, s: State, ops: seq<Op>)
    requires AlwaysAdmits(cfg.policy, s.pools, ops)
    ensures Touched(cfg, s, ops) == Requested(cfg, s.pools, ops)
  {
    if ops != [] {
      var n := |ops| - 1;
      var front, op := ops[..n], ops[n];
      forall k | 0 <= k < n && front[k].Route?
        ensures SomeAdmits(cfg.policy, front[k].request, PoolsAfter(s.pools, front[..k]))
      {
        assert front[..k] == ops[..k] && front[k] == ops[k];
      }
      TouchedIsRequested(cfg, s, front);
      RunPools(cfg, s, front);
      if op.Route? {
        SelectMeaning(cfg.policy, op.request, PoolsAfter(s.pools, front));
      }
    }
  }

  /** The same router with another cache size. */
  function Resized(cfg: Config, size: nat): Config {
    cfg.(cacheMax := size)
  }

  lemma {:induction false} RequestedSameSize(cfg: Config, pools: seq<PoolState>, ops: seq<Op>, size: nat)
    ensures Requested(Resized(cfg, size), pools, ops) == Requested(cfg, pools, ops)
  {
    if ops != [] {
      RequestedSameSize(cfg, pools, ops[..|ops| - 1], size);
    }
  }

  /** What a router of a given size holds after a run that always admits, starting empty. */
  lemma HeldAtSize(cfg: Config, pools: seq<PoolState>, ops: seq<Op>, size: nat)
    requires AlwaysAdmits(cfg.policy, pools, ops)
    ensures Keys(Run(Resized(cfg, size), State(pools, [], 0), ops).cache) == Suffix(Recent(Requested(cfg, pools, ops)), size)
  {
    hide Run, Requested, Touched;
    var s := State(pools, [], 0);
    CacheIsRecent(Resized(cfg, size), s, ops);
    TouchedIsRequested(Resized(cfg, size), s, ops);
    RequestedSameSize(cfg, pools, ops, size);
    assert [] + Requested(cfg, pools, ops) == Requested(cfg, pools, ops);
  }

  /** Stack inclusion: every key held at one size is held at every larger size. */
  lemma StackInclusion(cfg: Config, pools: seq<PoolState>, ops: seq<Op>, small: nat, large: nat)
    requires AlwaysAdmits(cfg.policy, pools, ops) && small <= large
    ensures forall k :: k in Keys(Run(Resized(cfg, small), State(pools, [], 0), ops).cache)
                    ==> k in Keys(Run(Resized(cfg, large), State(pools, [], 0), ops).cache)
  {
    HeldAtSize(cfg, pools, ops, small);
    HeldAtSize(cfg, pools, ops, large);
    SuffixInclusion(Recent(Requested(cfg, pools, ops)), small, large);
  }

  // ---------- hits ----------

  /** Everyone is interactive with the bypass on, and every pool is healthy: every request is admitted. */
  ghost predicate Friendly(cfg: Config, pools: seq<PoolState>, ops: seq<Op>) {
    && cfg.policy.interactiveBypass && pools != []
    && (forall k :: 0 <= k < |pools| ==> pools[k].healthy)
    && (forall k :: 0 <= k < |ops| && ops[k].Route? ==> ops[k].request.interactive)
    && (forall k :: 0 <= k < |ops| && ops[k].Register? ==> ops[k].state.healthy)
  }

  lemma {:induction false} RegistryGrows(pools: seq<PoolState>, st: PoolState)
    ensures Registered(pools, st) != []
    ensures (forall o :: o in pools ==> o.healthy) && st.healthy ==> forall o :: o in Registered(pools, st) ==> o.healthy
    ensures forall p: Pool :: Find(pools, p).Some? ==> Find(Registered(pools, st), p).Some?
  {
    if pools != [] {
      RegistryGrows(pools[1..], st);
      assert pools == [pools[0]] + pools[1..];
    }
  }

  lemma {:induction false} DepthKeeps(pools: seq<PoolState>, q: Pool, depth: int)
    ensures |WithDepth(pools, q, depth)| == |pools|
    ensures (forall o :: o in pools ==> o.healthy) ==> forall o :: o in WithDepth(pools, q, depth) ==> o.healthy
    ensures forall p: Pool :: Find(pools, p).Some? ==> Find(WithDepth(pools, q, depth), p).Some?
  {
    if pools != [] {
      DepthKeeps(pools[1..], q, depth);
      assert pools == [pools[0]] + pools[1..];
    }
  }

  lemma FriendlyPrefix(cfg: Config, pools: seq<PoolState>, ops: seq<Op>)
    requires Friendly(cfg, pools, ops) && ops != []
    ensures Friendly(cfg, pools, ops[..|ops| - 1])
  {
    var front := ops[..|ops| - 1];
    assert forall k :: 0 <= k < |front| ==> front[k] == ops[k];
  }

  /** Under friendly conditions the registry stays nonempty and healthy, and cached pools stay registered. */
  ghost predicate Serving(s: State) {
    && s.pools != [] && (forall o :: o in s.pools ==> o.healthy)
    && (forall e :: e in s.cache ==> Find(s.pools, e.value).Some?)
  }

  /** Every entry after a request was there before, or is the request's own. */
  lemma RouteEntries(cfg: Config, s: State, q: Request)
    ensures forall e :: e in Routed(cfg, s, q).0.cache ==>
              e in s.cache || (Select(cfg.policy, q, s.pools) == Some(e.value) && e.key == RouteKey(cfg, s, q))
  {
    hide Select, RouteKey, Lookup, Removed, Assigned, Trimmed;
    var key, chosen := RouteKey(cfg, s, q), Select(cfg.policy, q, s.pools);
    var cached := Lookup(s.cache, key);
    var touched := if cached.Some? then MovedToEnd(s.cache, key, cached.value) else s.cache;
    TouchedEntries(s.cache, key);
    if chosen.Some? {
      AssignedEntries(touched, key, chosen.value);
      AssignedNonempty(touched, key, chosen.value);
      TrimmedEntries(Assigned(touched, key, chosen.value), cfg.cacheMax);
    }
    forall e | e in Routed(cfg, s, q).0.cache
      ensures e in s.cache || (chosen == Some(e.value) && e.key == key)
    {
      if e !in s.cache && e !in touched {
        assert chosen.Some? && e in Trimmed(Assigned(touched, key, chosen.value), cfg.cacheMax);
      }
    }
  }

  lemma TouchedEntries(cache: seq<Entry<Pool>>, key: string)
    ensures var cached := Lookup(cache, key);
            var touched := if cached.Some? then MovedToEnd(cache, key, cached.value) else cache;
            forall e :: e in touched ==> e in cache
  {
    if Lookup(cache, key).Some? {
      LookupEntry(cache, key);
      RemovedEntries(cache, key);
    }
  }

  lemma TrimmedEntries(cache: seq<Entry<Pool>>, cacheMax: int)
    requires cache != []
    ensures forall e :: e in Trimmed(cache, cacheMax) ==> e in cache
  {}

  lemma ServingRoute(cfg: Config, s: State, q: Request)
    requires Serving(s) && cfg.policy.interactiveBypass && q.interactive
    ensures Serving(Routed(cfg, s, q).0)
    ensures SomeAdmits(cfg.policy, q, s.pools)
    ensures Routed(cfg, s, q).1.reason == HitInCache <==> RouteKey(cfg, s, q) in Keys(s.cache)
  {
    hide Select, RouteKey, Lookup, Removed, Assigned, HeadroomUsedPct, Find;
    var key := RouteKey(cfg, s, q);
    RouteEntries(cfg, s, q);
    LookupIsMembership(s.cache, key);
    assert Admits(cfg.policy, q, s.pools[0]) && Admissible(cfg.policy, q, s.pools[0]);
    SelectMeaning(cfg.policy, q, s.pools);
    var chosen := Select(cfg.policy, q, s.pools);
    FindSelected(s.pools, chosen.value);
    if Lookup(s.cache, key).Some? {
      LookupEntry(s.cache, key);
      FindSound(s.pools, Lookup(s.cache, key).value);
    }
  }

  lemma FindSelected(pools: seq<PoolState>, p: Pool)
    requires exists o :: o in pools && o.pool == p
    ensures Find(pools, p).Some?
  {
    FindSound(pools, p);
  }

  lemma {:induction false} FriendlyServing(cfg: Config, pools: seq<PoolState>, ops: seq<Op>)
    requires Friendly(cfg, pools, ops)
    ensures Serving(Run(cfg, State(pools, [], 0), ops))
  {
    hide Routed, Registered, WithDepth, Find;
    if ops != [] {
      FriendlyPrefix(cfg, pools, ops);
      FriendlyServing(cfg, pools, ops[..|ops| - 1]);
      var s, op := Run(cfg, State(pools, [], 0), ops[..|ops| - 1]), ops[|ops| - 1];
      match op
      case Register(st) => RegistryGrows(s.pools, st);
      case Update(p, depth) => DepthKeeps(s.pools, p, depth);
      case Route(q) =>
        ServingRoute(cfg, s, q);
        RouteEntries(cfg, s, q);
        RoutePools(cfg, s, q);
    }
  }

  lemma RoutePools(cfg: Config, s: State, q: Request)
    ensures Routed(cfg, s, q).0.pools == s.pools
  {}

  lemma {:induction false} FriendlyAdmits(cfg: Config, pools: seq<PoolState>, ops: seq<Op>)
    requires Friendly(cfg, pools, ops)
    ensures AlwaysAdmits(cfg.policy, pools, ops)
  {
    forall k | 0 <= k < |ops| && ops[k].Route?
      ensures SomeAdmits(cfg.policy, ops[k].request, PoolsAfter(pools, ops[..k]))
    {
      var front := ops[..k];
      assert forall j :: 0 <= j < k ==> front[j] == ops[j];
      FriendlyServing(cfg, pools, front);
      RunPools(cfg, State(pools, [], 0), front);
      ServingRoute(cfg, Run(cfg, State(pools, [], 0), front), ops[k].request);
    }
  }

  /** Requests answered from the cache over a run, for a router of the given size starting empty. */
  ghost function HitCount(cfg: Config, pools: seq<PoolState>, ops: seq<Op>, size: nat): nat {
    if ops == [] then 0
    else
      var front, op := ops[..|ops| - 1], ops[|ops| - 1];
      HitCount(cfg, pools, front, size)
      + if op.Route? && Routed(Resized(cfg, size), Run(Resized(cfg, size), State(pools, [], 0), front), op.request).1.reason == HitInCache
        then 1 else 0
  }

  /** At any point of a friendly run a request hits exactly when its key is among the last `size` distinct ones. */
  lemma HitIffRecent(cfg: Config, pools: seq<PoolState>, ops: seq<Op>, size: nat)
    requires Friendly(cfg, pools, ops) && ops != [] && ops[|ops| - 1].Route?
    ensures var front, q := ops[..|ops| - 1], ops[|ops| - 1].request;
            var key := RouteKey(cfg, State(PoolsAfter(pools, front), [], 0), q);
            var hit := Routed(Resized(cfg, size), Run(Resized(cfg, size), State(pools, [], 0), front), q).1.reason == HitInCache;
            hit <==> key in Suffix(Recent(Requested(cfg, pools, front)), size)
  {
    hide Routed, Requested, Run, PoolsAfter, Keys, Suffix;
    var front, q := ops[..|ops| - 1], ops[|ops| - 1].request;
    FriendlyPrefix(cfg, pools, ops);
    FriendlyAdmits(cfg, pools, front);
    HeldAtSize(cfg, pools, front, size);
    FriendlyServing(Resized(cfg, size), pools, front);
    RunPools(Resized(cfg, size), State(pools, [], 0), front);
    ServingRoute(Resized(cfg, size), Run(Resized(cfg, size), State(pools, [], 0), front), q);
  }

  /** A larger cache never hits less often. */
  lemma {:induction false} HitsMonotone(cfg: Config, pools: seq<PoolState>, ops: seq<Op>, small: nat, large: nat)
    requires Friendly(cfg, pools, ops) && small <= large
    ensures HitCount(cfg, pools, ops, small) <= HitCount(cfg, pools, ops, large)
  {
    hide Routed, Run, PoolsAfter, RouteKey;
    if ops != [] {
      FriendlyPrefix(cfg, pools, ops);
      HitsMonotone(cfg, pools, ops[..|ops| - 1], small, large);
      if ops[|ops| - 1].Route? {
        HitIffRecent(cfg, pools, ops, small);
        HitIffRecent(cfg, pools, ops, large);
        SuffixInclusion(Recent(Requested(cfg, pools, ops[..|ops| - 1])), small, large);
      }
    }
  }

  /** When nothing is ever evicted, only the first request of each key misses. */
  lemma {:induction false} HitsWithoutEviction(cfg: Config, pools: seq<PoolState>, ops: seq<Op>, size: nat)
    requires Friendly(cfg, pools, ops) && |Recent(Requested(cfg, pools, ops))| <= size
    ensures HitCount(cfg, pools, ops, size) == |Requested(cfg, pools, ops)| - |Recent(Requested(cfg, pools, ops))|
  {
    hide Routed, Run, PoolsAfter, RouteKey;
    if ops != [] {
      var front, op := ops[..|ops| - 1], ops[|ops| - 1];
      var h := Requested(cfg, pools, front);
      FriendlyPrefix(cfg, pools, ops);
      RecentDistinct(h);
      if op.Route? {
        var key := RouteKey(cfg, State(PoolsAfter(pools, front), [], 0), op.request);
        assert Requested(cfg, pools, ops) == h + [key];
        assert (h + [key])[..|h|] == h;
        TouchLength(Recent(h), key);
        HitIffRecent(cfg, pools, ops, size);
      } else {
        assert h + [] == h;
      }
      HitsWithoutEviction(cfg, pools, front, size);
    }
  }

  // ---------- salting ----------

  /** Over these prefixes, no two pools' salts ever make the same key. */
  ghost predicate SeparateKeys(cfg: Config, prefixes: set<string>) {
    forall p, x, p', x' :: x in prefixes && x' in prefixes && cfg.keyOf(p, x) == cfg.keyOf(p', x') ==> p == p'
  }

  /** Every entry maps to the pool whose salt made its key, from one of these prefixes. */
  ghost predicate Salted(cfg: Config, cache: seq<Entry<Pool>>, prefixes: set<string>) {
    forall e :: e in cache ==> exists x :: x in prefixes && e.key == cfg.keyOf(e.value, x)
  }

  /** The prefixes of a run's requests. */
  function PrefixesOf(ops: seq<Op>): set<string> {
    if ops == [] then {}
    else PrefixesOf(ops[..|ops| - 1]) + if ops[|ops| - 1].Route? then {ops[|ops| - 1].request.prefix} else {}
  }

  lemma SaltedMore(cfg: Config, cache: seq<Entry<Pool>>, some: set<string>, more: set<string>)
    requires Salted(cfg, cache, some) && some <= more
    ensures Salted(cfg, cache, more)
  {
    forall e | e in cache ensures exists x :: x in more && e.key == cfg.keyOf(e.value, x) {
      var x :| x in some && e.key == cfg.keyOf(e.value, x);
      assert x in more;
    }
  }

  lemma SaltedRoute(cfg: Config, s: State, q: Request, prefixes: set<string>)
    requires Salted(cfg, s.cache, prefixes) && q.prefix in prefixes
    ensures Salted(cfg, Routed(cfg, s, q).0.cache, prefixes)
  {
    hide Routed, Select;
    RouteEntries(cfg, s, q);
  }

  lemma {:induction false} SaltedRun(cfg: Config, s: State, ops: seq<Op>, seen: set<string>)
    requires Salted(cfg, s.cache, seen)
    ensures Salted(cfg, Run(cfg, s, ops).cache, seen + PrefixesOf(ops))
  {
    hide Routed, Salted;
    if ops == [] {
      assert seen + {} == seen;
    } else {
      var front := ops[..|ops| - 1];
      SaltedRun(cfg, s, front, seen);
      SaltedMore(cfg, Run(cfg, s, front).cache, seen + PrefixesOf(front), seen + PrefixesOf(ops));
      if ops[|ops| - 1].Route? {
        SaltedRoute(cfg, Run(cfg, s, front), ops[|ops| - 1].request, seen + PrefixesOf(ops));
      }
    }
  }

  /** What a router with no cache would decide. */
  function CacheFree(cfg: Config, pools: seq<PoolState>, q: Request): (Pool, bool) {
    var chosen := Select(cfg.policy, q, pools);
    if chosen.Some? then (chosen.value, true) else (COLOCATED, false)
  }

  /** The cache would answer this request from a pool other than the selected one. */
  predicate Diverted(cfg: Config, s: State, q: Request) {
    Hits(cfg, s, q) && Lookup(s.cache, RouteKey(cfg, s, q)) != Select(cfg.policy, q, s.pools)
  }

  /** Pool and admission are those of a router with no cache exactly when no hit diverts the request. */
  lemma CacheIgnoredIff(cfg: Config, s: State, q: Request)
    ensures var d := Routed(cfg, s, q).1;
            (d.pool, d.admitted) == CacheFree(cfg, s.pools, q) <==> !Diverted(cfg, s, q)
  {
    hide Select, RouteKey, Lookup;
    SelectMeaning(cfg.policy, q, s.pools);
    var cached := Lookup(s.cache, RouteKey(cfg, s, q));
    if cached.Some? {
      FindSound(s.pools, cached.value);
    }
    if s.pools == [] {
      assert !SomeAdmits(cfg.policy, q, s.pools);
    }
  }

  /**
   When the salts keep the pools' keys apart on every prefix seen so far, the cache cannot
   change a decision: over any run, a hit returns exactly the selected pool, and pool and
   admission are those of a router with no cache.
   */
  lemma SaltingDefeatsAffinity(cfg: Config, s: State, ops: seq<Op>, q: Request, seen: set<string>)
    requires Salted(cfg, s.cache, seen) && SeparateKeys(cfg, seen + PrefixesOf(ops) + {q.prefix})
    ensures var r := Run(cfg, s, ops);
            var d := Routed(cfg, r, q).1;
            && (d.pool, d.admitted) == CacheFree(cfg, r.pools, q)
            && (d.reason == HitInCache ==> Select(cfg.policy, q, r.pools) == Some(d.pool))
  {
    hide Select, RouteKey, Lookup, Run;
    var r := Run(cfg, s, ops);
    var prefixes := seen + PrefixesOf(ops) + {q.prefix};
    SaltedRun(cfg, s, ops, seen);
    SaltedMore(cfg, r.cache, seen + PrefixesOf(ops), prefixes);
    NeverDiverted(cfg, r, q, prefixes);
    CacheIgnoredIff(cfg, r, q);
  }

  lemma NeverDiverted(cfg: Config, s: State, q: Request, prefixes: set<string>)
    requires Salted(cfg, s.cache, prefixes) && SeparateKeys(cfg, prefixes) && q.prefix in prefixes
    ensures !Diverted(cfg, s, q)
  {
    SelectMeaning(cfg.policy, q, s.pools);
    var key, chosen := RouteKey(cfg, s, q), Select(cfg.policy, q, s.pools);
    var cached := Lookup(s.cache, key);
    if cached.Some? {
      LookupEntry(s.cache, key);
      FindSound(s.pools, cached.value);
      var x :| x in prefixes && key == cfg.keyOf(cached.value, x);
      var p := if chosen.Some? then chosen.value else COLOCATED;
      assert cfg.keyOf(p, q.prefix) == cfg.keyOf(cached.value, x);
    }
  }

  // ---------- batch traffic ----------

  const UNSALTED := Config(Policy(80.0, true), 16, (p: Pool, x: string) => x)

  const BATCH := Request("prompt", false, false)

  /** DECODE serves the prompt, then fills up a little while an idle COLOCATED pool joins. */
  const BATCH_RUN := [Register(PoolState(DECODE, 0, 10, true)), Route(BATCH),
                      Update(DECODE, 1), Register(PoolState(COLOCATED, 0, 10, true))]

  const BATCH_POOLS := [PoolState(DECODE, 1, 10, true), PoolState(COLOCATED, 0, 10, true)]

  lemma TenPercent()
    ensures HeadroomUsedPct(PoolState(DECODE, 0, 10, true)) == 0.0
    ensures HeadroomUsedPct(PoolState(DECODE, 1, 10, true)) == 10.0
    ensures HeadroomUsedPct(PoolState(COLOCATED, 0, 10, true)) == 0.0
  {}

  lemma BatchSelections()
    ensures Select(UNSALTED.policy, BATCH, [PoolState(DECODE, 0, 10, true)]) == Some(DECODE)
    ensures Select(UNSALTED.policy, BATCH, BATCH_POOLS) == Some(COLOCATED)
  {
    hide HeadroomUsedPct;
    TenPercent();
    var d0, d1, c := PoolState(DECODE, 0, 10, true), PoolState(DECODE, 1, 10, true), PoolState(COLOCATED, 0, 10, true);
    assert Healthy([d0]) == [d0] && SortPools([d0]) == [d0];
    assert BATCH_POOLS[1..] == [c];
    assert SortPools([c]) == [c];
    assert Healthy([c]) == [c] && Healthy(BATCH_POOLS) == BATCH_POOLS;
    assert SortPools(BATCH_POOLS) == [c] + InsertPool(d1, []);
  }

  /** The state that run reaches. */
  lemma BatchRun()
    ensures var s := Run(UNSALTED, State([], [], 0), BATCH_RUN);
            s.pools == BATCH_POOLS && s.cache == [Entry("prompt", DECODE)]
  {
    hide Select, HeadroomUsedPct;
    BatchSelections();
    var s0, d0 := State([], [], 0), PoolState(DECODE, 0, 10, true);
    var s1 := State([d0], [], 0);
    assert BATCH_RUN[..3] == BATCH_RUN[..3] && BATCH_RUN[..3][..2] == BATCH_RUN[..2];
    assert BATCH_RUN[..2][..1] == BATCH_RUN[..1] && BATCH_RUN[..1][..0] == [];
    assert Run(UNSALTED, s0, BATCH_RUN[..1]) == s1;
    assert RouteKey(UNSALTED, s1, BATCH) == "prompt";
    assert Routed(UNSALTED, s1, BATCH).0 == State([d0], [Entry("prompt", DECODE)], 1);
    assert Run(UNSALTED, s0, BATCH_RUN[..2]) == State([d0], [Entry("prompt", DECODE)], 1);
    assert Run(UNSALTED, s0, BATCH_RUN[..3]).pools == [PoolState(DECODE, 1, 10, true)];
    assert BATCH_POOLS[1..] == [PoolState(COLOCATED, 0, 10, true)];
  }

  /** A batch request follows the cache to a busier pool although an idle one is the pool of least depth. */
  lemma BatchFollowsCache()
    ensures var s := Run(UNSALTED, State([], [], 0), BATCH_RUN);
            && !BATCH.interactive && !BATCH.rag
            && Routed(UNSALTED, s, BATCH).1 == Decision(DECODE, true, HitInCache, Some("prompt"))
            && CacheFree(UNSALTED, s.pools, BATCH) == (COLOCATED, true)
            && Diverted(UNSALTED, s, BATCH)
  {
    hide Select, HeadroomUsedPct, Run;
    BatchRun();
    BatchSelections();
    TenPercent();
    var s := Run(UNSALTED, State([], [], 0), BATCH_RUN);
    assert RouteKey(UNSALTED, s, BATCH) == "prompt";
    assert Lookup(s.cache, "prompt") == Some(DECODE);
  }

  /** A constant salt: the key is the prefix's alone. */
  ghost predicate ConstantSalt(cfg: Config) {
    forall p, p', x :: cfg.keyOf(p, x) == cfg.keyOf(p', x)
  }

  /** The run touches `key` only through other requests' keys. */
  ghost predicate NoneFor(cfg: Config, ops: seq<Op>, prefix: string) {
    forall k :: 0 <= k < |ops| && ops[k].Route? ==> cfg.keyOf(COLOCATED, ops[k].request.prefix) != cfg.keyOf(COLOCATED, prefix)
  }

  /** Entries of other keys keep their pool through a run. */
  lemma {:induction false} OthersKeepPool(cfg: Config, s: State, ops: seq<Op>, prefix: string, pool: Pool)
    requires ConstantSalt(cfg) && NoneFor(cfg, ops, prefix)
    requires forall e :: e in s.cache && e.key == cfg.keyOf(COLOCATED, prefix) ==> e.value == pool
    ensures forall e :: e in Run(cfg, s, ops).cache && e.key == cfg.keyOf(COLOCATED, prefix) ==> e.value == pool
    ensures cfg.keyOf(COLOCATED, prefix) !in Touched(cfg, s, ops)
  {
    hide Routed, Select, Lookup;
    if ops != [] {
      var front, op := ops[..|ops| - 1], ops[|ops| - 1];
      assert forall k :: 0 <= k < |front| ==> front[k] == ops[k];
      OthersKeepPool(cfg, s, front, prefix, pool);
      if op.Route? {
        RouteEntries(cfg, Run(cfg, s, front), op.request);
        assert RouteKey(cfg, Run(cfg, s, front), op.request) == cfg.keyOf(COLOCATED, op.request.prefix);
      }
    }
  }

  /**
   With a constant salt the cache gives affinity: after a request was sent to a pool,
   the next request with its prefix returns to that pool as long as the pool still
   admits it and fewer than `cacheMax` other distinct keys were touched in between.
   */
  lemma ConstantSaltAffinity(cfg: Config, s: State, q: Request, ops: seq<Op>, q': Request, st: PoolState)
    requires ConstantSalt(cfg) && ValidCache(cfg, s) && q'.prefix == q.prefix && NoneFor(cfg, ops, q.prefix)
    requires var (s1, d) := Routed(cfg, s, q);
             && d.admitted
             && |Recent(Touched(cfg, s1, ops))| < Cap(cfg)
             && Find(Run(cfg, s1, ops).pools, d.pool) == Some(st) && Admits(cfg.policy, q', st)
    ensures var (s1, d) := Routed(cfg, s, q);
            Routed(cfg, Run(cfg, s1, ops), q').1 == Decision(d.pool, true, HitInCache, d.prefixHash)
  {
    hide Routed, Run, Touched, Keys, Find, ConstantSalt, NoneFor, Recent, Suffix, Admissible, Admits, ValidCache;
    AdmissibleIff(cfg.policy, q', st);
    var (s1, d) := Routed(cfg, s, q);
    var key := cfg.keyOf(COLOCATED, q.prefix);
    JustRouted(cfg, s, q);
    OthersKeepPool(cfg, s1, ops, q.prefix, d.pool);
    CacheIsRecent(cfg, s1, ops);
    var ks := Keys(s1.cache);
    assert ks == ks[..|ks| - 1] + [key];
    Survives(ks[..|ks| - 1], key, Touched(cfg, s1, ops), Cap(cfg));
    AffinityHit(cfg, Run(cfg, s1, ops), q', key, d.pool, st);
  }

  /** Right after an admitted request its key is the most recent one and maps to its pool. */
  lemma JustRouted(cfg: Config, s: State, q: Request)
    requires ConstantSalt(cfg) && ValidCache(cfg, s) && Cap(cfg) > 0
    requires Routed(cfg, s, q).1.admitted
    ensures var (s1, d) := Routed(cfg, s, q);
            var key := cfg.keyOf(COLOCATED, q.prefix);
            && ValidCache(cfg, s1) && d.prefixHash == Some(key)
            && s1.cache != [] && Keys(s1.cache)[|s1.cache| - 1] == key
            && forall e :: e in s1.cache && e.key == key ==> e.value == d.pool
  {
    hide Routed, Keys;
    ConstantKey(cfg, s, q);
    RouteIsAccess(cfg, s, q);
    LastEntry(cfg, s, q);
    var (s1, d) := Routed(cfg, s, q);
    KeysLast(s1.cache);
    OnlyEntry(s1.cache, s1.cache[|s1.cache| - 1].key, d.pool);
  }

  lemma KeysLast(cache: seq<Entry<Pool>>)
    requires cache != []
    ensures Keys(cache)[|cache| - 1] == cache[|cache| - 1].key
  {}

  /** An admitted request leaves its own entry at the recent end. */
  lemma LastEntry(cfg: Config, s: State, q: Request)
    requires Routed(cfg, s, q).1.admitted && Cap(cfg) > 0
    ensures var (s1, d) := Routed(cfg, s, q);
            var key := RouteKey(cfg, s, q);
            d.prefixHash == Some(key) && s1.cache != [] && s1.cache[|s1.cache| - 1] == Entry(key, d.pool)
  {
    hide Removed, Assigned, Select, RouteKey, Lookup, Find, Admissible;
    var key, chosen := RouteKey(cfg, s, q), Select(cfg.policy, q, s.pools);
    var cached := Lookup(s.cache, key);
    if chosen.Some? {
      if cached.Some? {
        RemovedEntries(s.cache, key);
        AssignedToEnd(Removed(s.cache, key), key, cached.value, chosen.value);
      } else {
        AssignedAbsent(s.cache, key, chosen.value);
      }
    }
  }

  lemma ConstantKey(cfg: Config, s: State, q: Request)
    requires ConstantSalt(cfg)
    ensures RouteKey(cfg, s, q) == cfg.keyOf(COLOCATED, q.prefix)
  {
    hide Select;
  }

  lemma AffinityHit(cfg: Config, s: State, q: Request, key: string, pool: Pool, st: PoolState)
    requires ConstantSalt(cfg) && ValidCache(cfg, s) && key == cfg.keyOf(COLOCATED, q.prefix)
    requires key in Keys(s.cache) && forall e :: e in s.cache && e.key == key ==> e.value == pool
    requires Find(s.pools, pool) == Some(st) && Admissible(cfg.policy, q, st)
    ensures Routed(cfg, s, q).1 == Decision(pool, true, HitInCache, Some(key))
  {
    hide Select, Lookup;
    LookupIsMembership(s.cache, key);
    LookupEntry(s.cache, key);
    assert RouteKey(cfg, s, q) == key;
    assert s.pools != [] by {
      assert Find([], pool) == None;
    }
  }
}
