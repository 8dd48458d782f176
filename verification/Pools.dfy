/** control/pool.py: pool roles and the live state of one pool. */
module Pools {
  import opened RealArith

  datatype Pool = PREFILL | DECODE | COLOCATED | TIER

  /** Alphabetical order of the pool values, the router's tie-break. */
  function Rank(p: Pool): nat {
    match p
    case COLOCATED => 0
    case DECODE => 1
    case PREFILL => 2
    case TIER => 3
  }

  /** The pool's value in the enumeration. */
  function PoolName(p: Pool): string {
    match p
    case PREFILL => "prefill"
    case DECODE => "decode"
    case COLOCATED => "colocated"
    case TIER => "tier"
  }

  /** Python's `<=` on strings. */
  predicate StringLeq(a: string, b: string) {
    a == "" || (b != "" && (a[0] < b[0] || (a[0] == b[0] && StringLeq(a[1..], b[1..]))))
  }

  lemma RankIsAlphabetical(p: Pool, q: Pool)
    ensures Rank(p) <= Rank(q) <==> StringLeq(PoolName(p), PoolName(q))
  {
    if p == q {
      SameLeq(PoolName(p));
    }
  }

  lemma {:induction false} SameLeq(a: string)
    ensures StringLeq(a, a)
  {
    if a != "" {
      SameLeq(a[1..]);
    }
  }

  datatype PoolState = PoolState(pool: Pool, queueDepth: nat, capacity: int, healthy: bool)

  function HeadroomUsedPct(st: PoolState): real {
    if st.capacity <= 0 then 100.0 else Prod(Quot(st.queueDepth as real, st.capacity as real), 100.0)
  }
}
