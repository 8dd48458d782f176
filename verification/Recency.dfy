/**
 Recency lists: what an LRU of any size holds, as a suffix of the keys ordered by
 last use.  Shared by the router's prefix cache and the KV tier.
 */
module Recency {

  function Without<K(==)>(s: seq<K>, k: K): seq<K> {
    if s == [] then []
    else
      var front := Without(s[..|s| - 1], k);
      if s[|s| - 1] == k then front else front + [s[|s| - 1]]
  }

  /** `move_to_end`, or insertion at the end. */
  function Touch<K(==)>(s: seq<K>, k: K): seq<K> {
    Without(s, k) + [k]
  }

  /** The distinct keys of a history, ordered by last use. */
  function Recent<K(==)>(h: seq<K>): seq<K> {
    if h == [] then [] else Touch(Recent(h[..|h| - 1]), h[|h| - 1])
  }

  function Suffix<K>(s: seq<K>, cap: nat): seq<K> {
    if |s| <= cap then s else s[|s| - cap..]
  }

  /** One LRU access: touch, then drop one entry from the front if over capacity. */
  function Access<K(==)>(s: seq<K>, k: K, cap: nat): seq<K> {
    var t := Touch(s, k);
    if |t| > cap then t[1..] else t
  }

  ghost predicate Distinct<K(!new)>(s: seq<K>) {
    forall i, j :: 0 <= i < j < |s| ==> s[i] != s[j]
  }

  // ---------- removal ----------

  lemma {:induction false} WithoutMembers<K(!new)>(s: seq<K>, k: K)
    ensures forall x :: x in Without(s, k) <==> x in s && x != k
  {
    if s != [] {
      WithoutMembers(s[..|s| - 1], k);
      assert s == s[..|s| - 1] + [s[|s| - 1]];
    }
  }

  lemma {:induction false} WithoutAbsent<K(!new)>(s: seq<K>, k: K)
    requires k !in s
    ensures Without(s, k) == s
  {
    if s != [] {
      WithoutAbsent(s[..|s| - 1], k);
      assert s == s[..|s| - 1] + [s[|s| - 1]];
    }
  }

  lemma {:induction false} WithoutConcat<K(!new)>(a: seq<K>, b: seq<K>, k: K)
    ensures Without(a + b, k) == Without(a, k) + Without(b, k)
  {
    if b == [] {
      assert a + b == a;
    } else {
      var n := |b| - 1;
      WithoutConcat(a, b[..n], k);
      assert (a + b)[..|a + b| - 1] == a + b[..n];
    }
  }

  lemma {:induction false} WithoutDistinct<K(!new)>(s: seq<K>, k: K)
    requires Distinct(s)
    ensures Distinct(Without(s, k))
    ensures |Without(s, k)| == if k in s then |s| - 1 else |s|
  {
    if s != [] {
      var front := s[..|s| - 1];
      WithoutDistinct(front, k);
      WithoutMembers(front, k);
      var w := Without(front, k);
      forall i | 0 <= i < |w| ensures w[i] != s[|s| - 1] {
        assert w[i] in front;
      }
      assert s == front + [s[|s| - 1]];
    }
  }

  lemma TouchDistinct<K(!new)>(s: seq<K>, k: K)
    requires Distinct(s)
    ensures Distinct(Touch(s, k))
    ensures forall x :: x in Touch(s, k) <==> x == k || x in s
  {
    WithoutDistinct(s, k);
    WithoutMembers(s, k);
  }

  lemma {:induction false} RecentDistinct<K(!new)>(h: seq<K>)
    ensures Distinct(Recent(h))
    ensures forall x :: x in Recent(h) <==> x in h
  {
    if h != [] {
      RecentDistinct(h[..|h| - 1]);
      TouchDistinct(Recent(h[..|h| - 1]), h[|h| - 1]);
      assert h == h[..|h| - 1] + [h[|h| - 1]];
    }
  }

  lemma {:induction false} RecentOfDistinct<K(!new)>(h: seq<K>)
    requires Distinct(h)
    ensures Recent(h) == h
  {
    if h != [] {
      var front := h[..|h| - 1];
      RecentOfDistinct(front);
      WithoutAbsent(front, h[|h| - 1]);
      assert h == front + [h[|h| - 1]];
    }
  }

  // ---------- an LRU of any size is a suffix of the recency list ----------

  lemma SuffixOfConcat<K>(a: seq<K>, b: seq<K>, cap: nat)
    requires a == [] || |b| >= cap
    ensures Suffix(a + b, cap) == Suffix(b, cap)
  {
    if a == [] {
      assert a + b == b;
    }
  }

  /** The size of a list after a touch. */
  lemma TouchLength<K(!new)>(s: seq<K>, k: K)
    requires Distinct(s)
    ensures |Touch(s, k)| == if k in s then |s| else |s| + 1
  {
    WithoutDistinct(s, k);
  }

  lemma TouchConcat<K(!new)>(pre: seq<K>, s: seq<K>, k: K)
    ensures Touch(pre + s, k) == Without(pre, k) + Touch(s, k)
    ensures pre == [] ==> Without(pre, k) == []
  {
    WithoutConcat(pre, s, k);
  }

  lemma SuffixSplits<K(!new)>(r: seq<K>, cap: nat) returns (pre: seq<K>)
    ensures r == pre + Suffix(r, cap)
    ensures |Suffix(r, cap)| <= cap && (pre == [] || |Suffix(r, cap)| == cap)
    ensures Distinct(r) ==> Distinct(Suffix(r, cap))
  {
    pre := r[..|r| - |Suffix(r, cap)|];
  }

  lemma AccessIsSuffix<K(!new)>(s: seq<K>, k: K, cap: nat)
    requires Distinct(s) && |s| <= cap
    ensures Access(s, k, cap) == Suffix(Touch(s, k), cap) && |Touch(s, k)| >= |s|
  {
    hide Touch, Distinct;
    TouchLength(s, k);
  }

  /** One access commutes with taking the suffix. */
  lemma AccessSuffix<K(!new)>(r: seq<K>, k: K, cap: nat)
    requires Distinct(r)
    ensures Access(Suffix(r, cap), k, cap) == Suffix(Touch(r, k), cap)
  {
    hide Touch, Without, Distinct, Suffix, Access;
    var pre := SuffixSplits(r, cap);
    var s := Suffix(r, cap);
    AccessIsSuffix(s, k, cap);
    TouchConcat(pre, s, k);
    SuffixOfConcat(Without(pre, k), Touch(s, k), cap);
  }

  /** Position of the last use of a key. */
  function LastUse<K(==)>(h: seq<K>, k: K): nat
    requires k in h
  {
    if h[|h| - 1] == k then |h| - 1 else LastUse(h[..|h| - 1], k)
  }

  /** `Recent` means what it says: the distinct keys, in order of last use. */
  lemma {:induction false} RecentByLastUse<K(!new)>(h: seq<K>)
    ensures Distinct(Recent(h)) && (forall x :: x in Recent(h) <==> x in h)
    ensures forall i, j :: 0 <= i < j < |Recent(h)| ==> LastUse(h, Recent(h)[i]) < LastUse(h, Recent(h)[j])
  {
    RecentDistinct(h);
    if h != [] {
      var front, k := h[..|h| - 1], h[|h| - 1];
      RecentByLastUse(front);
      LastUseBound(front);
      WithoutOrder(front, Recent(front), k);
      var w := Without(Recent(front), k);
      WithoutMembers(Recent(front), k);
      forall i | 0 <= i < |w| ensures LastUse(h, w[i]) == LastUse(front, w[i]) < LastUse(h, k) {
        assert w[i] in Recent(front);
      }
    }
  }

  lemma {:induction false} LastUseBound<K(!new)>(h: seq<K>)
    ensures forall k :: k in h ==> LastUse(h, k) < |h|
  {
    if h != [] {
      LastUseBound(h[..|h| - 1]);
      assert forall k :: k in h && k != h[|h| - 1] ==> k in h[..|h| - 1];
    }
  }

  ghost predicate ByLastUse<K(!new)>(h: seq<K>, r: seq<K>) {
    && (forall x :: x in r ==> x in h)
    && (forall i, j :: 0 <= i < j < |r| ==> LastUse(h, r[i]) < LastUse(h, r[j]))
  }

  lemma {:induction false} WithoutOrder<K(!new)>(h: seq<K>, r: seq<K>, k: K)
    requires ByLastUse(h, r)
    ensures ByLastUse(h, Without(r, k))
  {
    WithoutMembers(r, k);
    if r != [] {
      var front := r[..|r| - 1];
      WithoutOrder(h, front, k);
      WithoutMembers(front, k);
      var w := Without(front, k);
      forall i | 0 <= i < |w| ensures LastUse(h, w[i]) < LastUse(h, r[|r| - 1]) {
        assert w[i] in front;
      }
    }
  }

  /** The stack property: a larger LRU holds everything a smaller one does. */
  lemma SuffixInclusion<K(!new)>(r: seq<K>, small: nat, large: nat)
    requires small <= large
    ensures forall x :: x in Suffix(r, small) ==> x in Suffix(r, large)
  {
    var s, l := Suffix(r, small), Suffix(r, large);
    assert s == l[|l| - |s|..];
  }

  lemma WithoutMiddle<K(!new)>(a: seq<K>, k: K, b: seq<K>, x: K)
    requires x != k
    ensures Without(a + [k] + b, x) == Without(a, x) + [k] + Without(b, x)
  {
    WithoutConcat(a + [k], b, x);
    WithoutConcat(a, [k], x);
    WithoutAbsent([k], x);
  }

  lemma RecentSnoc<K(!new)>(h: seq<K>, x: K)
    ensures Recent(h + [x]) == Without(Recent(h), x) + [x]
  {
    assert (h + [x])[..|h|] == h;
  }

  lemma RecentNothing<K(!new)>()
    ensures Recent<K>([]) == []
  {}

  lemma Regroup<K>(a: seq<K>, b: seq<K>, c: seq<K>, d: seq<K>)
    ensures (a + b + c) + d == a + b + (c + d)
  {}

  /** A key survives while fewer distinct other keys than the capacity are used after it. */
  lemma {:induction false} RecentSplit<K(!new)>(h: seq<K>, k: K, later: seq<K>) returns (pre: seq<K>)
    requires k !in later
    ensures Recent(h + [k] + later) == pre + [k] + Recent(later)
  {
    hide Recent, Without;
    if later == [] {
      pre := Without(Recent(h), k);
      assert h + [k] + later == h + [k];
      RecentSnoc(h, k);
      RecentNothing<K>();
      assert pre + [k] + [] == pre + [k];
    } else {
      var front, x := later[..|later| - 1], later[|later| - 1];
      var pre0 := RecentSplit(h, k, front);
      assert h + [k] + later == (h + [k] + front) + [x] && later == front + [x];
      RecentSnoc(h + [k] + front, x);
      RecentSnoc(front, x);
      WithoutMiddle(pre0, k, Recent(front), x);
      pre := Without(pre0, x);
      Regroup(pre, [k], Without(Recent(front), x), [x]);
    }
  }

  lemma Survives<K(!new)>(h: seq<K>, k: K, later: seq<K>, cap: nat)
    requires k !in later && |Recent(later)| < cap
    ensures k in Suffix(Recent(h + [k] + later), cap)
  {
    hide Recent;
    var pre := RecentSplit(h, k, later);
    var r := Recent(h + [k] + later);
    assert r[|pre|] == k;
    assert |pre| >= |r| - cap;
    if |r| > cap {
      assert Suffix(r, cap)[|pre| - (|r| - cap)] == k;
    }
  }

  /** And no longer: once that many have been used, it is gone. */
  lemma Evicted<K(!new)>(h: seq<K>, k: K, later: seq<K>, cap: nat)
    requires k !in later && |Recent(later)| >= cap
    ensures k !in Suffix(Recent(h + [k] + later), cap)
  {
    hide Recent, Distinct;
    var pre := RecentSplit(h, k, later);
    RecentDistinct(later);
    var r := Recent(h + [k] + later);
    assert Suffix(r, cap) == Recent(later)[|Recent(later)| - cap..];
  }
}
