/** Python's OrderedDict with string keys, as the control plane uses it: oldest entry first. */
module OrderedDict {
  import opened Prelude
  import opened Recency

  datatype Entry<+V> = Entry(key: string, value: V)

  function Keys<V>(items: seq<Entry<V>>): (ks: seq<string>)
    ensures |ks| == |items| && forall i :: 0 <= i < |items| ==> ks[i] == items[i].key
  {
    seq(|items|, i requires 0 <= i < |items| => items[i].key)
  }

  function Lookup<V>(items: seq<Entry<V>>, key: string): Option<V> {
    if items == [] then None
    else if items[0].key == key then Some(items[0].value)
    else Lookup(items[1..], key)
  }

  function Removed<V>(items: seq<Entry<V>>, key: string): seq<Entry<V>> {
    if items == [] then []
    else
      var front := Removed(items[..|items| - 1], key);
      if items[|items| - 1].key == key then front else front + [items[|items| - 1]]
  }

  function MovedToEnd<V>(items: seq<Entry<V>>, key: string, value: V): seq<Entry<V>> {
    Removed(items, key) + [Entry(key, value)]
  }

  /** Dict assignment: replace in place, or append. */
  function Assigned<V>(items: seq<Entry<V>>, key: string, value: V): seq<Entry<V>> {
    if items == [] then [Entry(key, value)]
    else if items[0].key == key then [Entry(key, value)] + items[1..]
    else [items[0]] + Assigned(items[1..], key, value)
  }

  lemma {:induction false} AssignedNonempty<V(!new)>(items: seq<Entry<V>>, key: string, value: V)
    ensures Assigned(items, key, value) != []
  {}

  // ---------- keys ----------

  lemma {:induction false} RemovedKeys<V(!new)>(items: seq<Entry<V>>, key: string)
    ensures Keys(Removed(items, key)) == Without(Keys(items), key)
  {
    if items != [] {
      var k := |items| - 1;
      RemovedKeys(items[..k], key);
      assert Keys(items)[..k] == Keys(items[..k]);
    }
  }

  lemma {:induction false} LookupIsMembership<V(!new)>(items: seq<Entry<V>>, key: string)
    ensures Lookup(items, key).Some? <==> key in Keys(items)
  {
    if items != [] {
      LookupIsMembership(items[1..], key);
      assert Keys(items) == [items[0].key] + Keys(items[1..]);
    }
  }

  lemma KeysCons<V(!new)>(e: Entry<V>, tail: seq<Entry<V>>)
    ensures Keys([e] + tail) == [e.key] + Keys(tail)
  {}

  lemma {:induction false} AssignedPresent<V(!new)>(items: seq<Entry<V>>, key: string, value: V)
    requires Lookup(items, key).Some?
    ensures Keys(Assigned(items, key, value)) == Keys(items)
  {
    hide Keys;
    var e, tail := items[0], items[1..];
    assert items == [e] + tail;
    KeysCons(e, tail);
    if e.key == key {
      KeysCons(Entry(key, value), tail);
    } else {
      AssignedPresent(tail, key, value);
      KeysCons(e, Assigned(tail, key, value));
    }
  }

  lemma {:induction false} AssignedAbsent<V(!new)>(items: seq<Entry<V>>, key: string, value: V)
    requires Lookup(items, key).None?
    ensures Assigned(items, key, value) == items + [Entry(key, value)]
  {
    if items != [] {
      AssignedAbsent(items[1..], key, value);
      assert items == [items[0]] + items[1..];
    }
  }

  lemma AssignedKeys<V(!new)>(items: seq<Entry<V>>, key: string, value: V)
    ensures key in Keys(items) ==> Keys(Assigned(items, key, value)) == Keys(items)
    ensures key !in Keys(items) ==> Keys(Assigned(items, key, value)) == Keys(items) + [key]
  {
    LookupIsMembership(items, key);
    if Lookup(items, key).Some? {
      AssignedPresent(items, key, value);
    } else {
      AssignedAbsent(items, key, value);
    }
  }

  lemma MovedKeys<V(!new)>(items: seq<Entry<V>>, key: string, touched: seq<Entry<V>>)
    requires var found := Lookup(items, key);
             touched == if found.Some? then MovedToEnd(items, key, found.value) else items
    ensures Keys(touched) == if key in Keys(items) then Touch(Keys(items), key) else Keys(items)
  {
    LookupIsMembership(items, key);
    RemovedKeys(items, key);
  }

  /** Assigning a key just moved to the end, or a new one, leaves it last. */
  lemma AssignedAfterMove<V(!new)>(ks: seq<string>, touched: seq<Entry<V>>, key: string, value: V)
    requires Keys(touched) == if key in ks then Touch(ks, key) else ks
    ensures Keys(Assigned(touched, key, value)) == Touch(ks, key)
  {
    AssignedKeys(touched, key, value);
    if key !in ks {
      WithoutAbsent(ks, key);
    }
  }

  lemma {:induction false} LookupEntry<V(!new)>(items: seq<Entry<V>>, key: string)
    requires Lookup(items, key).Some?
    ensures Entry(key, Lookup(items, key).value) in items
  {
    if items[0].key != key {
      LookupEntry(items[1..], key);
      assert items == [items[0]] + items[1..];
    }
  }

  lemma {:induction false} RemovedEntries<V(!new)>(items: seq<Entry<V>>, key: string)
    ensures forall e :: e in Removed(items, key) <==> e in items && e.key != key
  {
    if items != [] {
      RemovedEntries(items[..|items| - 1], key);
      assert items == items[..|items| - 1] + [items[|items| - 1]];
    }
  }

  lemma {:induction false} AssignedEntries<V(!new)>(items: seq<Entry<V>>, key: string, value: V)
    ensures forall e :: e in Assigned(items, key, value) ==> e in items || e == Entry(key, value)
  {
    if items != [] {
      AssignedEntries(items[1..], key, value);
      assert items == [items[0]] + items[1..];
    }
  }

  /** Assigning to the entry just moved to the end replaces it there. */
  lemma {:induction false} AssignedToEnd<V(!new)>(front: seq<Entry<V>>, key: string, v: V, w: V)
    requires forall e :: e in front ==> e.key != key
    ensures Assigned(front + [Entry(key, v)], key, w) == front + [Entry(key, w)]
  {
    var items := front + [Entry(key, v)];
    if front == [] {
      assert items == [Entry(key, v)] && items[1..] == [];
    } else {
      assert items[0] == front[0] && items[1..] == front[1..] + [Entry(key, v)];
      assert front[0] in front;
      AssignedToEnd(front[1..], key, v, w);
    }
  }

  /** With distinct keys there is one entry per key. */
  lemma OnlyEntry<V(!new)>(items: seq<Entry<V>>, key: string, value: V)
    requires Distinct(Keys(items)) && Entry(key, value) in items
    ensures forall e :: e in items && e.key == key ==> e.value == value
  {
    var i :| 0 <= i < |items| && items[i] == Entry(key, value);
    forall e | e in items && e.key == key ensures e.value == value {
      var j :| 0 <= j < |items| && items[j] == e;
      assert Keys(items)[i] == Keys(items)[j];
    }
  }
}
