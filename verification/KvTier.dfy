/** kv/lmcache_client.py: the in-memory LRU tier `MockLmcacheClient`. */
module KvTier {
  import opened Recency
  import opened OrderedDict

  /** `store` maps prefix hashes to sizes, least recently used first. */
  datatype Tier = Tier(store: seq<Entry<int>>, hits: nat, misses: nat, evictions: nat, usedBytes: int)

  const EMPTY_TIER := Tier([], 0, 0, 0, 0)

  function SizeSum(store: seq<Entry<int>>): int {
    if store == [] then 0 else SizeSum(store[..|store| - 1]) + store[|store| - 1].value
  }

  // ---------- the operations as functions ----------

  /** `popitem(last=False)` and its accounting. */
  function PopOldest(t: Tier): Tier
    requires t.store != []
  {
    t.(store := t.store[1..], usedBytes := t.usedBytes - t.store[0].value, evictions := t.evictions + 1)
  }

  /** The eviction loop: pop while the store is full; an empty store cannot be popped. */
  function MakeRoom(t: Tier, capacity: int): (Tier, bool)
    decreases |t.store|
  {
    if |t.store| < capacity then (t, true)
    else if t.store == [] then (t, false)
    else MakeRoom(PopOldest(t), capacity)
  }

  /** `store`; the flag is false when popping an empty store raised. */
  function Stored(t: Tier, capacity: int, key: string, size: int): (Tier, bool) {
    var found := Lookup(t.store, key);
    if found.Some? then (t.(store := MovedToEnd(t.store, key, found.value)), true)
    else
      var (r, ok) := MakeRoom(t, capacity);
      if !ok then (r, false)
      else (r.(store := r.store + [Entry(key, size)], usedBytes := r.usedBytes + size), true)
  }

  /** `lookup`; `drawn` is whether the random draw falls below the hit probability. */
  function LookedUp(t: Tier, key: string, drawn: bool): (Tier, bool) {
    var found := Lookup(t.store, key);
    if found.None? then (t.(misses := t.misses + 1), false)
    else
      var u := t.(store := MovedToEnd(t.store, key, found.value));
      if drawn then (u.(hits := u.hits + 1), true) else (u.(misses := u.misses + 1), false)
  }

  function Dropped(t: Tier, key: string): Tier {
    var found := Lookup(t.store, key);
    if found.None? then t
    else t.(store := Removed(t.store, key), usedBytes := t.usedBytes - found.value)
  }

  // ---------- the imperative client ----------

  class MockLmcacheClient {
    const capacity: int
    var store: seq<Entry<int>>
    var hits: nat
    var misses: nat
    var evictions: nat
    var usedBytes: int

    ghost function View(): Tier
      reads this
    {
      Tier(store, hits, misses, evictions, usedBytes)
    }

    constructor (capacity: int)
      ensures this.capacity == capacity && View() == EMPTY_TIER
    {
      this.capacity := capacity;
      store, hits, misses, evictions, usedBytes := [], 0, 0, 0, 0;
    }

    method LookupPrefix(key: string, drawn: bool) returns (hit: bool)
      modifies this
      ensures (View(), hit) == LookedUp(old(View()), key, drawn)
    {
      var found := Lookup(store, key);
      if found.Some? {
        store := MovedToEnd(store, key, found.value);
        if drawn {
          hits := hits + 1;
          return true;
        }
        misses := misses + 1;
        return false;
      }
      misses := misses + 1;
      return false;
    }

    method Evict(key: string)
      modifies this
      ensures View() == Dropped(old(View()), key)
    {
      var found := Lookup(store, key);
      if found.Some? {
        store := Removed(store, key);
        usedBytes := usedBytes - found.value;
      }
    }

    method Store(key: string, size: int) returns (ok: bool)
      modifies this
      ensures (View(), ok) == Stored(old(View()), capacity, key, size)
    {
      var found := Lookup(store, key);
      if found.Some? {
        store := MovedToEnd(store, key, found.value);
        return true;
      }
      while |store| >= capacity
        invariant MakeRoom(View(), capacity) == MakeRoom(old(View()), capacity)
        decreases |store|
      {
        if store == [] {
          return false;
        }
        var oldest := store[0];
        store := store[1..];
        usedBytes := usedBytes - oldest.value;
        evictions := evictions + 1;
      }
      store := store + [Entry(key, size)];
      usedBytes := usedBytes + size;
      return true;
    }
  }

  // ---------- what every operation keeps ----------

  ghost predicate Valid(t: Tier, capacity: nat) {
    && Distinct(Keys(t.store)) && |t.store| <= capacity
    && t.usedBytes == SizeSum(t.store)
  }

  lemma {:induction false} SizeSumConcat(a: seq<Entry<int>>, b: seq<Entry<int>>)
    ensures SizeSum(a + b) == SizeSum(a) + SizeSum(b)
  {
    if b == [] {
      assert a + b == a;
    } else {
      SizeSumConcat(a, b[..|b| - 1]);
      assert (a + b)[..|a + b| - 1] == a + b[..|b| - 1];
    }
  }

  lemma {:induction false} RemovedSize(store: seq<Entry<int>>, key: string, v: int)
    requires Distinct(Keys(store)) && Entry(key, v) in store
    ensures SizeSum(Removed(store, key)) == SizeSum(store) - v
  {
    var n := |store| - 1;
    var front, last := store[..n], store[n];
    assert store == front + [last];
    assert Keys(store)[..n] == Keys(front);
    if last.key == key {
      OnlyEntry(store, key, v);
      assert forall i :: 0 <= i < n ==> Keys(front)[i] == Keys(store)[i] != Keys(store)[n];
      RemovedAbsent(front, key);
    } else {
      RemovedSize(front, key, v);
    }
  }

  lemma {:induction false} RemovedAbsent(store: seq<Entry<int>>, key: string)
    requires key !in Keys(store)
    ensures Removed(store, key) == store
  {
    if store != [] {
      var n := |store| - 1;
      assert Keys(store)[..n] == Keys(store[..n]) && Keys(store)[n] == store[n].key;
      RemovedAbsent(store[..n], key);
      assert store == store[..n] + [store[n]];
    }
  }

  lemma MovedSize(store: seq<Entry<int>>, key: string, v: int)
    requires Distinct(Keys(store)) && Entry(key, v) in store
    ensures SizeSum(MovedToEnd(store, key, v)) == SizeSum(store)
  {
    RemovedSize(store, key, v);
    SizeSumConcat(Removed(store, key), [Entry(key, v)]);
    assert [Entry(key, v)][..0] == [];
  }

  /** Below capacity nothing is popped; at capacity exactly one entry is. */
  lemma MakeRoomPops(t: Tier, capacity: nat)
    requires Valid(t, capacity) && capacity >= 1
    ensures MakeRoom(t, capacity) == (if |t.store| < capacity then t else PopOldest(t), true)
  {}

  lemma {:induction false} MakeRoomSucceedsIff(t: Tier, capacity: int)
    ensures MakeRoom(t, capacity).1 <==> capacity >= 1
    decreases |t.store|
  {
    if |t.store| >= capacity && t.store != [] {
      MakeRoomSucceedsIff(PopOldest(t), capacity);
    }
  }

  /** A store raises exactly when its key is not resident and the capacity is below one, having emptied the tier. */
  lemma StoreSucceedsIff(t: Tier, capacity: int, key: string, size: int)
    ensures Stored(t, capacity, key, size).1 <==> key in Keys(t.store) || capacity >= 1
  {
    hide MakeRoom;
    LookupIsMembership(t.store, key);
    MakeRoomSucceedsIff(t, capacity);
  }

  lemma PoppedSize(store: seq<Entry<int>>)
    requires store != []
    ensures SizeSum(store[1..]) == SizeSum(store) - store[0].value
    ensures Keys(store[1..]) == Keys(store)[1..]
  {
    SizeSumConcat([store[0]], store[1..]);
    assert store == [store[0]] + store[1..];
    assert [store[0]][..0] == [];
  }

  lemma AppendEntry(store: seq<Entry<int>>, e: Entry<int>)
    ensures SizeSum(store + [e]) == SizeSum(store) + e.value
    ensures Keys(store + [e]) == Keys(store) + [e.key]
  {
    assert (store + [e])[..|store|] == store;
  }

  lemma StoreResident(t: Tier, capacity: nat, key: string, size: int)
    requires Valid(t, capacity) && key in Keys(t.store)
    ensures var (u, ok) := Stored(t, capacity, key, size);
            && ok && u.usedBytes == SizeSum(u.store) && |u.store| == |t.store|
            && Keys(u.store) == Touch(Keys(t.store), key)
            && u.hits == t.hits && u.misses == t.misses && u.evictions == t.evictions
  {
    hide Lookup, MovedToEnd, SizeSum, MakeRoom, Touch, Distinct;
    LookupIsMembership(t.store, key);
    LookupEntry(t.store, key);
    var moved := MovedToEnd(t.store, key, Lookup(t.store, key).value);
    MovedSize(t.store, key, Lookup(t.store, key).value);
    MovedKeys(t.store, key, moved);
    TouchLength(Keys(t.store), key);
    assert |Keys(moved)| == |moved|;
  }

  lemma StoreNew(t: Tier, capacity: nat, key: string, size: int)
    requires Valid(t, capacity) && capacity >= 1 && key !in Keys(t.store)
    ensures var (u, ok) := Stored(t, capacity, key, size);
            && ok && u.usedBytes == SizeSum(u.store)
            && Keys(u.store) == (if |t.store| < capacity then Keys(t.store) else Keys(t.store)[1..]) + [key]
            && u.hits == t.hits && u.misses == t.misses
            && u.evictions + |u.store| == t.evictions + |t.store| + 1
  {
    hide Lookup, SizeSum, MakeRoom, Keys, Distinct;
    LookupIsMembership(t.store, key);
    MakeRoomPops(t, capacity);
    if |t.store| >= capacity {
      PoppedSize(t.store);
    }
    AppendEntry(MakeRoom(t, capacity).0.store, Entry(key, size));
  }

  /** One LRU access of a key that is not in the list. */
  lemma NewAccess(ks: seq<string>, key: string, capacity: nat)
    requires key !in ks && 1 <= capacity && |ks| <= capacity
    ensures Access(ks, key, capacity) == (if |ks| < capacity then ks else ks[1..]) + [key]
  {
    hide Without;
    WithoutAbsent(ks, key);
    assert |ks| == capacity ==> (ks + [key])[1..] == ks[1..] + [key];
  }

  lemma AccessDistinct(ks: seq<string>, key: string, capacity: nat)
    requires Distinct(ks) && |ks| <= capacity
    ensures Distinct(Access(ks, key, capacity)) && (capacity >= 1 ==> |Access(ks, key, capacity)| <= capacity)
  {
    hide Touch;
    TouchDistinct(ks, key);
    TouchLength(ks, key);
  }

  /** Touching a resident key never overflows. */
  lemma ResidentAccess(t: Tier, capacity: nat, key: string)
    requires Valid(t, capacity) && key in Keys(t.store)
    ensures Access(Keys(t.store), key, capacity) == Touch(Keys(t.store), key)
  {
    TouchLength(Keys(t.store), key);
  }

  /** Storing is one LRU access of the key, keeps the byte count, and never raises for a positive capacity. */
  lemma StoreIsAccess(t: Tier, capacity: nat, key: string, size: int)
    requires Valid(t, capacity) && capacity >= 1
    ensures var (u, ok) := Stored(t, capacity, key, size);
            && ok && Valid(u, capacity)
            && Keys(u.store) == Access(Keys(t.store), key, capacity)
            && u.hits == t.hits && u.misses == t.misses
            && u.evictions + |u.store| == t.evictions + |t.store| + if key in Keys(t.store) then 0 else 1
  {
    hide Stored, Access, SizeSum, Distinct;
    AccessDistinct(Keys(t.store), key, capacity);
    if key in Keys(t.store) {
      StoreResident(t, capacity, key, size);
      ResidentAccess(t, capacity, key);
    } else {
      StoreNew(t, capacity, key, size);
      NewAccess(Keys(t.store), key, capacity);
    }
    assert |Keys(Stored(t, capacity, key, size).0.store)| == |Stored(t, capacity, key, size).0.store|;
  }

  /** A lookup touches a resident key, changes nothing else, and counts itself once. */
  lemma LookupIsTouch(t: Tier, capacity: nat, key: string, drawn: bool)
    requires Valid(t, capacity)
    ensures var (u, hit) := LookedUp(t, key, drawn);
            && Valid(u, capacity)
            && Keys(u.store) == (if key in Keys(t.store) then Touch(Keys(t.store), key) else Keys(t.store))
            && (hit <==> key in Keys(t.store) && drawn)
            && u.hits == t.hits + (if hit then 1 else 0) && u.misses == t.misses + (if hit then 0 else 1)
            && u.evictions == t.evictions && |u.store| == |t.store|
  {
    var ks := Keys(t.store);
    LookupIsMembership(t.store, key);
    TouchDistinct(ks, key);
    TouchLength(ks, key);
    if key in ks {
      LookupEntry(t.store, key);
      MovedSize(t.store, key, Lookup(t.store, key).value);
      MovedKeys(t.store, key, MovedToEnd(t.store, key, Lookup(t.store, key).value));
    }
  }

  lemma DropKeeps(t: Tier, capacity: nat, key: string)
    requires Valid(t, capacity)
    ensures var u := Dropped(t, key);
            && Valid(u, capacity)
            && Keys(u.store) == Without(Keys(t.store), key)
            && u.hits == t.hits && u.misses == t.misses && u.evictions == t.evictions
            && |u.store| == |t.store| - if key in Keys(t.store) then 1 else 0
  {
    var ks := Keys(t.store);
    LookupIsMembership(t.store, key);
    WithoutDistinct(ks, key);
    if key in ks {
      LookupEntry(t.store, key);
      RemovedSize(t.store, key, Lookup(t.store, key).value);
      RemovedKeys(t.store, key);
    } else {
      WithoutAbsent(ks, key);
    }
  }

  // ---------- whole runs ----------

  datatype Op = Store(key: string, size: int) | Look(key: string, drawn: bool) | Drop(key: string)

  function Apply(t: Tier, capacity: int, op: Op): Tier {
    match op
    case Store(k, n) => Stored(t, capacity, k, n).0
    case Look(k, drawn) => LookedUp(t, k, drawn).0
    case Drop(k) => Dropped(t, k)
  }

  function Run(capacity: int, ops: seq<Op>): Tier {
    if ops == [] then EMPTY_TIER else Apply(Run(capacity, ops[..|ops| - 1]), capacity, ops[|ops| - 1])
  }

  /** Stores of keys that were not resident, lookups made, and explicit evictions that found their key. */
  ghost function Inserts(capacity: int, ops: seq<Op>): nat {
    if ops == [] then 0
    else
      var front, op := ops[..|ops| - 1], ops[|ops| - 1];
      Inserts(capacity, front) + if op.Store? && op.key !in Keys(Run(capacity, front).store) then 1 else 0
  }

  ghost function Drops(capacity: int, ops: seq<Op>): nat {
    if ops == [] then 0
    else
      var front, op := ops[..|ops| - 1], ops[|ops| - 1];
      Drops(capacity, front) + if op.Drop? && op.key in Keys(Run(capacity, front).store) then 1 else 0
  }

  ghost function Looks(ops: seq<Op>): nat {
    if ops == [] then 0 else Looks(ops[..|ops| - 1]) + if ops[|ops| - 1].Look? then 1 else 0
  }

  /** Lookups that found their key and drew a hit. */
  ghost function HitLooks(capacity: int, ops: seq<Op>): nat {
    if ops == [] then 0
    else
      var front, op := ops[..|ops| - 1], ops[|ops| - 1];
      HitLooks(capacity, front) + if op.Look? && op.drawn && op.key in Keys(Run(capacity, front).store) then 1 else 0
  }

  /** The size in the store that last inserted this key; a store of a resident key inserts nothing. */
  ghost function GivenSize(capacity: int, ops: seq<Op>, key: string): int {
    if ops == [] then 0
    else
      var front, op := ops[..|ops| - 1], ops[|ops| - 1];
      if op.Store? && op.key == key && key !in Keys(Run(capacity, front).store) then op.size
      else GivenSize(capacity, front, key)
  }

  lemma {:induction false} MakeRoomEntries(t: Tier, capacity: int)
    ensures forall e :: e in MakeRoom(t, capacity).0.store ==> e in t.store
    decreases |t.store|
  {
    if |t.store| >= capacity && t.store != [] {
      MakeRoomEntries(PopOldest(t), capacity);
    }
  }

  lemma EntryKnown(store: seq<Entry<int>>, e: Entry<int>)
    requires e in store
    ensures e.key in Keys(store)
  {
    var i :| 0 <= i < |store| && store[i] == e;
    assert Keys(store)[i] == e.key;
  }

  /** An operation brings in no entry but the one it inserts. */
  lemma ApplyEntries(t: Tier, capacity: int, op: Op)
    ensures forall e :: e in Apply(t, capacity, op).store ==>
              e in t.store || (op.Store? && op.key !in Keys(t.store) && e == Entry(op.key, op.size))
  {
    hide MakeRoom, Lookup, Removed, Keys;
    LookupIsMembership(t.store, op.key);
    if Lookup(t.store, op.key).Some? {
      LookupEntry(t.store, op.key);
      RemovedEntries(t.store, op.key);
    }
    MakeRoomEntries(t, capacity);
  }

  /** Over every run and for any capacity, each resident entry has the size it was inserted with. */
  lemma {:induction false} SizesAreGiven(capacity: int, ops: seq<Op>)
    ensures forall e :: e in Run(capacity, ops).store ==> e.value == GivenSize(capacity, ops, e.key)
  {
    hide Apply, Keys;
    if ops != [] {
      var front, op := ops[..|ops| - 1], ops[|ops| - 1];
      SizesAreGiven(capacity, front);
      ApplyEntries(Run(capacity, front), capacity, op);
      forall e | e in Run(capacity, ops).store ensures e.value == GivenSize(capacity, ops, e.key) {
        if e in Run(capacity, front).store {
          EntryKnown(Run(capacity, front).store, e);
        }
      }
    }
  }

  lemma EmptyIsValid(capacity: nat)
    ensures Valid(EMPTY_TIER, capacity)
  {}

  /**
   Conservation over every run: bytes are the sum of resident sizes, every lookup is a
   hit or a miss, and every insertion is still resident, was pushed out, or was evicted
   by request.
   */
  lemma {:induction false} Conservation(capacity: nat, ops: seq<Op>)
    requires capacity >= 1
    ensures var t := Run(capacity, ops);
            && Valid(t, capacity)
            && t.hits == HitLooks(capacity, ops) && t.hits + t.misses == Looks(ops)
            && Inserts(capacity, ops) == |t.store| + t.evictions + Drops(capacity, ops)
  {
    hide Stored, LookedUp, Dropped, Valid, Keys;
    if ops == [] {
      EmptyIsValid(capacity);
    } else {
      var front, op := ops[..|ops| - 1], ops[|ops| - 1];
      Conservation(capacity, front);
      var t := Run(capacity, front);
      match op
      case Store(k, n) => StoreIsAccess(t, capacity, k, n);
      case Look(k, drawn) => LookupIsTouch(t, capacity, k, drawn);
      case Drop(k) => DropKeeps(t, capacity, k);
    }
  }

  /** The keys a run without explicit evictions touches: every store, and lookups of resident keys. */
  ghost function Touched(capacity: int, ops: seq<Op>): seq<string> {
    if ops == [] then []
    else
      var front, op := ops[..|ops| - 1], ops[|ops| - 1];
      Touched(capacity, front)
      + if op.Store? || (op.Look? && op.key in Keys(Run(capacity, front).store)) then [op.key] else []
  }

  lemma TouchedNext(capacity: int, ops: seq<Op>)
    requires ops != []
    ensures var front, op := ops[..|ops| - 1], ops[|ops| - 1];
            && Run(capacity, ops) == Apply(Run(capacity, front), capacity, op)
            && Touched(capacity, ops)
               == Touched(capacity, front)
                  + if op.Store? || (op.Look? && op.key in Keys(Run(capacity, front).store)) then [op.key] else []
  {
    hide Apply, Keys;
  }

  lemma RecentAccess(h: seq<string>, key: string, capacity: nat)
    ensures Access(Suffix(Recent(h), capacity), key, capacity) == Suffix(Recent(h + [key]), capacity)
  {
    hide Recent, Without, Access, Suffix, Distinct;
    RecentDistinct(h);
    AccessSuffix(Recent(h), key, capacity);
    RecentSnoc(h, key);
  }

  /** One operation of the tier, against the recency list of the keys touched so far. */
  lemma OneTouch(t: Tier, capacity: nat, op: Op, h: seq<string>)
    requires Valid(t, capacity) && capacity >= 1 && !op.Drop?
    requires Keys(t.store) == Suffix(Recent(h), capacity)
    ensures var touched := if op.Store? || (op.Look? && op.key in Keys(t.store)) then [op.key] else [];
            Keys(Apply(t, capacity, op).store) == Suffix(Recent(h + touched), capacity)
  {
    hide Stored, LookedUp, Dropped, Valid, Keys, Access, Suffix, Recent, Touch;
    RecentAccess(h, op.key, capacity);
    assert h + [] == h;
    if op.Store? {
      StoreIsAccess(t, capacity, op.key, op.size);
    } else {
      LookupIsTouch(t, capacity, op.key, op.drawn);
      if op.key in Keys(t.store) {
        ResidentAccess(t, capacity, op.key);
      }
    }
  }

  /** The tier is the same LRU: its keys are the last `capacity` distinct keys touched. */
  lemma {:induction false} TierIsRecent(capacity: nat, ops: seq<Op>)
    requires capacity >= 1 && forall i :: 0 <= i < |ops| ==> !ops[i].Drop?
    ensures Keys(Run(capacity, ops).store) == Suffix(Recent(Touched(capacity, ops)), capacity)
  {
    hide Valid, Apply, Looks, Inserts, Drops;
    if ops != [] {
      var front, op := ops[..|ops| - 1], ops[|ops| - 1];
      TierIsRecent(capacity, front);
      Conservation(capacity, front);
      TouchedNext(capacity, ops);
      OneTouch(Run(capacity, front), capacity, op, Touched(capacity, front));
    }
  }
}
