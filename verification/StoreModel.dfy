/** sync_info_mem_store as a value: what add, find, remove and rehash do to the buckets, and that
    the buckets stand for a plain map from source directory to directory information. */
module StoreModel {
  import opened CStrings
  import opened LinkedChain
  import opened KeyedBuckets

  datatype DirInfo = DirInfo(source: string, target: string, status: string, lastSync: string,
                             errors: int, isActive: bool, isInWorkers: bool)

  function PrimeSizes(): (s: seq<nat>)
    ensures |s| == 26 && s[25] == LAST_PRIME
  {
    [53, 97, 193, 389, 769, 1543, 3079, 6151, 12289, 24593, 49157, 98317, 196613, 393241, 786433, 1572869, 3145739,
     6291469, 12582917, 25165843, 50331653, 100663319, 201326611, 402653189, 805306457, 1610612741]
  }

  const LAST_PRIME: nat := 1610612741
  /** The largest value of an int, which is what a capacity is. */
  const INT_MAX: nat := 0x7fff_ffff
  const INITIAL_SIZE: nat := 193

  const SOURCE_OF: DirInfo -> string := (e: DirInfo) => e.source

  /** The bucket of a key: hash_code returns the length of the string. */
  function Pos(key: string, capacity: nat): (pos: nat)
    ensures capacity > 0 ==> pos < capacity
  {
    if capacity == 0 then 0 else |key| % capacity
  }

  function PosIn(capacity: nat): string -> nat {
    (key: string) => Pos(key, capacity)
  }

  /** The source directory is the key, as the header says. */
  function BySource(capacity: nat): Hashing<string, DirInfo> {
    Hashing(SOURCE_OF, PosIn(capacity))
  }

  function HasSource(key: string, capacity: nat): DirInfo -> bool {
    HasKeyTest(BySource(capacity), key)
  }

  // ----- the table as a value -----

  datatype Store = Store(size: nat, buckets: seq<seq<DirInfo>>)

  function Empty(capacity: nat): Store {
    Store(0, NoEntries(capacity))
  }

  function Lookup(t: Store, key: string): Option<DirInfo> {
    LookupIn(BySource(|t.buckets|), t.buckets, key)
  }

  function PlaceAll(t: Store, es: seq<DirInfo>): (r: Store)
    ensures |r.buckets| == |t.buckets| && r.size == t.size + |es|
  {
    Store(t.size + |es|, PlaceAllIn(BySource(|t.buckets|), t.buckets, es))
  }

  function Place(t: Store, v: DirInfo): (r: Store)
    ensures |r.buckets| == |t.buckets| && r.size == t.size + 1
  {
    Store(t.size + 1, PlaceIn(BySource(|t.buckets|), t.buckets, v))
  }

  /** size / (double) capacity > 0.9; the quotient of two ints is never rounded across 0.9. */
  predicate Overloaded(size: nat, capacity: nat) {
    10 * size > 9 * capacity
  }

  lemma LoadFactor(size: nat, capacity: nat)
    requires capacity > 0
    ensures Overloaded(size, capacity) <==> size as real / capacity as real > 0.9
  {
    var q := size as real / capacity as real;
    assert q * capacity as real == size as real;
    Scaled(q, 0.9, capacity as real);
  }

  lemma Scaled(a: real, b: real, c: real)
    requires c > 0.0
    ensures a > b <==> a * c > b * c
  {
    if a > b {
      assert (a - b) * c > 0.0;
    } else {
      assert (b - a) * c >= 0.0;
    }
  }

  /** The least listed prime above the capacity. Past the list the doubling that would be next does not
      fit the int a capacity is. */
  function NextCapacity(capacity: nat): (c: nat)
    requires capacity < LAST_PRIME
    ensures c in PrimeSizes() && c > capacity
  {
    NextPrime(capacity, 0)
  }

  function NextPrime(capacity: nat, i: nat): (c: nat)
    requires i <= 25 && capacity < LAST_PRIME
    ensures c in PrimeSizes() && c > capacity
    decreases 26 - i
  {
    if i == 25 || PrimeSizes()[i] > capacity then PrimeSizes()[i] else NextPrime(capacity, i + 1)
  }

  /** The capacities a table can have: it starts at 193 and only NextCapacity changes it. */
  predicate GoodCapacity(c: nat)
    ensures GoodCapacity(c) ==> c > 0
  {
    c in PrimeSizes()
  }

  /** How many entries the last listed prime has room for. */
  const MAX_ENTRIES: nat := 1449551466

  /** One more entry does not ask for a capacity past the list. */
  predicate CanAdd(t: Store) {
    Overloaded(t.size + 1, |t.buckets|) ==> |t.buckets| < LAST_PRIME
  }

  lemma CanAddBelow(t: Store)
    requires GoodCapacity(|t.buckets|) && t.size < MAX_ENTRIES
    ensures CanAdd(t)
  {
    hide PrimeSizes;
    var i :| 0 <= i < |PrimeSizes()| && PrimeSizes()[i] == |t.buckets|;
    PrimesSorted(i, 25);
  }

  /** What add does to the table: place, and when that overloads it, place everything afresh in a
      larger one. */
  function Added(t: Store, v: DirInfo): Store
    requires CanAdd(t)
  {
    var placed := Place(t, v);
    if Overloaded(placed.size, |t.buckets|) then Rehashed(placed) else placed
  }

  function Rehashed(t: Store): Store
    requires |t.buckets| < LAST_PRIME
  {
    PlaceAll(Empty(NextCapacity(|t.buckets|)), Flatten(t.buckets))
  }

  function Removed(t: Store, key: string): Store {
    var pos := Pos(key, |t.buckets|);
    if pos >= |t.buckets| then t
    else
      var i := FirstIndex(t.buckets[pos], HasSource(key, |t.buckets|));
      Store(if i < |t.buckets[pos]| && t.size > 0 then t.size - 1 else t.size,
            t.buckets[pos := RemoveAt(t.buckets[pos], i)])
  }

  /** The manager's updates: the entry a find returned is overwritten, its source kept. */
  function Updated(t: Store, v: DirInfo): Store {
    var pos := Pos(v.source, |t.buckets|);
    if pos >= |t.buckets| then t
    else
      var i := FirstIndex(t.buckets[pos], HasSource(v.source, |t.buckets|));
      if i < |t.buckets[pos]| then t.(buckets := t.buckets[pos := t.buckets[pos][i := v]]) else t
  }

  lemma PrimesGrow()
    ensures forall i :: 0 <= i < 25 ==> PrimeSizes()[i] + 2 <= PrimeSizes()[i + 1]
    ensures PrimeSizes()[0] == 53
  {
  }

  lemma {:induction false} PrimesSorted(i: nat, j: nat)
    requires i <= j < 26
    ensures PrimeSizes()[i] <= PrimeSizes()[j]
    decreases j - i
  {
    hide PrimeSizes;
    if i < j {
      PrimesGrow();
      PrimesSorted(i + 1, j);
    }
  }

  lemma {:induction false} NextPrimeSkips(c: nat, i: nat, j: nat)
    requires i <= j <= 25 && c < LAST_PRIME && forall k :: i <= k < j ==> PrimeSizes()[k] <= c
    ensures NextPrime(c, i) == NextPrime(c, j)
    decreases j - i
  {
    hide PrimeSizes;
    if i < j {
      NextPrimeSkips(c, i + 1, j);
    }
  }

  lemma NextPrimeFrom(i: nat)
    requires i < 25
    ensures PrimeSizes()[i] < LAST_PRIME && NextCapacity(PrimeSizes()[i]) == PrimeSizes()[i + 1]
  {
    hide PrimeSizes;
    forall k | 0 <= k < i + 1 ensures PrimeSizes()[k] <= PrimeSizes()[i] { PrimesSorted(k, i); }
    PrimesGrow();
    PrimesSorted(i + 1, 25);
    NextPrimeSkips(PrimeSizes()[i], 0, i + 1);
  }

  /** A rehash leaves room: the entries that overloaded the old table do not overload the new one. */
  lemma RoomAfterRehash(n: nat, c: nat)
    requires GoodCapacity(c) && c < LAST_PRIME && 10 * n <= 9 * c
    ensures GoodCapacity(NextCapacity(c)) && NextCapacity(c) >= c + 2
    ensures !Overloaded(n + 1, NextCapacity(c))
  {
    hide PrimeSizes;
    PrimesGrow();
    var i :| 0 <= i < |PrimeSizes()| && PrimeSizes()[i] == c;
    assert i < 25;
    NextPrimeFrom(i);
  }

  // ----- agreement with a plain map -----

  /** The table stands for m: same entries, the size is their number and the load is at most 0.9. */
  ghost predicate Refines(t: Store, m: map<string, DirInfo>) {
    && Represents(BySource(|t.buckets|), t.buckets, m) && t.size == |m|
    && GoodCapacity(|t.buckets|) && !Overloaded(t.size, |t.buckets|)
  }

  lemma LookupRefines(t: Store, m: map<string, DirInfo>, key: string)
    requires Refines(t, m)
    ensures Lookup(t, key) == if key in m then Some(m[key]) else None
  {
    LookupAgrees(BySource(|t.buckets|), t.buckets, m, key);
  }

  /** Adding an entry under a new key, rehash or not, adds it to the map and nothing else. */
  lemma AddRefines(t: Store, v: DirInfo, m: map<string, DirInfo>)
    requires Refines(t, m) && v.source !in m && |m| < MAX_ENTRIES
    ensures CanAdd(t) && Refines(Added(t, v), m[v.source := v])
  {
    hide Represents, PrimeSizes, Pos, Flatten, GoodCapacity;
    CanAddBelow(t);
    var n, placed, m' := |t.buckets|, Place(t, v), m[v.source := v];
    PlaceHolds(BySource(n), t.buckets, v, m);
    if Overloaded(placed.size, n) {
      RoomAfterRehash(t.size, n);
      MovedHolds(BySource(n), placed.buckets, m', BySource(NextCapacity(n)), NextCapacity(n));
    }
  }

  lemma RemoveRefines(t: Store, m: map<string, DirInfo>, key: string)
    requires Refines(t, m)
    ensures Refines(Removed(t, key), m - {key})
  {
    hide Represents, Pos, PrimeSizes, RemoveAt, FirstIndex;
    RemoveHolds(BySource(|t.buckets|), t.buckets, m, key);
    if key in m {
      assert m == (m - {key})[key := m[key]];
    } else {
      assert m - {key} == m;
    }
  }

  lemma UpdateRefines(t: Store, m: map<string, DirInfo>, v: DirInfo)
    requires Refines(t, m)
    ensures Refines(Updated(t, v), if v.source in m then m[v.source := v] else m)
  {
    hide Represents, Pos, PrimeSizes, FirstIndex;
    UpdateHolds(BySource(|t.buckets|), t.buckets, m, v);
    if v.source in m {
      assert m[v.source := v].Keys == m.Keys;
      assert |m[v.source := v]| == |m[v.source := v].Keys| == |m.Keys| == |m|;
    }
  }

  // ----- runs -----

  datatype Op = Add(value: DirInfo) | Remove(key: string) | Update(value: DirInfo) | Find(key: string)

  /** Every add is of a key that is not there at the time: what the table leaves to its users. And
      there are never more entries than its capacities, which are ints, have room for. */
  ghost predicate DistinctKeys(ops: seq<Op>, m: map<string, DirInfo>) {
    ops == [] ||
    (&& (ops[0].Add? ==> ops[0].value.source !in m && |m| < MAX_ENTRIES)
     && DistinctKeys(ops[1..], OnMap(ops[0], m)))
  }

  function OnMap(op: Op, m: map<string, DirInfo>): map<string, DirInfo> {
    match op
    case Add(v) => m[v.source := v]
    case Remove(key) => m - {key}
    case Update(v) => if v.source in m then m[v.source := v] else m
    case Find(_) => m
  }

  function OnStore(op: Op, t: Store): (r: Store)
    requires op.Add? ==> CanAdd(t)
  {
    match op
    case Add(v) => Added(t, v)
    case Remove(key) => Removed(t, key)
    case Update(v) => Updated(t, v)
    case Find(_) => t
  }

  /** No add of the run asks for a capacity past the list. */
  predicate CanRun(ops: seq<Op>, t: Store)
    decreases |ops|
  {
    ops == [] || ((ops[0].Add? ==> CanAdd(t)) && CanRun(ops[1..], OnStore(ops[0], t)))
  }

  /** The answers of the finds, in order. */
  function StoreAnswers(ops: seq<Op>, t: Store): seq<Option<DirInfo>>
    requires CanRun(ops, t)
  {
    if ops == [] then []
    else (if ops[0].Find? then [Lookup(t, ops[0].key)] else []) + StoreAnswers(ops[1..], OnStore(ops[0], t))
  }

  function MapAnswers(ops: seq<Op>, m: map<string, DirInfo>): seq<Option<DirInfo>> {
    if ops == [] then []
    else (if ops[0].Find? then [if ops[0].key in m then Some(m[ops[0].key]) else None] else [])
         + MapAnswers(ops[1..], OnMap(ops[0], m))
  }

  function AfterStore(ops: seq<Op>, t: Store): Store
    requires CanRun(ops, t)
  {
    if ops == [] then t else AfterStore(ops[1..], OnStore(ops[0], t))
  }

  function AfterMap(ops: seq<Op>, m: map<string, DirInfo>): map<string, DirInfo> {
    if ops == [] then m else AfterMap(ops[1..], OnMap(ops[0], m))
  }

  lemma StepRefines(op: Op, t: Store, m: map<string, DirInfo>)
    requires Refines(t, m) && (op.Add? ==> op.value.source !in m && |m| < MAX_ENTRIES)
    ensures (op.Add? ==> CanAdd(t)) && Refines(OnStore(op, t), OnMap(op, m))
  {
    hide Refines;
    match op
    case Add(v) => AddRefines(t, v, m);
    case Remove(key) => RemoveRefines(t, m, key);
    case Update(v) => UpdateRefines(t, m, v);
    case Find(_) =>
  }

  /** Any run with distinct keys answers as the plain map does and ends in a table for the same map,
      across any number of rehashes, with size the number of entries and the load at most 0.9. */
  lemma {:induction false} RunRefines(ops: seq<Op>, t: Store, m: map<string, DirInfo>)
    requires Refines(t, m) && DistinctKeys(ops, m)
    ensures CanRun(ops, t) && StoreAnswers(ops, t) == MapAnswers(ops, m)
    ensures Refines(AfterStore(ops, t), AfterMap(ops, m))
    decreases |ops|
  {
    hide OnStore, OnMap, Lookup;
    if ops != [] {
      StepRefines(ops[0], t, m);
      RunRefines(ops[1..], OnStore(ops[0], t), OnMap(ops[0], m));
      if ops[0].Find? {
        LookupRefines(t, m, ops[0].key);
      }
    }
  }

  lemma NewRefines()
    ensures Refines(Empty(INITIAL_SIZE), map[])
  {
    assert PrimeSizes()[2] == INITIAL_SIZE;
  }
}
