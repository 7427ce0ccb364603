/** hash_table: from watch descriptors to source directories. */
module HashTable {
  import opened CStrings
  import opened LinkedChain
  import opened ChainTable
  import opened KeyedBuckets
  import opened StoreModel

  datatype Pair = Pair(key: int, value: string)

  const INITIAL_CAPACITY: nat := 193
  const KEY_OF: Pair -> int := (p: Pair) => p.key

  /** (uint)key % capacity, for a 32-bit key. */
  function UnsignedPos(key: int, capacity: nat): (pos: nat)
    ensures capacity > 0 ==> pos < capacity
  {
    if capacity == 0 then 0 else (key % 0x1_0000_0000) % capacity
  }

  function UnsignedPosIn(capacity: nat): int -> nat {
    (key: int) => UnsignedPos(key, capacity)
  }

  function ByKey(capacity: nat): Hashing<int, Pair> {
    Hashing(KEY_OF, UnsignedPosIn(capacity))
  }

  /** The least listed size above a. */
  ghost predicate IsNextCapacity(a: nat, c: nat)
    ensures IsNextCapacity(a, c) ==> c > a
  {
    c in PrimeSizes() && c > a && forall p :: p in PrimeSizes() && p > a ==> c <= p
  }

  /** What find_next_capacity comes to: a size of its list, a read past the end of the list, or an int
      overflow. */
  datatype Capacity = Listed(size: nat) | PastTheList | Overflow

  /** find_next_capacity. */
  method FindNextCapacity(a: nat) returns (c: Capacity)
    requires a <= INT_MAX
    ensures c.Listed? <==> a < LAST_PRIME
    ensures c.Listed? ==> IsNextCapacity(a, c.size)
    ensures c.PastTheList? <==> a == LAST_PRIME
    ensures c.Overflow? <==> a > LAST_PRIME
  {
    hide PrimeSizes;
    var i := 0;
    NoneAbove();
    while true
      invariant i <= 26 && (a > LAST_PRIME ==> i == 0)
      invariant forall k :: 0 <= k < i ==> PrimeSizes()[k] <= a
      decreases 26 - i
    {
      if i == |PrimeSizes()| {
        return PastTheList;
      }
      if PrimeSizes()[i] > a {
        LeastAbove(a, i);
        return Listed(PrimeSizes()[i]);
      }
      if a > LAST_PRIME {
        break;
      }
      i := i + 1;
    }
    return TwiceAndOne(a);
  }

  function TwiceAndOne(a: nat): Capacity {
    if 2 * a + 1 > INT_MAX then Overflow else Listed(2 * a + 1)
  }

  /** Where it fails it had to: from the last listed size on neither the list nor the formula has a
      larger int. */
  lemma NoCapacityFrom(a: nat)
    ensures a >= LAST_PRIME <==> TwiceAndOne(a) == Overflow && forall p :: p in PrimeSizes() ==> p <= a
  {
    hide PrimeSizes;
    forall p | p in PrimeSizes() ensures p <= LAST_PRIME {
      var k :| 0 <= k < |PrimeSizes()| && PrimeSizes()[k] == p;
      PrimesSorted(k, 25);
    }
    assert PrimeSizes()[25] in PrimeSizes();
  }

  lemma NoneAbove()
    ensures forall k :: 0 <= k < 26 ==> PrimeSizes()[k] <= LAST_PRIME
  {
    hide PrimeSizes;
    forall k | 0 <= k < 26 ensures PrimeSizes()[k] <= LAST_PRIME { PrimesSorted(k, 25); }
  }

  lemma LeastAbove(a: nat, i: nat)
    requires i < 26 && PrimeSizes()[i] > a && forall k :: 0 <= k < i ==> PrimeSizes()[k] <= a
    ensures forall p :: p in PrimeSizes() && p > a ==> PrimeSizes()[i] <= p
  {
    hide PrimeSizes;
    forall p | p in PrimeSizes() && p > a ensures PrimeSizes()[i] <= p {
      var k :| 0 <= k < |PrimeSizes()| && PrimeSizes()[k] == p;
      if k >= i { PrimesSorted(i, k); }
    }
  }

  function HasValue(value: string): Pair -> bool {
    (p: Pair) => p.value == value
  }

  class WatchMap {
    var size: nat
    var capacity: nat
    var table: Table<Pair>
    /** The bindings the table stands for. */
    ghost var Bindings: map<int, Pair>

    ghost predicate Valid()
      reads this, table, table.Repr
      ensures Valid() ==> table.Valid() && this !in table.Repr && |table.Contents()| == capacity > 0
    {
      && table.Valid() && this !in table.Repr && capacity == table.buckets.Length > 0
      && Represents(ByKey(capacity), table.Contents(), Bindings)
    }

    ghost function Repr(): set<object>
      reads this, table
    {
      {this} + table.Repr
    }

    constructor ()
      ensures Valid() && Bindings == map[] && fresh(Repr()) && capacity == INITIAL_CAPACITY
    {
      size := 0;
      capacity := INITIAL_CAPACITY;
      table := new Table(INITIAL_CAPACITY);
      Bindings := map[];
      new;
    }

    /** hash_table_find. */
    method Find(key: int) returns (node: Node?<Pair>)
      requires Valid()
      ensures node == null <==> key !in Bindings
      ensures node != null ==> node.value == Bindings[key]
    {
      hide Table.Valid, Table.Contents, Represents, UnsignedPos;
      var pos := UnsignedPos(key, capacity);
      node := table.Find(pos, HasKeyTest(ByKey(capacity), key));
      LookupAgrees(ByKey(capacity), table.Contents(), Bindings, key);
    }

    /** hash_table_insert: a key that is bound already keeps its binding. */
    method Insert(key: int, value: string)
      requires Valid()
      modifies Repr()
      ensures Valid() && capacity == old(capacity) && fresh(Repr() - old(Repr()))
      ensures Bindings == if key in old(Bindings) then old(Bindings) else old(Bindings)[key := Pair(key, value)]
    {
      hide Table.Valid, Table.Contents, Represents, UnsignedPos;
      var node := Find(key);
      if node == null {
        var pos := UnsignedPos(key, capacity);
        PlaceHolds(ByKey(capacity), table.Contents(), Pair(key, value), Bindings);
        table.Place(pos, Pair(key, value));
        Bindings := Bindings[key := Pair(key, value)];
      }
    }

    /** hash_table_remove, in the bucket insert uses. */
    method Remove(key: int)
      requires Valid()
      modifies Repr()
      ensures Valid() && capacity == old(capacity) && Bindings == old(Bindings) - {key}
    {
      hide Table.Valid, Table.Contents, Represents, UnsignedPos, RemoveAll, RemoveAt, FirstIndex;
      var pos := UnsignedPos(key, capacity);
      ghost var h, was := ByKey(capacity), table.Contents();
      RemoveHolds(h, was, Bindings, key);
      BucketEntries(h, was, Bindings, pos);
      OneMatch(h, was[pos], key);
      table.RemoveEveryAt(pos, HasKeyTest(ByKey(capacity), key));
      Bindings := Bindings - {key};
    }

    /** hash_table_find_key: a walk over every chain of every bucket. */
    method FindKey(value: string) returns (key: int)
      requires Valid()
      ensures (key in Bindings && Bindings[key].value == value)
           || (key == -1 && forall k :: k in Bindings ==> Bindings[k].value != value)
    {
      hide UnsignedPos, Values, Represents, Table.Contents, IsChain;
      for i := 0 to capacity
        invariant forall j, a :: 0 <= j < i && 0 <= a < |table.Contents()[j]| ==> table.Contents()[j][a].value != value
      {
        var node := FindNode(table.buckets[i], HasValue(value), table.chains[i]);
        ghost var s := table.Contents()[i];
        assert s == Values(table.chains[i]);
        if node != null {
          Bound(i, FirstIndex(s, HasValue(value)));
          return node.value.key;
        }
        assert forall a :: 0 <= a < |s| ==> !HasValue(value)(s[a]);
      }
      forall k | k in Bindings ensures Bindings[k].value != value {
        NotThere(k, value);
      }
      return -1;
    }

    lemma Bound(i: nat, a: nat)
      requires Valid() && i < capacity && a < |table.Contents()[i]|
      ensures var p := table.Contents()[i][a]; p.key in Bindings && Bindings[p.key] == p
    {
      assert EntryOf(ByKey(capacity), table.Contents(), i, a, Bindings);
    }

    lemma NotThere(k: int, value: string)
      requires Valid() && k in Bindings
      requires forall j, a :: 0 <= j < capacity && 0 <= a < |table.Contents()[j]| ==> table.Contents()[j][a].value != value
      ensures Bindings[k].value != value
    {
      hide UnsignedPos;
      var j := UnsignedPos(k, capacity);
      var s := table.Contents()[j];
      var a :| 0 <= a < |s| && s[a].key == k;
      Bound(j, a);
    }

    /** hash_table_rehash: a new array of the next capacity, and every old entry inserted again. */
    method Rehash()
      requires Valid() && capacity < LAST_PRIME
      modifies this
      ensures Valid() && Bindings == old(Bindings) && fresh(Repr() - {this})
      ensures IsNextCapacity(old(capacity), capacity)
    {
      hide Table.Valid, Table.Contents, Represents, UnsignedPos, Flatten, IsChain, Values, ListMap, IsNextCapacity;
      var from := table.buckets;
      ghost var h, was, chains := ByKey(capacity), table.Contents(), table.chains;
      TableChains(table);
      FlattenHolds(h, was, Bindings);
      var next := FindNextCapacity(capacity);
      capacity := next.size;
      table := new Table(capacity);
      Bindings := map[];
      NothingHeld(capacity);
      InsertAll(from, chains, was, h);
    }

    /** The outer loop of a rehash. */
    method InsertAll(from: array<Node?<Pair>>, ghost chains: seq<seq<Node<Pair>>>, ghost was: seq<seq<Pair>>,
                     ghost h: Hashing<int, Pair>)
      requires Valid() && Bindings == map[] && from.Length == |chains| == |was| && from !in Repr()
      requires forall k :: 0 <= k < |chains| ==> IsChain(from[k], chains[k]) && Values(chains[k]) == was[k]
      requires forall k, a :: 0 <= k < |chains| && 0 <= a < |chains[k]| ==> chains[k][a] !in Repr()
      requires Distinct(h, Flatten(was)) && h.key == KEY_OF
      modifies Repr()
      ensures Valid() && capacity == old(capacity) && fresh(Repr() - old(Repr()))
      ensures Bindings == ListMap(h, Flatten(was))
    {
      hide Table.Valid, Table.Contents, Represents, UnsignedPos, Flatten, IsChain, Values, ListMap, Distinct;
      FlattenNothing<Pair>();
      ListMapNothing(h);
      for i := 0 to from.Length
        invariant Valid() && capacity == old(capacity) && fresh(Repr() - old(Repr()))
        invariant Bindings == ListMap(h, Flatten(was[..i]))
        invariant forall k :: i <= k < |chains| ==> IsChain(from[k], chains[k]) && Values(chains[k]) == was[k]
      {
        FlattenMore(was, i);
        FlattenDistinctPrefix(h, was, i + 1);
        InsertChain(from[i], chains[i], h, Flatten(was[..i]));
      }
      assert was[..from.Length] == was;
    }

    /** The inner loop: the head is inserted and then taken off. */
    method InsertChain(head: Node?<Pair>, ghost nodes: seq<Node<Pair>>, ghost h: Hashing<int, Pair>, ghost done: seq<Pair>)
      requires Valid() && IsChain(head, nodes) && h.key == KEY_OF
      requires forall k :: 0 <= k < |nodes| ==> nodes[k] !in Repr()
      requires Distinct(h, done + Values(nodes)) && Bindings == ListMap(h, done)
      modifies Repr()
      ensures Valid() && capacity == old(capacity) && fresh(Repr() - old(Repr()))
      ensures Bindings == ListMap(h, done + old(Values(nodes)))
    {
      hide Table.Valid, Table.Contents, Represents, UnsignedPos, IsChain, Values, Distinct, ListMap;
      var node := head;
      ghost var rest, sofar, all := nodes, done, done + Values(nodes);
      while node != null
        invariant Valid() && capacity == old(capacity) && fresh(Repr() - old(Repr()))
        invariant IsChain(node, rest) && sofar + Values(rest) == all && Bindings == ListMap(h, sofar)
        invariant forall k :: 0 <= k < |rest| ==> rest[k] in nodes
        decreases |rest|
      {
        ChainTail(node, rest);
        NextKeyIsNew(h, sofar, Values(rest));
        Insert(node.value.key, node.value.value);
        sofar := sofar + [Values(rest)[0]];
        node := node.next;
        rest := rest[1..];
      }
      ChainNone(rest);
      assert sofar == all;
    }
  }

  lemma ListMapNothing(h: Hashing<int, Pair>)
    ensures ListMap(h, []) == map[]
  {
  }

  lemma NothingHeld(capacity: nat)
    requires capacity > 0
    ensures Represents(ByKey(capacity), NoEntries(capacity), map[])
  {
  }

  lemma FlattenDistinctPrefix(h: Hashing<int, Pair>, buckets: seq<seq<Pair>>, i: nat)
    requires i <= |buckets| && Distinct(h, Flatten(buckets))
    ensures Distinct(h, Flatten(buckets[..i]))
    decreases |buckets| - i
  {
    if i < |buckets| {
      FlattenDistinctPrefix(h, buckets, i + 1);
      FlattenMore(buckets, i);
      var f, g := Flatten(buckets[..i]), Flatten(buckets[..i + 1]);
      assert forall a :: 0 <= a < |f| ==> g[a] == f[a];
    } else {
      assert buckets[..i] == buckets;
    }
  }

  lemma NextKeyIsNew(h: Hashing<int, Pair>, done: seq<Pair>, rest: seq<Pair>)
    requires Distinct(h, done + rest) && rest != [] && h.key == KEY_OF
    ensures rest[0].key !in ListMap(h, done)
    ensures ListMap(h, done + [rest[0]]) == ListMap(h, done)[rest[0].key := rest[0]]
    ensures done + [rest[0]] + rest[1..] == done + rest
  {
    ListMapKeys(h, done);
    var all := done + rest;
    assert all[|done|] == rest[0] && forall a :: 0 <= a < |done| ==> all[a] == done[a];
    assert (done + [rest[0]])[..|done|] == done;
  }

  /** Where keys are distinct, removing every match is removing the first one. */
  lemma {:induction false} OneMatch(h: Hashing<int, Pair>, s: seq<Pair>, key: int)
    requires Distinct(h, s)
    ensures RemoveAll(s, HasKeyTest(h, key)) == RemoveAt(s, FirstIndex(s, HasKeyTest(h, key)))
  {
    var p := HasKeyTest(h, key);
    if s != [] {
      assert Distinct(h, s[1..]) by {
        assert forall a :: 0 <= a < |s| - 1 ==> s[1..][a] == s[a + 1];
      }
      OneMatch(h, s[1..], key);
      if p(s[0]) {
        assert forall a :: 0 <= a < |s[1..]| ==> !p(s[1..][a]) by {
          assert forall a :: 0 <= a < |s| - 1 ==> s[1..][a] == s[a + 1] && h.key(s[0]) != h.key(s[a + 1]);
        }
        FirstIndexIs(s[1..], p, |s[1..]|);
        FirstIndexIs(s, p, 0);
        PastTheEnd(s[1..]);
      } else {
        var i := FirstIndex(s[1..], p);
        assert RemoveAt(s, i + 1) == [s[0]] + RemoveAt(s[1..], i);
      }
    }
  }
}
