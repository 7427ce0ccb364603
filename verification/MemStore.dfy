/** sync_info_mem_store in place: the size, capacity and hash_table fields, and add and rehash
    calling each other. */
module MemStore {
  import opened CStrings
  import opened LinkedChain
  import opened ChainTable
  import opened KeyedBuckets
  import opened StoreModel

  /** hash_code: the djb2 hash is accumulated, with wrap-around, but what is returned is the index
      the loop ended at. */
  method HashCode(value: string) returns (code: nat)
    ensures code == |value|
  {
    var hash, i := 5381, 0;
    while i < |value|
      invariant 0 <= i <= |value|
    {
      hash := (hash * 33 + value[i] as int) % 0x1_0000_0000;
      i := i + 1;
    }
    return i;
  }

  class SyncInfoMemStore {
    var size: nat
    var capacity: nat
    var table: Table<DirInfo>

    ghost predicate Valid()
      reads this, table, table.Repr
      ensures Valid() ==> table.Valid() && this !in table.Repr && capacity > 0 && |table.Contents()| == capacity
    {
      && table.Valid() && this !in table.Repr && capacity == table.buckets.Length && GoodCapacity(capacity)
      && !Overloaded(size, capacity) && size == |Flatten(table.Contents())|
    }

    /** The table as a value. */
    ghost function View(): Store
      requires table.Valid()
      reads this, table, table.Repr
    {
      Store(size, table.Contents())
    }

    ghost function Repr(): set<object>
      reads this, table
    {
      {this} + table.Repr
    }

    /** hash_code(key) % capacity. */
    method Bucket(key: string) returns (pos: nat)
      requires capacity > 0
      ensures pos == Pos(key, capacity)
    {
      var code := HashCode(key);
      pos := code % capacity;
    }

    constructor ()
      ensures Valid() && View() == Empty(INITIAL_SIZE) && fresh(Repr())
    {
      size := 0;
      capacity := INITIAL_SIZE;
      table := new Table(INITIAL_SIZE);
      new;
      hide Table.Valid, Table.Contents, Flatten, PrimeSizes;
      EmptyFlatten<DirInfo>(INITIAL_SIZE);
      InitialIsGood();
    }

    /** sync_info_mem_store_find: a pointer to the entry, or null. */
    method Find(key: string) returns (node: Node?<DirInfo>)
      requires Valid()
      ensures Lookup(View(), key) == if node == null then None else Some(node.value)
    {
      var pos := Bucket(key);
      node := table.Find(pos, HasSource(key, capacity));
    }

    /** The manager's assignments through the pointer a find returned. */
    method Update(v: DirInfo)
      requires Valid()
      modifies Repr()
      ensures Valid() && View() == Updated(old(View()), v) && Repr() == old(Repr())
    {
      hide Table.Valid, Table.Contents, Flatten, PrimeSizes, GoodCapacity, Pos, FirstIndex;
      var pos := Bucket(v.source);
      ghost var was, i := table.Contents(), FirstIndex(table.Contents()[pos], HasSource(v.source, capacity));
      if i < |was[pos]| {
        ReplaceFlatten(was, pos, was[pos][i := v]);
      }
      table.SetFirst(pos, HasSource(v.source, capacity), v);
    }

    /** sync_info_mem_store_remove, with the size kept in step. */
    method Remove(key: string)
      requires Valid()
      modifies Repr()
      ensures Valid() && View() == Removed(old(View()), key)
    {
      hide Table.Valid, Table.Contents, Flatten, PrimeSizes, GoodCapacity, Pos, FirstIndex;
      var pos := Bucket(key);
      var node := table.Find(pos, HasSource(key, capacity));
      ghost var was, i := table.Contents(), FirstIndex(table.Contents()[pos], HasSource(key, capacity));
      ReplaceFlatten(was, pos, RemoveAt(was[pos], i));
      if node != null {
        table.RemoveFirstAt(pos, HasSource(key, capacity));
        size := size - 1;
      }
    }

    /** sync_info_mem_store_add. A rehash adds everything again, and those adds never start another. */
    method Add(v: DirInfo)
      requires Valid() && size < MAX_ENTRIES
      modifies Repr()
      ensures Valid() && CanAdd(old(View())) && View() == Added(old(View()), v)
      ensures fresh(Repr() - old(Repr()))
      ensures !Overloaded(old(size) + 1, old(capacity)) ==> table == old(table) && capacity == old(capacity)
      decreases if Overloaded(size + 1, capacity) then 2 else 0, 0
    {
      hide Table.Valid, Table.Contents, Flatten, PrimeSizes, GoodCapacity, Pos;
      var pos := Bucket(v.source);
      ghost var was := table.Contents();
      CanAddBelow(View());
      ReplaceFlatten(was, pos, InsertSecond(was[pos], v));
      table.Place(pos, v);
      size := size + 1;
      if Overloaded(size, capacity) {
        Rehash();
      }
    }

    /** sync_info_mem_store_rehash: a new array, the size back to zero, every old entry added again. */
    method Rehash()
      requires table.Valid() && this !in table.Repr && capacity == table.buckets.Length && GoodCapacity(capacity)
      requires size == |Flatten(table.Contents())| && 0 < size <= MAX_ENTRIES && !Overloaded(size - 1, capacity)
      requires capacity < LAST_PRIME
      modifies this, table.buckets
      ensures Valid() && View() == Rehashed(old(View()))
      ensures fresh(Repr() - {this})
      decreases 1, 2
    {
      hide Table.Valid, Table.Contents, Flatten, PrimeSizes, GoodCapacity, Pos, IsChain, Values, PlaceAll;
      var from := table;
      ghost var was, chains := table.Contents(), table.chains;
      ghost var n := size;
      RoomAfterRehash(size - 1, capacity);
      TableChains(table);
      var oldCapacity := capacity;
      capacity := NextCapacity(capacity);
      size := 0;
      table := new Table(capacity);
      EmptyFlatten<DirInfo>(capacity);
      MoveAll(from.buckets, chains, was, n);
    }

    /** The outer loop of a rehash. */
    method MoveAll(from: array<Node?<DirInfo>>, ghost chains: seq<seq<Node<DirInfo>>>, ghost was: seq<seq<DirInfo>>, ghost n: nat)
      requires Valid() && from !in Repr() && from.Length == |chains| == |was|
      requires forall k :: 0 <= k < |chains| ==> IsChain(from[k], chains[k]) && Values(chains[k]) == was[k]
      requires forall k, a :: 0 <= k < |chains| && 0 <= a < |chains[k]| ==> chains[k][a] !in Repr()
      requires size == 0 && |Flatten(was)| == n <= MAX_ENTRIES && !Overloaded(n, capacity)
      modifies Repr(), from
      ensures Valid() && View() == PlaceAll(old(View()), Flatten(was))
      ensures capacity == old(capacity) && fresh(Repr() - old(Repr()))
      decreases 1, 1
    {
      hide Table.Valid, Table.Contents, Flatten, PrimeSizes, GoodCapacity, Pos, IsChain, Values, PlaceAll;
      ghost var t := View();
      FlattenNothing<DirInfo>();
      PlaceAllNone(t);
      for i := 0 to from.Length
        invariant Valid() && capacity == old(capacity) && fresh(Repr() - old(Repr()))
        invariant View() == PlaceAll(t, Flatten(was[..i]))
        invariant forall k :: i <= k < |chains| ==> IsChain(from[k], chains[k]) && Values(chains[k]) == was[k]
      {
        FlattenMore(was, i);
        FlattenPrefix(was, i + 1);
        MoveChain(from, i, chains[i], n);
        PlaceAllAppend(t, Flatten(was[..i]), was[i]);
      }
      assert was[..from.Length] == was;
    }

    /** The inner loop of a rehash: until no node is left, the head's value is added and the head
        taken off. */
    method MoveChain(from: array<Node?<DirInfo>>, i: nat, ghost nodes: seq<Node<DirInfo>>, ghost n: nat)
      requires Valid() && i < from.Length && from !in Repr() && IsChain(from[i], nodes)
      requires forall k :: 0 <= k < |nodes| ==> nodes[k] !in Repr()
      requires size + |nodes| <= n <= MAX_ENTRIES && !Overloaded(n, capacity)
      modifies Repr(), from
      ensures Valid() && View() == PlaceAll(old(View()), old(Values(nodes)))
      ensures capacity == old(capacity) && fresh(Repr() - old(Repr()))
      ensures forall k :: 0 <= k < from.Length && k != i ==> from[k] == old(from[k])
      decreases 1, 0
    {
      hide Table.Valid, Table.Contents, Flatten, PrimeSizes, GoodCapacity, Pos, IsChain, Values, PlaceAll;
      ghost var rest, all := nodes, PlaceAll(View(), Values(nodes));
      while from[i] != null
        invariant Valid() && capacity == old(capacity) && fresh(Repr() - old(Repr()))
        invariant IsChain(from[i], rest) && size + |rest| <= n
        invariant forall k :: 0 <= k < |rest| ==> rest[k] in nodes
        invariant PlaceAll(View(), Values(rest)) == all
        invariant forall k :: 0 <= k < from.Length && k != i ==> from[k] == old(from[k])
        decreases |rest|
      {
        ChainTail(from[i], rest);
        PlaceAllFirst(View(), Values(rest));
        Add(from[i].value);
        from[i] := from[i].next;
        rest := rest[1..];
      }
      ChainNone(rest);
      PlaceAllNone(View());
    }
  }

  lemma PlaceAllNone(t: Store)
    ensures PlaceAll(t, []) == t
  {
  }

  lemma PlaceAllFirst(t: Store, es: seq<DirInfo>)
    requires es != []
    ensures PlaceAll(t, es) == PlaceAll(Place(t, es[0]), es[1..])
  {
    PlaceAllInFirst(BySource(|t.buckets|), t.buckets, es);
  }

  lemma PlaceAllAppend(t: Store, xs: seq<DirInfo>, ys: seq<DirInfo>)
    ensures PlaceAll(t, xs + ys) == PlaceAll(PlaceAll(t, xs), ys)
  {
    PlaceAllInAppend(BySource(|t.buckets|), t.buckets, xs, ys);
  }

  lemma InitialIsGood()
    ensures GoodCapacity(INITIAL_SIZE)
  {
    assert PrimeSizes()[2] == INITIAL_SIZE;
  }
}
