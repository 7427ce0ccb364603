/** Where sync_info_mem_store.c departs from the table of StoreModel, and exactly when it does not. */
module StoreAsWritten {
  import opened CStrings
  import opened LinkedChain
  import opened KeyedBuckets
  import opened StoreModel

  /** add hashes the target directory; find hashes the source directory. */
  function Place(t: Store, v: DirInfo): (r: Store)
    requires |t.buckets| > 0
    ensures |r.buckets| == |t.buckets| && r.size == t.size + 1
  {
    var pos := Pos(v.target, |t.buckets|);
    Store(t.size + 1, t.buckets[pos := InsertSecond(t.buckets[pos], v)])
  }

  lemma FindAfterPlace(t: Store, v: DirInfo)
    requires |t.buckets| > 0 && Lookup(t, v.source) == None
    ensures Lookup(Place(t, v), v.source) == Some(v) <==> |v.source| % |t.buckets| == |v.target| % |t.buckets|
  {
    var n := |t.buckets|;
    var s := t.buckets[Pos(v.source, n)];
    if Pos(v.source, n) == Pos(v.target, n) {
      var r, i := InsertSecond(s, v), if s == [] then 0 else 1;
      InsertedAt(s, v);
      FirstIndexIs(r, HasSource(v.source, n), i);
    } else {
      assert Place(t, v).buckets[Pos(v.source, n)] == s;
    }
  }

  // ----- the next capacity -----

  /** The loop that picks a new capacity: it ends at the last prime not above the old one, or doubles
      past the list. None is an int overflow. */
  method NextCapacity(capacity: nat) returns (c: Option<nat>)
    ensures c == Next(capacity)
  {
    hide PrimeSizes;
    var i := 0;
    c := Some(capacity);
    while capacity >= PrimeSizes()[i]
      invariant i <= 25 && c.Some?
      invariant Next(capacity) == NextFrom(capacity, i, c.value)
      decreases 26 - i
    {
      if PrimeSizes()[i] == LAST_PRIME {
        c := Doubled(capacity);
        NextAtLast(capacity, i);
        break;
      }
      c := Some(PrimeSizes()[i]);
      NotLast(i);
      i := i + 1;
    }
  }

  function Doubled(capacity: nat): Option<nat> {
    if 2 * capacity > INT_MAX then None else Some(2 * capacity)
  }

  function Next(capacity: nat): Option<nat> { NextFrom(capacity, 0, capacity) }

  function NextFrom(capacity: nat, i: nat, c: nat): Option<nat>
    requires i <= 25
    decreases 25 - i
  {
    if capacity < PrimeSizes()[i] then Some(c)
    else if i == 25 then Doubled(capacity)
    else NextFrom(capacity, i + 1, PrimeSizes()[i])
  }

  lemma NotLast(i: nat)
    requires i <= 25
    ensures PrimeSizes()[i] == LAST_PRIME <==> i == 25
  {
    hide PrimeSizes;
    PrimesGrow();
    if i < 25 {
      PrimesSorted(i + 1, 25);
    }
  }

  lemma NextAtLast(capacity: nat, i: nat)
    requires i <= 25 && PrimeSizes()[i] == LAST_PRIME <= capacity
    ensures forall c: nat :: NextFrom(capacity, i, c) == Doubled(capacity)
  {
    hide PrimeSizes;
    NotLast(i);
  }

  lemma {:induction false} NextFromBounded(capacity: nat, i: nat, c: nat)
    requires i <= 25 && 0 < c <= capacity
    ensures NextFrom(capacity, i, c) == None <==> capacity >= LAST_PRIME
    ensures NextFrom(capacity, i, c).Some? ==> 0 < NextFrom(capacity, i, c).value <= capacity
    decreases 25 - i
  {
    hide PrimeSizes;
    PrimesSorted(i, 25);
    PrimesGrow();
    PrimesSorted(0, i);
    if capacity >= PrimeSizes()[i] && i < 25 {
      NextFromBounded(capacity, i + 1, PrimeSizes()[i]);
    }
  }

  /** No capacity grows: from the last listed prime on the doubling overflows, and below it what is
      chosen is at most the old capacity. */
  lemma NextNeverGrows(capacity: nat)
    requires capacity > 0
    ensures Next(capacity) == None <==> capacity >= LAST_PRIME
    ensures Next(capacity).Some? ==> 0 < Next(capacity).value <= capacity
  {
    NextFromBounded(capacity, 0, capacity);
  }

  // ----- add and rehash calling each other, for at most `depth` nested rehashes -----

  datatype Outcome = Ended(table: Store) | Deeper | Overflow

  function Add(depth: nat, t: Store, v: DirInfo): (r: Outcome)
    requires |t.buckets| > 0
    ensures r.Ended? ==> |r.table.buckets| > 0
    decreases depth, 1, 0
  {
    var placed := Place(t, v);
    if Overloaded(placed.size, |t.buckets|) then Rehash(depth, placed) else Ended(placed)
  }

  function Rehash(depth: nat, t: Store): (r: Outcome)
    requires |t.buckets| > 0
    ensures r.Ended? ==> |r.table.buckets| > 0
    decreases depth, 0, 0
  {
    if depth == 0 then Deeper
    else
      NextNeverGrows(|t.buckets|);
      var c := Next(|t.buckets|);
      if c.None? then Overflow else AddAll(depth - 1, Empty(c.value), Flatten(t.buckets))
  }

  function AddAll(depth: nat, t: Store, es: seq<DirInfo>): (r: Outcome)
    requires |t.buckets| > 0
    ensures r.Ended? ==> |r.table.buckets| > 0
    decreases depth, 2, |es|
  {
    if es == [] then Ended(t)
    else
      var added := Add(depth, t, es[0]);
      if added.Ended? then AddAll(depth, added.table, es[1..]) else added
  }

  /** The size is the number of entries. */
  ghost predicate Counted(t: Store) {
    |t.buckets| > 0 && t.size == |Flatten(t.buckets)|
  }

  lemma PlaceCounted(t: Store, v: DirInfo)
    requires Counted(t)
    ensures Counted(Place(t, v))
  {
    hide Flatten, Pos;
    ReplaceFlatten(t.buckets, Pos(v.target, |t.buckets|), InsertSecond(t.buckets[Pos(v.target, |t.buckets|)], v));
  }

  /** Below the last prime the new table is no larger, so adding the entries again overloads it
      again: no depth of nesting is enough. From it on the first rehash overflows. */
  lemma {:induction false} RehashFails(depth: nat, t: Store)
    requires Counted(t) && Overloaded(t.size, |t.buckets|)
    ensures Rehash(depth, t) == if depth > 0 && |t.buckets| >= LAST_PRIME then Overflow else Deeper
    decreases depth, 0, 0
  {
    if depth > 0 {
      hide Next, Flatten;
      NextNeverGrows(|t.buckets|);
      if |t.buckets| < LAST_PRIME {
        var c := Next(|t.buckets|).value;
        EmptyFlatten<DirInfo>(c);
        AddAllFails(depth - 1, Empty(c), Flatten(t.buckets));
      }
    }
  }

  lemma {:induction false} AddAllFails(depth: nat, t: Store, es: seq<DirInfo>)
    requires Counted(t) && |t.buckets| < LAST_PRIME && !Overloaded(t.size, |t.buckets|)
    requires Overloaded(t.size + |es|, |t.buckets|)
    ensures AddAll(depth, t, es) == Deeper
    decreases depth, 2, |es|
  {
    hide Flatten;
    var placed := Place(t, es[0]);
    PlaceCounted(t, es[0]);
    if Overloaded(placed.size, |t.buckets|) {
      RehashFails(depth, placed);
    } else {
      AddAllFails(depth, placed, es[1..]);
    }
  }

  /** An add comes to an end exactly when it does not overload the table. */
  lemma AddEndsExactly(t: Store, v: DirInfo)
    requires Counted(t)
    ensures (exists depth: nat :: Add(depth, t, v).Ended?) <==> !Overloaded(t.size + 1, |t.buckets|)
  {
    hide Flatten, Rehash;
    if Overloaded(t.size + 1, |t.buckets|) {
      PlaceCounted(t, v);
      forall depth: nat ensures !Add(depth, t, v).Ended? { RehashFails(depth, Place(t, v)); }
    } else {
      assert Add(0, t, v).Ended?;
    }
  }

  /** An entry added under a new source is there afterwards exactly when the add ends and the two
      names' lengths agree modulo the capacity. */
  lemma FindAfterAddExactly(t: Store, v: DirInfo)
    requires Counted(t) && Lookup(t, v.source) == None
    ensures (exists depth: nat :: Add(depth, t, v).Ended? && Lookup(Add(depth, t, v).table, v.source) == Some(v))
       <==> !Overloaded(t.size + 1, |t.buckets|) && |v.source| % |t.buckets| == |v.target| % |t.buckets|
  {
    hide Flatten, Rehash, Lookup, Place;
    AddEndsExactly(t, v);
    if !Overloaded(t.size + 1, |t.buckets|) {
      FindAfterPlace(t, v);
      assert forall depth: nat :: Add(depth, t, v) == Ended(Place(t, v));
      assert Add(0, t, v).Ended?;
    }
  }

  /** In a table of the initial size, with names that fit their 128 bytes: when they are equally long
      and there were fewer than 173 entries. */
  lemma FindAfterAddInitially(t: Store, v: DirInfo)
    requires Counted(t) && |t.buckets| == INITIAL_SIZE && Lookup(t, v.source) == None && |v.source| < 128 && |v.target| < 128
    ensures (exists depth: nat :: Add(depth, t, v).Ended? && Lookup(Add(depth, t, v).table, v.source) == Some(v))
       <==> t.size < 173 && |v.source| == |v.target|
  {
    hide Flatten, Rehash, Lookup, Place, Add;
    FindAfterAddExactly(t, v);
  }

  /** A pair from an empty store that is lost: /a synchronised to /bb. */
  lemma LostPair()
    ensures var v := DirInfo("/a", "/bb", "", "", 0, true, true);
            var r := Add(0, Empty(INITIAL_SIZE), v);
            r.Ended? && Lookup(r.table, "/a") == None
  {
    var v := DirInfo("/a", "/bb", "", "", 0, true, true);
    assert Empty(INITIAL_SIZE).buckets[Pos("/a", INITIAL_SIZE)] == [];
    assert |"/a"| == 2 && |"/bb"| == 3;
    assert Pos("/a", INITIAL_SIZE) != Pos("/bb", INITIAL_SIZE);
  }

  /** A table of the initial size with n entries, all under the source /a. */
  function Loaded(n: nat): Store {
    Store(n, NoEntries<DirInfo>(INITIAL_SIZE)[2 := seq(n, _ => DirInfo("/a", "/b", "", "", 0, true, true))])
  }

  lemma LoadedCounted(n: nat)
    ensures Counted(Loaded(n)) && |Loaded(n).buckets| == INITIAL_SIZE && Loaded(n).size == n
  {
    hide Flatten;
    EmptyFlatten<DirInfo>(INITIAL_SIZE);
    ReplaceFlatten(NoEntries<DirInfo>(INITIAL_SIZE), 2, Loaded(n).buckets[2]);
  }

  /** And one that is lost although its names are equally long: the 174th entry makes add and rehash
      call each other without end. */
  lemma LostInRehash(depth: nat)
    ensures Add(depth, Loaded(173), DirInfo("/c", "/d", "", "", 0, true, true)) == Deeper
  {
    hide Flatten, Rehash, Place, Loaded;
    var v := DirInfo("/c", "/d", "", "", 0, true, true);
    LoadedCounted(173);
    PlaceCounted(Loaded(173), v);
    RehashFails(depth, Place(Loaded(173), v));
  }

  // ----- remove -----

  /** remove leaves the size alone. */
  function Removed(t: Store, key: string): (r: Store)
    requires |t.buckets| > 0
    ensures |r.buckets| == |t.buckets|
  {
    var pos := Pos(key, |t.buckets|);
    t.(buckets := t.buckets[pos := RemoveAt(t.buckets[pos], FirstIndex(t.buckets[pos], HasSource(key, |t.buckets|)))])
  }

  /** So the size is still the number of entries exactly when there was nothing to remove. */
  lemma RemoveCountedExactly(t: Store, key: string)
    requires Counted(t)
    ensures Counted(Removed(t, key)) <==> Lookup(t, key) == None
  {
    hide Flatten;
    var pos := Pos(key, |t.buckets|);
    var s := t.buckets[pos];
    ReplaceFlatten(t.buckets, pos, RemoveAt(s, FirstIndex(s, HasSource(key, |t.buckets|))));
  }

  /** One entry is added and removed: the size says one, the table is empty. */
  lemma MiscountedRemoval()
    ensures var r := Removed(Loaded(1), "/a"); r.size == 1 && Flatten(r.buckets) == []
  {
    hide Flatten;
    EmptyFlatten<DirInfo>(INITIAL_SIZE);
    var s := Loaded(1).buckets[2];
    FirstIndexIs(s, HasSource("/a", INITIAL_SIZE), 0);
    assert RemoveAt(s, 0) == [];
    assert Removed(Loaded(1), "/a").buckets == NoEntries<DirInfo>(INITIAL_SIZE);
  }
}
