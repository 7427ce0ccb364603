/** Where hash_table.c and list_node.c depart from the map of HashTable, and exactly when they do
    not. */
module HashTableAsWritten {
  import opened CStrings
  import opened LinkedChain
  import opened KeyedBuckets
  import opened StoreModel
  import opened HashTable

  /** The % of C: the remainder has the sign of the dividend. */
  function SignedRemainder(key: int, capacity: nat): int
    requires capacity > 0
  {
    if key >= 0 then key % capacity else -((-key) % capacity)
  }

  /** hash_table_remove takes key % capacity without the conversion insert and find make. For a
      32-bit key it names the same bucket exactly when the key is not negative, or divides by a
      capacity that 2^32 divides by too. */
  lemma RemoveBucketExactly(key: int, capacity: nat)
    requires 0 < capacity < 0x8000_0000 && -0x8000_0000 <= key < 0x8000_0000
    ensures SignedRemainder(key, capacity) == UnsignedPos(key, capacity)
       <==> key >= 0 || ((-key) % capacity == 0 && 0x1_0000_0000 % capacity == 0)
  {
    if key < 0 {
      var x := key + 0x1_0000_0000;
      assert key % 0x1_0000_0000 == x;
      if (-key) % capacity == 0 {
        var q := (-key) / capacity;
        assert -key == q * capacity;
        if x % capacity == 0 {
          assert 0x1_0000_0000 == (x / capacity + q) * capacity;
          MultipleOf(x / capacity + q, capacity);
        }
        if 0x1_0000_0000 % capacity == 0 {
          assert x == (0x1_0000_0000 / capacity - q) * capacity;
          MultipleOf(0x1_0000_0000 / capacity - q, capacity);
        }
      }
    } else {
      assert key % 0x1_0000_0000 == key;
    }
  }

  lemma MultipleOf(k: int, c: nat)
    requires c > 0
    ensures (k * c) % c == 0
  {
    var d, r := (k * c) / c, (k * c) % c;
    assert (k - d) * c == r;
    if k - d >= 1 {
      AtLeast(k - d, c);
      assert false;
    }
    if d - k >= 1 {
      AtLeast(d - k, c);
      assert false;
    }
  }

  lemma AtLeast(n: int, c: nat)
    requires n >= 1
    ensures n * c >= c
  {
  }

  /** At the one capacity the manager ever uses: when the key is not negative. */
  lemma RemoveBucketInitially(key: int)
    requires -0x8000_0000 <= key < 0x8000_0000
    ensures SignedRemainder(key, INITIAL_CAPACITY) == UnsignedPos(key, INITIAL_CAPACITY) <==> key >= 0
  {
    RemoveBucketExactly(key, INITIAL_CAPACITY);
    assert 0x1_0000_0000 == 22253716 * 193 + 108;
  }

  /** The descriptor -1, which the manager inserts when a directory cannot be watched: insert puts it in
      bucket 107 and remove looks in front of the array. */
  lemma UnwatchedRemoved()
    ensures UnsignedPos(-1, INITIAL_CAPACITY) == 107 && SignedRemainder(-1, INITIAL_CAPACITY) == -1
  {
    assert 0x1_0000_0000 == 22253716 * 193 + 108;
  }

  /** list_node_remove on a chain of the watch map, whose keys are distinct: it works exactly when
      the key is not in the chain's last node. */
  lemma RemoveFromChainExactly(h: Hashing<int, Pair>, chain: seq<Pair>, key: int)
    requires h.key == KEY_OF && Distinct(h, chain)
    ensures RemoveAsWritten(chain, HasKeyTest(h, key)) == Chain(RemoveAll(chain, HasKeyTest(h, key)))
       <==> chain == [] || chain[|chain| - 1].key != key
  {
    var p := HasKeyTest(h, key);
    RemoveAsWrittenExactly(chain, p);
    assert forall i :: 0 <= i < |chain| ==> (p(chain[i]) <==> chain[i].key == key);
    if chain != [] && chain[|chain| - 1].key == key {
      assert p(chain[|chain| - 1]);
    }
  }

  /** The only pair of a bucket cannot be removed. */
  lemma OnlyPairRemoved(pair: Pair)
    ensures RemoveAsWritten([pair], HasKeyTest(ByKey(INITIAL_CAPACITY), pair.key)) == NullDereference
  {
  }

  /** hash_table_rehash on one chain: insert the head, then list_node_remove it. None means that a
      null pointer was followed. */
  function Drain(chain: seq<Pair>): Option<()>
    decreases |chain|
  {
    if chain == [] then Some(())
    else
      var r := RemoveAsWritten(chain, HasKeyTest(ByKey(1), chain[0].key));
      RemoveShortens(chain, HasKeyTest(ByKey(1), chain[0].key));
      if r.NullDereference? then None else Drain(r.values)
  }

  lemma {:induction false} RemoveShortens(s: seq<Pair>, p: Pair -> bool)
    ensures RemoveAsWritten(s, p).Chain? ==> |RemoveAsWritten(s, p).values| <= |s|
    ensures s != [] && p(s[0]) && RemoveAsWritten(s, p).Chain? ==> 0 < |RemoveAsWritten(s, p).values| < |s|
  {
    if s != [] {
      if !p(s[0]) {
        RemoveShortens(s[1..], p);
      } else if |s| > 1 {
        RemoveShortens(s[2..], p);
      }
    }
  }

  /** Its last node is always removed from under it: only an empty chain is drained. */
  lemma {:induction false} DrainExactly(chain: seq<Pair>)
    ensures Drain(chain).Some? <==> chain == []
    decreases |chain|
  {
    if chain != [] {
      var p := HasKeyTest(ByKey(1), chain[0].key);
      RemoveShortens(chain, p);
      var r := RemoveAsWritten(chain, p);
      if r.Chain? {
        DrainExactly(r.values);
      }
    }
  }

  /** So a rehash as it is written survives exactly when there is nothing to rehash. */
  lemma RehashExactly(buckets: seq<seq<Pair>>)
    ensures (forall i :: 0 <= i < |buckets| ==> Drain(buckets[i]).Some?) <==> Flatten(buckets) == []
  {
    hide Drain;
    forall i | 0 <= i < |buckets| ensures Drain(buckets[i]).Some? <==> buckets[i] == [] {
      DrainExactly(buckets[i]);
    }
    FlattenEmpty(buckets);
  }

  lemma {:induction false} FlattenEmpty(buckets: seq<seq<Pair>>)
    ensures (forall i :: 0 <= i < |buckets| ==> buckets[i] == []) <==> Flatten(buckets) == []
  {
    if buckets != [] {
      var rest := buckets[..|buckets| - 1];
      FlattenEmpty(rest);
      assert forall i :: 0 <= i < |rest| ==> rest[i] == buckets[i];
    }
  }
}
