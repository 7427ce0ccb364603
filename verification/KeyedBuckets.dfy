/** Buckets of keyed values, and when they stand for a plain map. What a key is and which bucket it
    belongs to are parameters: the two tables of the manager differ in nothing else. */
module KeyedBuckets {
  import opened CStrings
  import opened LinkedChain

  datatype Hashing<!K, !V> = Hashing(key: V -> K, pos: K -> nat)

  /** The test a chain is searched with. */
  function HasKeyTest<K(==), V>(h: Hashing<K, V>, key: K): V -> bool {
    (v: V) => h.key(v) == key
  }

  /** The buckets hold exactly the entries of m, each once and in the bucket of its own key. */
  ghost predicate Represents<K, V>(h: Hashing<K, V>, buckets: seq<seq<V>>, m: map<K, V>) {
    && (forall i, a :: 0 <= i < |buckets| && 0 <= a < |buckets[i]| ==> EntryOf(h, buckets, i, a, m))
    && (forall key :: key in m ==> h.pos(key) < |buckets| && HasKey(h, buckets[h.pos(key)], key))
    && (forall i :: 0 <= i < |buckets| ==> Distinct(h, buckets[i]))
  }

  ghost predicate EntryOf<K, V>(h: Hashing<K, V>, buckets: seq<seq<V>>, i: nat, a: nat, m: map<K, V>)
    requires i < |buckets| && a < |buckets[i]|
  {
    var e := buckets[i][a];
    h.key(e) in m && m[h.key(e)] == e && h.pos(h.key(e)) == i
  }

  ghost predicate HasKey<K, V>(h: Hashing<K, V>, s: seq<V>, key: K) {
    exists a :: 0 <= a < |s| && h.key(s[a]) == key
  }

  ghost predicate Distinct<K, V>(h: Hashing<K, V>, s: seq<V>) {
    forall a, b :: 0 <= a < b < |s| ==> h.key(s[a]) != h.key(s[b])
  }

  function LookupIn<K(==), V>(h: Hashing<K, V>, buckets: seq<seq<V>>, key: K): Option<V> {
    if h.pos(key) >= |buckets| then None
    else
      var s := buckets[h.pos(key)];
      var i := FirstIndex(s, HasKeyTest(h, key));
      if i < |s| then Some(s[i]) else None
  }

  /** A lookup answers what the map answers. */
  lemma LookupAgrees<K, V>(h: Hashing<K, V>, buckets: seq<seq<V>>, m: map<K, V>, key: K)
    requires Represents(h, buckets, m)
    ensures LookupIn(h, buckets, key) == if key in m then Some(m[key]) else None
  {
    if h.pos(key) < |buckets| {
      var s := buckets[h.pos(key)];
      var i := FirstIndex(s, HasKeyTest(h, key));
      assert forall a :: 0 <= a < |s| ==> (HasKeyTest(h, key)(s[a]) <==> h.key(s[a]) == key);
      if i < |s| {
        assert EntryOf(h, buckets, h.pos(key), i, m);
      }
    }
  }

  // ----- one bucket changes -----

  /** One bucket replaced by one that fits the new map; keys of other buckets are not concerned. */
  lemma BucketReplaced<K, V>(h: Hashing<K, V>, buckets: seq<seq<V>>, m: map<K, V>, m': map<K, V>, pos: nat, now: seq<V>)
    requires Represents(h, buckets, m) && pos < |buckets|
    requires forall key :: key in m && h.pos(key) != pos ==> key in m' && m[key] == m'[key]
    requires forall key :: key in m' && h.pos(key) != pos ==> key in m
    requires forall a :: 0 <= a < |now| ==> h.key(now[a]) in m' && m'[h.key(now[a])] == now[a] && h.pos(h.key(now[a])) == pos
    requires forall key :: key in m' && h.pos(key) == pos ==> HasKey(h, now, key)
    requires Distinct(h, now)
    ensures Represents(h, buckets[pos := now], m')
  {
    var after := buckets[pos := now];
    forall i, a | 0 <= i < |after| && 0 <= a < |after[i]| ensures EntryOf(h, after, i, a, m') {
      if i != pos {
        assert EntryOf(h, buckets, i, a, m);
      }
    }
  }

  lemma BucketEntries<K, V>(h: Hashing<K, V>, buckets: seq<seq<V>>, m: map<K, V>, pos: nat)
    requires Represents(h, buckets, m) && pos < |buckets|
    ensures Distinct(h, buckets[pos])
    ensures forall a :: 0 <= a < |buckets[pos]| ==>
              var e := buckets[pos][a]; h.key(e) in m && m[h.key(e)] == e && h.pos(h.key(e)) == pos
    ensures forall key :: key in m && h.pos(key) == pos ==> HasKey(h, buckets[pos], key)
  {
    forall a | 0 <= a < |buckets[pos]|
      ensures var e := buckets[pos][a]; h.key(e) in m && m[h.key(e)] == e && h.pos(h.key(e)) == pos
    {
      assert EntryOf(h, buckets, pos, a, m);
    }
  }

  lemma Inserted<K(!new), V>(h: Hashing<K, V>, s: seq<V>, v: V)
    requires Distinct(h, s) && forall a :: 0 <= a < |s| ==> h.key(s[a]) != h.key(v)
    ensures var r := InsertSecond(s, v);
            && Distinct(h, r) && (forall a :: 0 <= a < |r| ==> r[a] == v || r[a] in s)
            && forall key :: HasKey(h, s, key) || key == h.key(v) ==> HasKey(h, r, key)
  {
    var r := InsertSecond(s, v);
    InsertedAt(s, v);
    assert forall a :: 0 <= a < |s| ==> r[if a == 0 then 0 else a + 1] == s[a];
    assert h.key(r[if s == [] then 0 else 1]) == h.key(v);
    forall key | HasKey(h, s, key) ensures HasKey(h, r, key) {
      var a :| 0 <= a < |s| && h.key(s[a]) == key;
      assert h.key(r[if a == 0 then 0 else a + 1]) == key;
    }
  }

  lemma InsertedAt<V>(s: seq<V>, v: V)
    ensures var r := InsertSecond(s, v);
            && |r| == |s| + 1 && r[if s == [] then 0 else 1] == v && (s != [] ==> r[0] == s[0])
            && forall a :: 2 <= a < |r| ==> r[a] == s[a - 1]
  {
  }

  function PlaceIn<K, V>(h: Hashing<K, V>, buckets: seq<seq<V>>, v: V): (r: seq<seq<V>>)
    ensures |r| == |buckets|
  {
    var pos := h.pos(h.key(v));
    if pos < |buckets| then buckets[pos := InsertSecond(buckets[pos], v)] else buckets
  }

  lemma PlaceHolds<K(!new), V>(h: Hashing<K, V>, buckets: seq<seq<V>>, v: V, m: map<K, V>)
    requires Represents(h, buckets, m) && h.key(v) !in m && h.pos(h.key(v)) < |buckets|
    ensures Represents(h, PlaceIn(h, buckets, v), m[h.key(v) := v])
  {
    hide InsertSecond, Represents;
    var pos := h.pos(h.key(v));
    BucketEntries(h, buckets, m, pos);
    Inserted(h, buckets[pos], v);
    BucketReplaced(h, buckets, m, m[h.key(v) := v], pos, InsertSecond(buckets[pos], v));
  }

  lemma WithoutOne<K(!new), V>(h: Hashing<K, V>, s: seq<V>, d: nat)
    requires Distinct(h, s) && d < |s|
    ensures Distinct(h, RemoveAt(s, d))
    ensures forall a :: 0 <= a < |RemoveAt(s, d)| ==> RemoveAt(s, d)[a] in s && h.key(RemoveAt(s, d)[a]) != h.key(s[d])
    ensures forall key :: HasKey(h, s, key) && key != h.key(s[d]) ==> HasKey(h, RemoveAt(s, d), key)
  {
    var r := RemoveAt(s, d);
    assert forall a :: 0 <= a < |r| ==> r[a] == s[if a < d then a else a + 1];
    forall key | HasKey(h, s, key) && key != h.key(s[d]) ensures HasKey(h, r, key) {
      var a :| 0 <= a < |s| && h.key(s[a]) == key;
      assert r[if a < d then a else a - 1] == s[a];
    }
  }

  lemma RemoveHolds<K(!new), V>(h: Hashing<K, V>, buckets: seq<seq<V>>, m: map<K, V>, key: K)
    requires Represents(h, buckets, m) && h.pos(key) < |buckets|
    ensures var s := buckets[h.pos(key)];
            var d := FirstIndex(s, HasKeyTest(h, key));
            && (d < |s| <==> key in m)
            && Represents(h, buckets[h.pos(key) := RemoveAt(s, d)], m - {key})
  {
    hide RemoveAt, Represents;
    var pos := h.pos(key);
    var was := buckets[pos];
    var d := FirstIndex(was, HasKeyTest(h, key));
    LookupAgrees(h, buckets, m, key);
    if d == |was| {
      assert m - {key} == m;
      assert buckets[pos := RemoveAt(was, d)] == buckets by { PastTheEnd(was); }
    } else {
      assert HasKeyTest(h, key)(was[d]);
      BucketEntries(h, buckets, m, pos);
      WithoutOne(h, was, d);
      BucketReplaced(h, buckets, m, m - {key}, pos, RemoveAt(was, d));
    }
  }

  lemma PastTheEnd<V>(s: seq<V>)
    ensures RemoveAt(s, |s|) == s
  {
  }

  lemma UpdateHolds<K(!new), V>(h: Hashing<K, V>, buckets: seq<seq<V>>, m: map<K, V>, v: V)
    requires Represents(h, buckets, m) && h.pos(h.key(v)) < |buckets|
    ensures var pos := h.pos(h.key(v));
            var d := FirstIndex(buckets[pos], HasKeyTest(h, h.key(v)));
            && (d < |buckets[pos]| <==> h.key(v) in m)
            && (d < |buckets[pos]| ==> Represents(h, buckets[pos := buckets[pos][d := v]], m[h.key(v) := v]))
  {
    hide Represents;
    var key, pos := h.key(v), h.pos(h.key(v));
    var was := buckets[pos];
    var d := FirstIndex(was, HasKeyTest(h, key));
    LookupAgrees(h, buckets, m, key);
    if d < |was| {
      var now, m' := was[d := v], m[key := v];
      assert HasKeyTest(h, key)(was[d]);
      BucketEntries(h, buckets, m, pos);
      forall k | k in m' && h.pos(k) == pos ensures HasKey(h, now, k) {
        var a :| 0 <= a < |was| && h.key(was[a]) == k;
        assert h.key(now[a]) == k;
      }
      BucketReplaced(h, buckets, m, m', pos, now);
    }
  }

  // ----- placing everything afresh -----

  /** Everything in the table, bucket by bucket. */
  function Flatten<V>(buckets: seq<seq<V>>): seq<V> {
    if buckets == [] then [] else Flatten(buckets[..|buckets| - 1]) + buckets[|buckets| - 1]
  }

  function PlaceAllIn<K, V>(h: Hashing<K, V>, buckets: seq<seq<V>>, es: seq<V>): (r: seq<seq<V>>)
    ensures |r| == |buckets|
  {
    if es == [] then buckets else PlaceIn(h, PlaceAllIn(h, buckets, es[..|es| - 1]), es[|es| - 1])
  }

  function NoEntries<V>(capacity: nat): seq<seq<V>> {
    seq(capacity, _ => [])
  }

  ghost function ListMap<K, V>(h: Hashing<K, V>, es: seq<V>): map<K, V> {
    if es == [] then map[] else ListMap(h, es[..|es| - 1])[h.key(es[|es| - 1]) := es[|es| - 1]]
  }

  lemma HasKeyLast<K(!new), V>(h: Hashing<K, V>, es: seq<V>)
    requires es != []
    ensures forall key :: HasKey(h, es, key) <==> HasKey(h, es[..|es| - 1], key) || h.key(es[|es| - 1]) == key
  {
    var rest := es[..|es| - 1];
    forall key ensures HasKey(h, es, key) <==> HasKey(h, rest, key) || h.key(es[|es| - 1]) == key {
      if HasKey(h, rest, key) {
        var a :| 0 <= a < |rest| && h.key(rest[a]) == key;
        assert h.key(es[a]) == key;
      }
      if HasKey(h, es, key) && h.key(es[|es| - 1]) != key {
        var a :| 0 <= a < |es| && h.key(es[a]) == key;
        assert h.key(rest[a]) == key;
      }
    }
  }

  lemma {:induction false} ListMapKeys<K(!new), V>(h: Hashing<K, V>, es: seq<V>)
    ensures forall key :: key in ListMap(h, es) <==> HasKey(h, es, key)
  {
    if es != [] {
      ListMapKeys(h, es[..|es| - 1]);
      HasKeyLast(h, es);
    }
  }

  lemma {:induction false} ListMapValues<K(!new), V>(h: Hashing<K, V>, es: seq<V>)
    requires Distinct(h, es)
    ensures |ListMap(h, es)| == |es|
    ensures forall a :: 0 <= a < |es| ==> h.key(es[a]) in ListMap(h, es) && ListMap(h, es)[h.key(es[a])] == es[a]
  {
    if es != [] {
      var rest := es[..|es| - 1];
      assert forall a :: 0 <= a < |rest| ==> es[a] == rest[a];
      ListMapValues(h, rest);
      ListMapKeys(h, rest);
      assert h.key(es[|es| - 1]) !in ListMap(h, rest);
    }
  }

  /** Placing distinct entries one by one in an empty table gives a table of exactly those. */
  lemma {:induction false} PlaceAllHolds<K(!new), V>(h: Hashing<K, V>, capacity: nat, es: seq<V>)
    requires Distinct(h, es) && forall key :: h.pos(key) < capacity
    ensures Represents(h, PlaceAllIn(h, NoEntries(capacity), es), ListMap(h, es))
  {
    if es != [] {
      var rest := es[..|es| - 1];
      PlaceAllHolds(h, capacity, rest);
      ListMapKeys(h, rest);
      assert forall a :: 0 <= a < |rest| ==> es[a] == rest[a];
      PlaceHolds(h, PlaceAllIn(h, NoEntries(capacity), rest), es[|es| - 1], ListMap(h, rest));
    }
  }

  lemma {:induction false} PlaceAllInAppend<K, V>(h: Hashing<K, V>, buckets: seq<seq<V>>, xs: seq<V>, ys: seq<V>)
    ensures PlaceAllIn(h, buckets, xs + ys) == PlaceAllIn(h, PlaceAllIn(h, buckets, xs), ys)
    decreases |ys|
  {
    hide PlaceIn;
    if ys == [] {
      assert xs + ys == xs;
    } else {
      assert (xs + ys)[..|xs + ys| - 1] == xs + ys[..|ys| - 1];
      PlaceAllInAppend(h, buckets, xs, ys[..|ys| - 1]);
    }
  }

  lemma PlaceAllInFirst<K, V>(h: Hashing<K, V>, buckets: seq<seq<V>>, es: seq<V>)
    requires es != []
    ensures PlaceAllIn(h, buckets, es) == PlaceAllIn(h, PlaceIn(h, buckets, es[0]), es[1..])
  {
    hide PlaceIn;
    assert [es[0]] + es[1..] == es && [es[0]][..0] == [];
    PlaceAllInAppend(h, buckets, [es[0]], es[1..]);
    assert PlaceAllIn(h, buckets, []) == buckets;
  }

  lemma FlattenNothing<V>()
    ensures Flatten<V>([]) == []
  {
  }

  lemma {:induction false} EmptyFlatten<V>(n: nat)
    ensures Flatten(NoEntries<V>(n)) == []
  {
    if n > 0 {
      assert NoEntries<V>(n)[..n - 1] == NoEntries<V>(n - 1);
      EmptyFlatten<V>(n - 1);
    }
  }

  lemma FlattenMore<V>(buckets: seq<seq<V>>, i: nat)
    requires i < |buckets|
    ensures Flatten(buckets[..i + 1]) == Flatten(buckets[..i]) + buckets[i]
  {
    assert buckets[..i + 1][..i] == buckets[..i];
  }

  lemma {:induction false} FlattenPrefix<V>(buckets: seq<seq<V>>, i: nat)
    requires i <= |buckets|
    ensures |Flatten(buckets[..i])| <= |Flatten(buckets)|
    decreases |buckets| - i
  {
    if i < |buckets| {
      FlattenMore(buckets, i);
      FlattenPrefix(buckets, i + 1);
    } else {
      assert buckets[..i] == buckets;
    }
  }

  /** How a change to one bucket changes the number of entries. */
  lemma {:induction false} ReplaceFlatten<V>(buckets: seq<seq<V>>, pos: nat, now: seq<V>)
    requires pos < |buckets|
    ensures |Flatten(buckets[pos := now])| == |Flatten(buckets)| - |buckets[pos]| + |now|
    decreases |buckets|
  {
    var last := |buckets| - 1;
    if pos < last {
      assert buckets[pos := now][..last] == buckets[..last][pos := now];
      ReplaceFlatten(buckets[..last], pos, now);
    } else {
      assert buckets[pos := now][..last] == buckets[..last];
    }
  }

  /** The element stands somewhere in the buckets. */
  ghost predicate InBuckets<V>(buckets: seq<seq<V>>, e: V) {
    exists i :: 0 <= i < |buckets| && e in buckets[i]
  }

  lemma {:induction false} FlattenElement<V>(buckets: seq<seq<V>>, e: V)
    ensures e in Flatten(buckets) <==> InBuckets(buckets, e)
  {
    if buckets != [] {
      var rest, last := buckets[..|buckets| - 1], buckets[|buckets| - 1];
      FlattenElement(rest, e);
      assert e in Flatten(buckets) <==> e in Flatten(rest) || e in last;
      if InBuckets(rest, e) {
        var i :| 0 <= i < |rest| && e in rest[i];
        assert e in buckets[i];
      }
      if InBuckets(buckets, e) {
        var i :| 0 <= i < |buckets| && e in buckets[i];
        assert i < |rest| ==> e in rest[i];
      }
    }
  }

  /** Buckets without repetition whose keys do not meet have no repetition between them. */
  lemma {:induction false} FlattenDistinct<K(!new), V>(h: Hashing<K, V>, buckets: seq<seq<V>>)
    requires forall i :: 0 <= i < |buckets| ==> Distinct(h, buckets[i])
    requires forall i, a :: 0 <= i < |buckets| && 0 <= a < |buckets[i]| ==> h.pos(h.key(buckets[i][a])) == i
    ensures Distinct(h, Flatten(buckets))
  {
    if buckets != [] {
      var rest, last := buckets[..|buckets| - 1], buckets[|buckets| - 1];
      assert forall i, a :: 0 <= i < |rest| && 0 <= a < |rest[i]| ==> rest[i][a] == buckets[i][a];
      FlattenDistinct(h, rest);
      var f := Flatten(rest);
      forall a, b | 0 <= a < |f| && 0 <= b < |last| ensures h.key(f[a]) != h.key(last[b]) {
        FlattenElement(rest, f[a]);
        var i :| 0 <= i < |rest| && f[a] in rest[i];
        var c :| 0 <= c < |rest[i]| && rest[i][c] == f[a];
        assert h.pos(h.key(rest[i][c])) == i;
      }
      assert Distinct(h, last);
    }
  }

  lemma EntryInMap<K, V>(h: Hashing<K, V>, buckets: seq<seq<V>>, m: map<K, V>, e: V)
    requires Represents(h, buckets, m) && InBuckets(buckets, e)
    ensures h.key(e) in m && m[h.key(e)] == e
  {
    var i :| 0 <= i < |buckets| && e in buckets[i];
    var a :| 0 <= a < |buckets[i]| && buckets[i][a] == e;
    assert EntryOf(h, buckets, i, a, m);
  }

  lemma FlattenKeys<K, V>(h: Hashing<K, V>, buckets: seq<seq<V>>, m: map<K, V>, key: K)
    requires Represents(h, buckets, m)
    ensures key in m <==> HasKey(h, Flatten(buckets), key)
  {
    hide Flatten;
    var es := Flatten(buckets);
    if key in m {
      var s := buckets[h.pos(key)];
      var a :| 0 <= a < |s| && h.key(s[a]) == key;
      assert InBuckets(buckets, s[a]);
      FlattenElement(buckets, s[a]);
      var b :| 0 <= b < |es| && es[b] == s[a];
    }
    if HasKey(h, es, key) {
      var a :| 0 <= a < |es| && h.key(es[a]) == key;
      FlattenElement(buckets, es[a]);
      EntryInMap(h, buckets, m, es[a]);
    }
  }

  /** The entries of a table make up the map it stands for. */
  lemma FlattenHolds<K(!new), V>(h: Hashing<K, V>, buckets: seq<seq<V>>, m: map<K, V>)
    requires Represents(h, buckets, m)
    ensures Distinct(h, Flatten(buckets)) && ListMap(h, Flatten(buckets)) == m
  {
    hide Flatten, ListMap;
    var es := Flatten(buckets);
    forall i, a | 0 <= i < |buckets| && 0 <= a < |buckets[i]| ensures h.pos(h.key(buckets[i][a])) == i {
      assert EntryOf(h, buckets, i, a, m);
    }
    FlattenDistinct(h, buckets);
    ListMapKeys(h, es);
    ListMapValues(h, es);
    forall key ensures key in m <==> HasKey(h, es, key) { FlattenKeys(h, buckets, m, key); }
    forall key | key in m ensures ListMap(h, es)[key] == m[key] {
      var a :| 0 <= a < |es| && h.key(es[a]) == key;
      FlattenElement(buckets, es[a]);
      EntryInMap(h, buckets, m, es[a]);
    }
  }

  /** Moving every entry of a table to an empty one, under another hashing of the same keys, gives a
      table for the same map. */
  lemma MovedHolds<K(!new), V>(h: Hashing<K, V>, buckets: seq<seq<V>>, m: map<K, V>, h': Hashing<K, V>, capacity: nat)
    requires Represents(h, buckets, m) && h'.key == h.key && forall key :: h'.pos(key) < capacity
    ensures Represents(h', PlaceAllIn(h', NoEntries(capacity), Flatten(buckets)), m) && |Flatten(buckets)| == |m|
  {
    hide Flatten, ListMap, PlaceAllIn, Represents;
    var es := Flatten(buckets);
    FlattenHolds(h, buckets, m);
    SameKeyMap(h, h', es);
    PlaceAllHolds(h', capacity, es);
    ListMapValues(h, es);
  }

  lemma {:induction false} SameKeyMap<K, V>(h: Hashing<K, V>, h': Hashing<K, V>, es: seq<V>)
    requires h.key == h'.key
    ensures ListMap(h, es) == ListMap(h', es) && (Distinct(h, es) <==> Distinct(h', es))
  {
    if es != [] {
      SameKeyMap(h, h', es[..|es| - 1]);
    }
  }
}
