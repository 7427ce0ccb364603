/** Separate chaining: an array of chains, changed in place. Both hash tables are built on it. */
module ChainTable {
  import opened CStrings
  import opened LinkedChain

  /** No node is in two chains. */
  ghost predicate ChainsApart<T>(chains: seq<seq<Node<T>>>) {
    forall i, j, a, b :: 0 <= i < j < |chains| && 0 <= a < |chains[i]| && 0 <= b < |chains[j]| ==>
                           chains[i][a] != chains[j][b]
  }

  /** Every node of every chain is in this set. */
  ghost predicate Within<T>(chains: seq<seq<Node<T>>>, repr: set<object>) {
    forall i, a :: 0 <= i < |chains| && 0 <= a < |chains[i]| ==> chains[i][a] in repr
  }

  class Table<T> {
    const buckets: array<Node?<T>>
    ghost var chains: seq<seq<Node<T>>>
    ghost var Repr: set<object>

    ghost predicate Valid()
      reads this, Repr
      ensures Valid() ==> this in Repr && buckets in Repr && |chains| == buckets.Length
    {
      && this in Repr && buckets in Repr && Within(chains, Repr)
      && |chains| == buckets.Length && ChainsApart(chains)
      && forall i :: 0 <= i < |chains| ==> IsChain(buckets[i], chains[i])
    }

    /** The values of each chain, in chain order. */
    ghost function Contents(): (s: seq<seq<T>>)
      requires Valid()
      reads this, Repr
      ensures |s| == |chains| && forall i :: 0 <= i < |s| ==> s[i] == Values(chains[i])
    {
      seq(|chains|, i requires 0 <= i < |chains| && Within(chains, Repr) reads this, Repr => Values(chains[i]))
    }

    constructor (capacity: nat)
      ensures Valid() && buckets.Length == capacity && fresh(Repr)
      ensures Contents() == seq(capacity, _ => [])
    {
      buckets := new Node?<T>[capacity];
      chains := seq(capacity, _ => []);
      new;
      Repr := {this, buckets};
      for i := 0 to capacity
        invariant chains == seq(capacity, _ => []) && Repr == {this, buckets}
        invariant forall k :: 0 <= k < i ==> buckets[k] == null
      {
        buckets[i] := null;
      }
    }

    /** Changing one chain, by nodes of its own or new ones, leaves the table valid and every other
        bucket as it was. */
    twostate lemma OneChainChanged(pos: nat, new now: seq<Node<T>>)
      requires old(Valid()) && pos < buckets.Length && chains == old(chains)[pos := now]
      requires forall k :: 0 <= k < |chains| && k != pos ==> buckets[k] == old(buckets[k])
      requires forall n: Node<T> :: n in old(Repr) && n !in old(chains)[pos] ==> unchanged(n)
      requires IsChain(buckets[pos], now) && old(Repr) <= Repr && fresh(Repr - old(Repr))
      requires forall a :: 0 <= a < |now| ==> now[a] in Repr && (now[a] in old(chains)[pos] || fresh(now[a]))
      ensures Valid()
      ensures Contents() == old(Contents())[pos := Values(now)]
    {
      hide IsChain, Values, ChainsApart, Within;
      StillApart(pos, now);
      OtherChains(pos);
    }

    twostate lemma OtherChains(pos: nat)
      requires old(Valid()) && |chains| == |old(chains)| && pos < |chains|
      requires forall k :: 0 <= k < |chains| && k != pos ==> chains[k] == old(chains[k]) && buckets[k] == old(buckets[k])
      requires forall n: Node<T> :: n in old(Repr) && n !in old(chains)[pos] ==> unchanged(n)
      ensures forall k :: 0 <= k < |chains| && k != pos ==>
                IsChain(buckets[k], chains[k]) && Values(chains[k]) == old(Values(chains[k]))
    {
      NodesApart(pos);
    }

    /** The nodes of the other chains are not in this one. */
    twostate lemma NodesApart(pos: nat)
      requires old(Valid()) && pos < |old(chains)|
      ensures forall k, a :: 0 <= k < |old(chains)| && k != pos && 0 <= a < |old(chains)[k]| ==>
                               old(chains)[k][a] in old(Repr) && old(chains)[k][a] !in old(chains)[pos]
    {
    }

    twostate lemma StillApart(pos: nat, new now: seq<Node<T>>)
      requires old(Valid()) && pos < |old(chains)| && chains == old(chains)[pos := now] && old(Repr) <= Repr
      requires forall a :: 0 <= a < |now| ==> now[a] in Repr && (now[a] in old(chains)[pos] || fresh(now[a]))
      ensures ChainsApart(chains) && Within(chains, Repr)
    {
    }

    /** A new first chain, or a node behind the head of an existing one. */
    method Place(pos: nat, v: T)
      requires Valid() && pos < buckets.Length
      modifies Repr
      ensures Valid() && fresh(Repr - old(Repr)) && old(Repr) <= Repr
      ensures Contents() == old(Contents())[pos := InsertSecond(old(Contents())[pos], v)]
    {
      hide Contents, Values, ChainsApart;
      ghost var now;
      if buckets[pos] == null {
        var node := new Node(v, null);
        buckets[pos] := node;
        now := [node];
        assert Values(now) == [v] && Values(chains[pos]) == [];
        Repr := Repr + {node};
      } else {
        now := AddNext(buckets[pos], v, chains[pos]);
        Repr := Repr + {now[1]};
      }
      chains := chains[pos := now];
      OneChainChanged(pos, now);
    }

    /** A pointer to the first value of one chain that satisfies p. */
    method Find(pos: nat, p: T -> bool) returns (node: Node?<T>)
      requires Valid() && pos < buckets.Length
      ensures node == NodeAt(chains[pos], FirstIndex(Contents()[pos], p))
      ensures node != null ==> node.value == Contents()[pos][FirstIndex(Contents()[pos], p)]
    {
      node := FindNode(buckets[pos], p, chains[pos]);
    }

    /** Assigning through that pointer. */
    method SetFirst(pos: nat, p: T -> bool, v: T)
      requires Valid() && pos < buckets.Length
      modifies Repr
      ensures Valid() && Repr == old(Repr) && chains == old(chains)
      ensures var i := FirstIndex(old(Contents())[pos], p);
              Contents() == if i < |old(Contents())[pos]| then
                              old(Contents())[pos := old(Contents())[pos][i := v]] else old(Contents())
    {
      hide Contents, Values, ChainsApart, IsChain, RemoveAt, RemoveAll, FirstIndex;
      var node := Find(pos, p);
      ghost var i := FirstIndex(Contents()[pos], p);
      if node != null {
        ghost var now := chains[pos];
        SetValue(buckets[pos], node, v, now, i);
        OneChainChanged(pos, now);
      }
    }

    /** Unlinking the first match of one chain. */
    method RemoveFirstAt(pos: nat, p: T -> bool)
      requires Valid() && pos < buckets.Length
      modifies Repr
      ensures Valid() && Repr == old(Repr)
      ensures var s := old(Contents())[pos];
              Contents() == old(Contents())[pos := RemoveAt(s, FirstIndex(s, p))]
    {
      hide Contents, Values, ChainsApart, IsChain, RemoveAt, RemoveAll, FirstIndex;
      var head, now := RemoveFirst(buckets[pos], p, chains[pos]);
      buckets[pos] := head;
      chains := chains[pos := now];
      OneChainChanged(pos, now);
    }

    /** Unlinking every match of one chain. */
    method RemoveEveryAt(pos: nat, p: T -> bool)
      requires Valid() && pos < buckets.Length
      modifies Repr
      ensures Valid() && Repr == old(Repr)
      ensures Contents() == old(Contents())[pos := RemoveAll(old(Contents())[pos], p)]
    {
      hide Contents, Values, ChainsApart, IsChain, RemoveAt, RemoveAll, FirstIndex;
      var head, now := RemoveEvery(buckets[pos], p, chains[pos]);
      buckets[pos] := head;
      chains := chains[pos := now];
      OneChainChanged(pos, now);
    }
  }

  lemma TableChains<T>(table: Table<T>)
    requires table.Valid()
    ensures forall k :: 0 <= k < table.buckets.Length ==>
              IsChain(table.buckets[k], table.chains[k]) && Values(table.chains[k]) == table.Contents()[k]
    ensures forall k, a :: 0 <= k < table.buckets.Length && 0 <= a < |table.chains[k]| ==> table.chains[k][a] in table.Repr
  {
  }
}
