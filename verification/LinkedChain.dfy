/** The singly linked chains of list_node.c and lnode.c. Both hold a value and a next pointer and
    differ in what the value is and whether a removal stops at the first match. */
module LinkedChain {

  class Node<T> {
    var value: T
    var next: Node?<T>

    constructor (value: T, next: Node?<T>)
      ensures this.value == value && this.next == next
    {
      this.value := value;
      this.next := next;
    }
  }

  /** The nodes reached from head by following next, in order, with no node twice. */
  ghost predicate IsChain<T>(head: Node?<T>, nodes: seq<Node<T>>)
    reads nodes
  {
    && head == NodeAt(nodes, 0)
    && (forall i :: 0 <= i < |nodes| ==> nodes[i].next == NodeAt(nodes, i + 1))
    && (forall i, j :: 0 <= i < j < |nodes| ==> nodes[i] != nodes[j])
  }

  /** The i-th node, or null past the last one. */
  ghost function NodeAt<T>(nodes: seq<Node<T>>, i: nat): Node?<T> {
    if i < |nodes| then nodes[i] else null
  }

  ghost function Values<T>(nodes: seq<Node<T>>): (s: seq<T>)
    reads nodes
    ensures |s| == |nodes| && forall i :: 0 <= i < |s| ==> s[i] == nodes[i].value
  {
    if nodes == [] then [] else [nodes[0].value] + Values(nodes[1..])
  }

  /** Index of the first element that satisfies p, or the length. */
  function FirstIndex<T>(s: seq<T>, p: T -> bool): (i: nat)
    ensures i <= |s|
    ensures forall k :: 0 <= k < i ==> !p(s[k])
    ensures i < |s| ==> p(s[i])
  {
    if s == [] || p(s[0]) then 0 else 1 + FirstIndex(s[1..], p)
  }

  lemma {:induction false} FirstIndexIs<T>(s: seq<T>, p: T -> bool, i: nat)
    requires i <= |s| && (forall k :: 0 <= k < i ==> !p(s[k])) && (i < |s| ==> p(s[i]))
    ensures FirstIndex(s, p) == i
    decreases i
  {
    if i > 0 {
      assert !p(s[0]);
      FirstIndexIs(s[1..], p, i - 1);
    }
  }

  /** Inserting behind the head, which is where both tables put a new value. */
  function InsertSecond<T>(s: seq<T>, v: T): seq<T> {
    if s == [] then [v] else [s[0], v] + s[1..]
  }

  function RemoveAt<T>(s: seq<T>, i: nat): seq<T> {
    if i < |s| then s[..i] + s[i + 1..] else s
  }

  function RemoveAll<T>(s: seq<T>, p: T -> bool): seq<T> {
    if s == [] then [] else if p(s[0]) then RemoveAll(s[1..], p) else [s[0]] + RemoveAll(s[1..], p)
  }

  /** lnode_add_next and list_node_add: a new node behind the given one. */
  method AddNext<T>(head: Node<T>, v: T, ghost nodes: seq<Node<T>>) returns (ghost now: seq<Node<T>>)
    requires IsChain(head, nodes)
    modifies head
    ensures IsChain(head, now) && Values(now) == InsertSecond(old(Values(nodes)), v)
    ensures |now| == |nodes| + 1 && now[0] == head && fresh(now[1]) && now[2..] == nodes[1..]
  {
    hide Values;
    var node := new Node(v, head.next);
    head.next := node;
    now := [head, node] + nodes[1..];
    assert forall i :: 2 <= i < |now| ==> now[i] == nodes[i - 1];
  }

  /** A new last node behind the last one. */
  method AppendNode<T>(last: Node<T>, node: Node<T>, ghost head: Node?<T>, ghost nodes: seq<Node<T>>)
    requires IsChain(head, nodes) && nodes != [] && last == nodes[|nodes| - 1]
    requires node !in nodes && node.next == null
    modifies last
    ensures IsChain(head, nodes + [node]) && Values(nodes + [node]) == old(Values(nodes)) + [node.value]
  {
    hide Values;
    last.next := node;
  }

  /** lnode_find and list_node_find: a pointer to the first node whose value satisfies p. */
  method FindNode<T>(head: Node?<T>, p: T -> bool, ghost nodes: seq<Node<T>>) returns (node: Node?<T>)
    requires IsChain(head, nodes)
    ensures node == NodeAt(nodes, FirstIndex(Values(nodes), p))
  {
    node := head;
    ghost var i := 0;
    while node != null
      invariant i <= |nodes| && node == NodeAt(nodes, i)
      invariant forall k :: 0 <= k < i ==> !p(nodes[k].value)
      decreases |nodes| - i
    {
      if p(node.value) { break; }
      node := node.next;
      i := i + 1;
    }
    FirstIndexIs(Values(nodes), p, i);
  }

  /** lnode_set_value, and every assignment through a pointer that a find returned. */
  method SetValue<T>(head: Node?<T>, node: Node<T>, v: T, ghost nodes: seq<Node<T>>, ghost i: nat)
    requires IsChain(head, nodes) && i < |nodes| && node == nodes[i]
    modifies node
    ensures IsChain(head, nodes) && Values(nodes) == old(Values(nodes))[i := v]
  {
    node.value := v;
  }

  /** The pointer walk of the removals: the first match and the node before it. */
  method FindWithPrevious<T>(head: Node?<T>, p: T -> bool, ghost nodes: seq<Node<T>>)
    returns (prev: Node?<T>, node: Node?<T>)
    requires IsChain(head, nodes)
    ensures var i := FirstIndex(Values(nodes), p);
            node == NodeAt(nodes, i) && prev == if i == 0 then null else nodes[i - 1]
  {
    prev, node := null, head;
    ghost var i := 0;
    while node != null && !p(node.value)
      invariant i <= |nodes| && node == NodeAt(nodes, i)
      invariant prev == if i == 0 then null else nodes[i - 1]
      invariant forall k :: 0 <= k < i ==> !p(nodes[k].value)
      decreases |nodes| - i
    {
      prev := node;
      node := node.next;
      i := i + 1;
    }
    FirstIndexIs(Values(nodes), p, i);
  }

  /** Redirecting the pointer that leads to a node takes that node, and no other, out. */
  method Unlink<T>(head: Node?<T>, prev: Node?<T>, node: Node<T>, ghost nodes: seq<Node<T>>, ghost i: nat)
    returns (head': Node?<T>)
    requires IsChain(head, nodes) && i < |nodes| && node == nodes[i]
    requires prev == if i == 0 then null else nodes[i - 1]
    modifies prev
    ensures IsChain(head', RemoveAt(nodes, i))
    ensures prev != null ==> prev.value == old(prev.value)
  {
    ghost var now := RemoveAt(nodes, i);
    assert forall k :: 0 <= k < i ==> now[k] == nodes[k];
    assert forall k :: i <= k < |now| ==> now[k] == nodes[k + 1];
    head' := head;
    if prev == null {
      head' := node.next;
    } else {
      prev.next := node.next;
    }
  }

  /** One step of a removal: the first match goes, and the values of the others stay. */
  method UnlinkFirst<T>(head: Node?<T>, p: T -> bool, ghost nodes: seq<Node<T>>)
    returns (found: bool, head': Node?<T>, ghost now: seq<Node<T>>)
    requires IsChain(head, nodes)
    modifies nodes
    ensures found <==> FirstIndex(old(Values(nodes)), p) < |nodes|
    ensures now == RemoveAt(nodes, FirstIndex(old(Values(nodes)), p)) && IsChain(head', now)
    ensures Values(now) == RemoveAt(old(Values(nodes)), FirstIndex(old(Values(nodes)), p))
    ensures forall k :: 0 <= k < |nodes| ==> nodes[k].value == old(nodes[k].value)
  {
    hide IsChain, Values, FirstIndex;
    var prev, node := FindWithPrevious(head, p, nodes);
    ghost var i := FirstIndex(Values(nodes), p);
    found, head', now := false, head, nodes;
    if node != null {
      found, now := true, RemoveAt(nodes, i);
      head' := Unlink(head, prev, node, nodes, i);
      assert forall k :: 0 <= k < |now| ==> now[k] == if k < i then nodes[k] else nodes[k + 1];
    }
  }

  /** lnode_remove: it stops at the first match. */
  method RemoveFirst<T>(head: Node?<T>, p: T -> bool, ghost nodes: seq<Node<T>>)
    returns (head': Node?<T>, ghost now: seq<Node<T>>)
    requires IsChain(head, nodes)
    modifies nodes
    ensures now == RemoveAt(nodes, FirstIndex(old(Values(nodes)), p)) && IsChain(head', now)
    ensures forall k :: 0 <= k < |now| ==> now[k] in nodes
    ensures Values(now) == RemoveAt(old(Values(nodes)), FirstIndex(old(Values(nodes)), p))
  {
    var found;
    found, head', now := UnlinkFirst(head, p, nodes);
  }

  lemma {:induction false} RemoveAllStep<T>(s: seq<T>, p: T -> bool)
    ensures var i := FirstIndex(s, p);
            RemoveAll(s, p) == if i == |s| then s else RemoveAll(RemoveAt(s, i), p)
  {
    if s != [] && !p(s[0]) {
      var i := FirstIndex(s[1..], p);
      RemoveAllStep(s[1..], p);
      if i < |s| - 1 {
        RemoveAtLater(s, i);
      }
    } else if s != [] {
      assert RemoveAt(s, 0) == s[1..];
    }
  }

  lemma RemoveAtLater<T>(s: seq<T>, i: nat)
    requires i + 1 < |s|
    ensures var r := RemoveAt(s, i + 1); r != [] && r[0] == s[0] && r[1..] == RemoveAt(s[1..], i)
  {
  }

  /** list_node_remove as it is meant: it goes on after an unlinked node, until no match is left. */
  method RemoveEvery<T>(head: Node?<T>, p: T -> bool, ghost nodes: seq<Node<T>>)
    returns (head': Node?<T>, ghost now: seq<Node<T>>)
    requires IsChain(head, nodes)
    modifies nodes
    ensures IsChain(head', now) && Values(now) == RemoveAll(old(Values(nodes)), p)
    ensures forall k :: 0 <= k < |now| ==> now[k] in nodes
  {
    hide IsChain, Values, FirstIndex, RemoveAll;
    head', now := head, nodes;
    var found := true;
    ghost var was := Values(nodes);
    while found
      invariant IsChain(head', now) && (forall k :: 0 <= k < |now| ==> now[k] in nodes)
      invariant RemoveAll(Values(now), p) == RemoveAll(was, p)
      invariant !found ==> Values(now) == RemoveAll(was, p)
      decreases found, |now|
    {
      RemoveAllStep(Values(now), p);
      found, head', now := UnlinkFirst(head', p, now);
    }
  }

  lemma ChainTail<T>(head: Node<T>, nodes: seq<Node<T>>)
    requires IsChain(head, nodes)
    ensures nodes != [] && head == nodes[0] && head.value == Values(nodes)[0]
    ensures IsChain(head.next, nodes[1..]) && Values(nodes[1..]) == Values(nodes)[1..]
  {
    assert head.next == NodeAt(nodes, 1) == NodeAt(nodes[1..], 0);
    assert forall k :: 0 <= k < |nodes| - 1 ==> nodes[1..][k] == nodes[k + 1];
    forall k | 0 <= k < |nodes[1..]| ensures nodes[1..][k].next == NodeAt(nodes[1..], k + 1) {
      assert nodes[k + 1].next == NodeAt(nodes, k + 2) == NodeAt(nodes[1..], k + 1);
    }
  }

  lemma ChainNone<T>(nodes: seq<Node<T>>)
    requires IsChain(null, nodes)
    ensures nodes == [] && Values(nodes) == []
  {
  }

  // ----- the departures of the source from these -----

  /** list_node_remove as it is written: after unlinking a node it steps past the one that took its
      place without looking at it, and through null when there is none. */
  function RemoveAsWritten<T>(s: seq<T>, p: T -> bool): (r: Result<T>) {
    if s == [] then Chain([])
    else if !p(s[0]) then RemoveAsWritten(s[1..], p).After(s[0])
    else if |s| == 1 then NullDereference
    else RemoveAsWritten(s[2..], p).After(s[1])
  }

  datatype Result<T> = Chain(values: seq<T>) | NullDereference
  {
    function After(v: T): Result<T> {
      if Chain? then Chain([v] + values) else NullDereference
    }
  }

  /** Every match has an element behind it, and one that does not match. */
  predicate MatchesApart<T>(s: seq<T>, p: T -> bool) {
    forall i :: 0 <= i < |s| && p(s[i]) ==> i + 1 < |s| && !p(s[i + 1])
  }

  /** So it removes what it should exactly when every match is followed by a non-match; in
      particular never when the last node of the chain is to go. */
  lemma {:induction false} RemoveAsWrittenExactly<T>(s: seq<T>, p: T -> bool)
    ensures RemoveAsWritten(s, p) == Chain(RemoveAll(s, p)) <==> MatchesApart(s, p)
  {
    if s != [] && !p(s[0]) {
      RemoveAsWrittenExactly(s[1..], p);
      assert MatchesApart(s, p) <==> MatchesApart(s[1..], p) by {
        MatchesApartTail(s, p);
      }
      ConsInjective(s[0], RemoveAsWritten(s[1..], p), RemoveAll(s[1..], p));
    } else if |s| > 1 && p(s[0]) {
      if p(s[1]) {
        RemoveAllLeavesNone(s, p);
        assert RemoveAsWritten(s, p).Chain? ==> p(RemoveAsWritten(s, p).values[0]);
      } else {
        RemoveAsWrittenExactly(s[2..], p);
        assert s[1..][1..] == s[2..];
        assert s[1..][0] == s[1];
        assert RemoveAll(s, p) == [s[1]] + RemoveAll(s[2..], p);
        MatchesApartTail(s[1..], p);
        MatchesApartFirst(s, p);
        ConsInjective(s[1], RemoveAsWritten(s[2..], p), RemoveAll(s[2..], p));
      }
    }
  }

  /** A chain of one node that is to go: null is followed. Two matches in a row: the second stays. */
  lemma RemoveAsWrittenFails<T>(v: T, w: T, p: T -> bool)
    requires p(v) && !p(w)
    ensures RemoveAsWritten([v], p) == NullDereference && RemoveAll([v], p) == []
    ensures RemoveAsWritten([v, v, w], p) == Chain([v, w]) && RemoveAll([v, v, w], p) == [w]
  {
    var none: seq<T> := [];
    assert RemoveAsWritten(none, p) == Chain([]) && RemoveAll(none, p) == [];
    assert [v][1..] == none && [w][1..] == none;
    KeepsOne(w, p);
    assert [v, v, w][1..] == [v, w] && [v, v, w][2..] == [w] && [v, w][1..] == [w];
    assert RemoveAll([v, w], p) == RemoveAll([w], p);
  }

  lemma KeepsOne<T>(w: T, p: T -> bool)
    requires !p(w)
    ensures RemoveAsWritten([w], p) == Chain([w]) && RemoveAll([w], p) == [w]
  {
    assert [w][1..] == [];
    assert [w] + [] == [w];
  }

  lemma ConsInjective<T>(v: T, r: Result<T>, s: seq<T>)
    ensures r.After(v) == Chain([v] + s) <==> r == Chain(s)
  {
    if r.Chain? {
      assert ([v] + r.values)[1..] == r.values && ([v] + s)[1..] == s;
    }
  }

  lemma MatchesApartTail<T>(s: seq<T>, p: T -> bool)
    requires s != [] && !p(s[0])
    ensures MatchesApart(s, p) <==> MatchesApart(s[1..], p)
  {
    assert forall i :: 1 <= i < |s| ==> s[i] == s[1..][i - 1];
    if MatchesApart(s[1..], p) {
      forall i | 0 <= i < |s| && p(s[i]) ensures i + 1 < |s| && !p(s[i + 1]) {
        assert p(s[1..][i - 1]);
      }
    }
  }

  lemma MatchesApartFirst<T>(s: seq<T>, p: T -> bool)
    requires |s| > 1 && p(s[0]) && !p(s[1])
    ensures MatchesApart(s, p) <==> MatchesApart(s[1..], p)
  {
    assert forall i :: 1 <= i < |s| ==> s[i] == s[1..][i - 1];
    if MatchesApart(s[1..], p) {
      forall i | 0 <= i < |s| && p(s[i]) ensures i + 1 < |s| && !p(s[i + 1]) {
        assert i > 0 ==> p(s[1..][i - 1]);
      }
    }
  }

  lemma {:induction false} RemoveAllLeavesNone<T>(s: seq<T>, p: T -> bool)
    ensures forall k :: 0 <= k < |RemoveAll(s, p)| ==> !p(RemoveAll(s, p)[k])
  {
    if s != [] {
      RemoveAllLeavesNone(s[1..], p);
    }
  }

  /** list_node_create as it is written: next is whatever malloc returned. Putting such a node
      behind the head keeps the chain exactly when that happens to be the right pointer. */
  method AddNextAsWritten<T>(head: Node<T>, v: T, garbage: Node?<T>, ghost nodes: seq<Node<T>>)
    returns (ghost now: seq<Node<T>>)
    requires IsChain(head, nodes)
    modifies head
    ensures |now| == |nodes| + 1 && now[0] == head && fresh(now[1]) && now[2..] == nodes[1..]
    ensures IsChain(head, now) <==> garbage == NodeAt(nodes, 1)
  {
    var node := new Node(v, garbage);
    head.next := node;
    now := [head, node] + nodes[1..];
    assert forall i :: 2 <= i < |now| ==> now[i] == nodes[i - 1];
    assert NodeAt(now, 2) == NodeAt(nodes, 1);
    assert now[1].next == garbage;
  }

  /** lnode_remove as it is written compares addresses: only a pointer into a node of this very
      chain removes anything. A key held elsewhere finds the right node exactly when it is absent. */
  ghost function RemovedByAddress<T>(nodes: seq<Node<T>>, at: Node?<T>): seq<Node<T>> {
    RemoveAt(nodes, FirstIndex(nodes, (n: Node<T>) => n == at))
  }

  lemma RemovedByAddressExactly<T>(head: Node?<T>, nodes: seq<Node<T>>, p: T -> bool, at: Node?<T>)
    requires IsChain(head, nodes) && (at == null || at in nodes)
    ensures RemovedByAddress(nodes, at) == RemoveAt(nodes, FirstIndex(Values(nodes), p))
       <==> at == NodeAt(nodes, FirstIndex(Values(nodes), p))
  {
    var i := FirstIndex(Values(nodes), p);
    var j := FirstIndex(nodes, (n: Node<T>) => n == at);
    assert at == NodeAt(nodes, j);
    if i < j && i < |nodes| {
      assert |RemoveAt(nodes, j)| >= i + 1 ==> RemoveAt(nodes, j)[i] == nodes[i];
      assert i + 1 < |nodes| ==> RemoveAt(nodes, i)[i] == nodes[i + 1];
    } else if j < i && j < |nodes| {
      assert |RemoveAt(nodes, i)| >= j + 1 ==> RemoveAt(nodes, i)[j] == nodes[j];
      assert j + 1 < |nodes| ==> RemoveAt(nodes, j)[j] == nodes[j + 1];
    }
  }

  /** A key that is a string of the caller's own is at no node's address, and so removes nothing from a
      chain that has the entry. */
  lemma KeyElsewhere<T>(nodes: seq<Node<T>>, at: Node?<T>, i: nat)
    requires (forall k :: 0 <= k < |nodes| ==> nodes[k] != at) && i < |nodes|
    ensures RemovedByAddress(nodes, at) == nodes != RemoveAt(nodes, i)
  {
    var j := FirstIndex(nodes, (n: Node<T>) => n == at);
    assert j == |nodes|;
    assert |RemoveAt(nodes, i)| == |nodes| - 1;
  }
}
