/** queue.c, the overflow queue of the manager: a linked list with a head and a tail pointer. */
module Queue {
  import opened LinkedChain

  class ActionQueue {
    var head: Node?<string>
    var tail: Node?<string>
    ghost var nodes: seq<Node<string>>

    /** Acyclic, the tail last, and both pointers null exactly when the queue is empty. */
    ghost predicate Valid()
      reads this, nodes
    {
      IsChain(head, nodes) && tail == if nodes == [] then null else nodes[|nodes| - 1]
    }

    /** The queued actions, oldest first. */
    ghost function Contents(): seq<string>
      reads this, nodes
    {
      Values(nodes)
    }

    constructor ()
      ensures Valid() && Contents() == [] && nodes == []
    {
      head := null;
      tail := null;
      nodes := [];
    }

    /** queue_push_action: the queue keeps its own copy of the action. */
    method Push(action: string)
      requires Valid()
      modifies this, nodes
      ensures Valid() && Contents() == old(Contents()) + [action]
      ensures forall n :: n in nodes ==> n in old(nodes) || fresh(n)
    {
      hide IsChain, Values;
      var node := new Node(action, null);
      if tail == null {
        SingleChain(node);
        tail := node;
        head := node;
        nodes := [node];
      } else {
        AppendNode(tail, node, head, nodes);
        tail := node;
        nodes := nodes + [node];
      }
    }

    method IsEmpty() returns (empty: bool)
      requires Valid()
      ensures empty <==> Contents() == []
    {
      empty := head == null;
    }

    /** queue_pop_action: the oldest action, or the empty string when there is none. */
    method Pop() returns (action: string)
      requires Valid()
      modifies this
      ensures Valid()
      ensures old(Contents()) == [] ==> action == "" && Contents() == []
      ensures old(Contents()) != [] ==> [action] + Contents() == old(Contents())
      ensures forall n :: n in nodes ==> n in old(nodes)
    {
      if head == null {
        return "";
      }
      ChainTail(head, nodes);
      action := head.value;
      head := head.next;
      nodes := nodes[1..];
      if head == null {
        tail := null;
      }
    }
  }

  lemma SingleChain(node: Node<string>)
    requires node.next == null
    ensures IsChain(node, [node]) && Values([node]) == [node.value]
  {
  }
}
