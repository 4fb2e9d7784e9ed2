/** `MpscQueue`: the lock-free queue of many producers and one consumer, one method per atomic step.
    Any interleaving of producers and the consumer is some sequence of these calls. */
module MpscQueues {
  import opened Basics

  /** The queue by its history: what was exchanged in, in that order; whether each node has its
      `next` set (node 0 is the dummy, node i carries items[i - 1]); how many came out. */
  datatype Queue<T> = Queue(items: seq<T>, linked: seq<bool>, done: nat) {
    ghost predicate Valid() {
      && |linked| == |items| + 1 && done < |linked|
      && !linked[|items|]
      && forall i | 0 <= i < done :: linked[i]
    }

    function Pending(): seq<T>
      requires done <= |items|
    {
      items[done..]
    }

    /** The oldest item is there and visible to the consumer. */
    predicate Ready()
      requires done < |linked|
    {
      linked[done]
    }
  }

  function NewQueue<T>(): Queue<T> {
    Queue([], [false], 0)
  }

  /** `head_.exchange(node)`: the linearization point of enqueue. */
  function Exchange<T>(q: Queue<T>, x: T): Queue<T> {
    q.(items := q.items + [x], linked := q.linked + [false])
  }

  /** `prevhead->next_.store(node)` for the producer whose previous head is node `i`. */
  function Link<T>(q: Queue<T>, i: nat): Queue<T>
    requires i < |q.linked|
  {
    q.(linked := q.linked[i := true])
  }

  /** A `dequeue` that finds its tail linked. */
  function Dequeue<T>(q: Queue<T>): Queue<T> {
    q.(done := q.done + 1)
  }

  /** Items leave in exchange order: nothing lost, doubled or overtaken. */
  lemma Fifo<T>(q: Queue<T>)
    requires q.Valid()
    ensures q.items[..q.done] + q.Pending() == q.items
    ensures q.Ready() ==>
      q.Pending() != [] && Dequeue(q).Valid() && Dequeue(q).Pending() == q.Pending()[1..]
      && Dequeue(q).items[..q.done + 1] == q.items[..q.done] + [q.Pending()[0]]
    ensures forall x :: Exchange(q, x).Valid() && Exchange(q, x).Pending() == q.Pending() + [x]
    ensures forall i | 0 <= i < |q.items| :: Link(q, i).Valid() && Link(q, i).Pending() == q.Pending()
  {
  }

  class BufferNode<T> {
    var data: Option<T>
    var next: BufferNode?<T>
    ghost var freed: bool

    constructor (data: Option<T>)
      ensures this.data == data && next == null && !freed
    {
      this.data, next, freed := data, null, false;
    }
  }

  class MpscQueue<T> {
    var head: BufferNode<T>
    var tail: BufferNode<T>
    ghost var nodes: seq<BufferNode<T>>   // every node ever at the head, in order
    ghost var view: Queue<T>

    ghost function NodeSet(): set<BufferNode<T>>
      reads this
    {
      set n | n in nodes
    }

    ghost predicate Valid()
      reads this, NodeSet()
    {
      && view.Valid() && |nodes| == |view.linked|
      && head == nodes[|nodes| - 1] && tail == nodes[view.done]
      && (forall i, j | 0 <= i < j < |nodes| :: nodes[i] != nodes[j])
      && (forall i | 0 <= i < |nodes| :: Node(i))
    }

    /** Nodes behind the tail are deleted, with their link set before; nodes ahead carry their item. */
    ghost predicate Node(i: nat)
      requires |nodes| == |view.linked| == |view.items| + 1 && i < |nodes|
      requires !view.linked[|view.items|]
      reads this, NodeSet()
    {
      && nodes[i].next == (if view.linked[i] then nodes[i + 1] else null)
      && (nodes[i].freed <==> i < view.done)
      && nodes[i].data == (if i <= view.done then None else Some(view.items[i - 1]))
    }

    constructor ()
      ensures Valid() && view == NewQueue() && fresh(nodes[0]) && |nodes| == 1
    {
      var dummy := new BufferNode<T>(None);
      head, tail := dummy, dummy;
      nodes, view := [dummy], NewQueue();
    }

    /** First half of `enqueue`.  The previous head is not freed and nobody has linked it yet. */
    method ExchangeHead(node: BufferNode<T>, ghost x: T) returns (prevhead: BufferNode<T>)
      requires Valid() && node !in nodes && node.data == Some(x) && node.next == null && !node.freed
      modifies this
      ensures Valid() && view == Exchange(old(view), x) && nodes == old(nodes) + [node]
      ensures prevhead == nodes[|nodes| - 2] && prevhead == old(head)
      ensures !prevhead.freed && prevhead.next == null
    {
      assert Node(|nodes| - 1);
      prevhead := head;
      head := node;
      nodes := nodes + [node];
      view := Exchange(view, x);
      forall i | 0 <= i < |nodes| ensures Node(i) {
        if i < |nodes| - 1 { assert old(Node(i)); }
      }
    }

    /** Second half.  However late the producer comes, its previous head still exists: a node is
        deleted only after its link is set, and this link is its alone to set. */
    method LinkNext(prevhead: BufferNode<T>, node: BufferNode<T>, ghost i: nat)
      requires Valid() && i + 1 < |nodes| && nodes[i] == prevhead && nodes[i + 1] == node && !view.linked[i]
      modifies this`view, prevhead`next
      ensures Valid() && view == Link(old(view), i)
      ensures old(!prevhead.freed && prevhead.next == null)
    {
      assert Node(i);
      prevhead.next := node;
      view := Link(view, i);
      forall j | 0 <= j < |nodes| ensures Node(j) {
        assert old(Node(j));
      }
    }

    /** `dequeue` fails exactly when the queue is empty or the oldest item is not linked yet. */
    method TryDequeue() returns (output: Option<T>)
      requires Valid()
      modifies this`tail, this`view, tail`freed, NodeSet()`data
      ensures Valid()
      ensures output.None? <==> !old(view).Ready()
      ensures old(!tail.freed) && !tail.freed
      ensures output.None? ==> view == old(view)
      ensures output.Some? ==> view == Dequeue(old(view)) && output.value == old(view).Pending()[0]
    {
      var t := tail;
      assert Node(view.done);
      var next := t.next;
      if next == null {
        return None;
      }
      assert Node(view.done + 1);
      output := next.data;
      next.data := None;
      tail := next;
      t.freed := true;
      view := Dequeue(view);
      forall j | 0 <= j < |nodes| ensures Node(j) {
        assert old(Node(j));
      }
    }

    method Empty() returns (r: bool)
      requires Valid()
      ensures r <==> !view.Ready()
    {
      assert Node(view.done);
      r := tail.next == null;
    }
  }
}
