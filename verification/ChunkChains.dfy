/** The doubly linked list behind a `PoolChunkList`: `add0` and `remove` edit links in place and mean
    what the arena model says, a chunk put first and a chunk taken out. */
module ChunkChains {
  import opened Basics

  class ChunkNode {
    var prev: ChunkNode?
    var next: ChunkNode?
    var parent: ChunkChain?

    constructor ()
      ensures prev == null && next == null && parent == null
    {
      prev, next, parent := null, null, null;
    }
  }

  class ChunkChain {
    var head: ChunkNode?

    /** From the head on, exactly `chain`, with links that agree both ways. */
    ghost predicate Holds(chain: seq<ChunkNode>)
      reads this, chain
    {
      && (forall i, j | 0 <= i < j < |chain| :: chain[i] != chain[j])
      && (forall i | 0 <= i < |chain| - 1 :: chain[i].next == chain[i + 1] && chain[i + 1].prev == chain[i])
      && if chain == [] then head == null
         else head == chain[0] && chain[0].prev == null && chain[|chain| - 1].next == null
    }

    constructor ()
      ensures Holds([])
    {
      head := null;
    }

    method Add0(chunk: ChunkNode, ghost chain: seq<ChunkNode>)
      requires Holds(chain) && chunk !in chain
      modifies this`head, chunk, (if chain == [] then {} else {chain[0]})`prev
      ensures Holds([chunk] + chain) && chunk.parent == this
    {
      chunk.parent := this;
      if head == null {
        head := chunk;
        chunk.prev := null;
        chunk.next := null;
      } else {
        chunk.prev := null;
        chunk.next := head;
        head.prev := chunk;
        head := chunk;
      }
      assert forall i | 1 <= i < |[chunk] + chain| :: ([chunk] + chain)[i] == chain[i - 1];
    }

    /** The links of the removed chunk are left as they are; `Add0` overwrites both. */
    method Remove(cur: ChunkNode, ghost chain: seq<ChunkNode>, ghost at: nat)
      requires Holds(chain) && at < |chain| && chain[at] == cur
      modifies `head, (if at == 0 then {} else {chain[at - 1]})`next
      modifies (if at + 1 == |chain| then {} else {chain[at + 1]})`prev
      ensures Holds(DropAt(chain, at))
    {
      ghost var rest := DropAt(chain, at);
      assert forall k | 0 <= k < at :: rest[k] == chain[k];
      assert forall k | at <= k < |rest| :: rest[k] == chain[k + 1];
      if cur == head {
        head := head.next;
        if head != null {
          head.prev := null;
        }
      } else {
        var next := cur.next;
        cur.prev.next := next;
        if next != null {
          next.prev := cur.prev;
        }
      }
    }
  }
}
