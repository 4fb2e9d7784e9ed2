/** `PoolSubpage`: the bitmap over the elements of one run, and the circular list that holds the
    subpages with room. */
module PoolSubpages {
  import opened Basics
  import opened Runs
  import opened Handles
  import opened Subpages

  /** A 64-bit word by its bits, lowest first. */
  type Word = w: seq<bool> | |w| == 64 witness seq(64, _ => false)

  function Clear(): Word { seq(64, _ => false) }

  /** `bits >>= 1` on a signed word keeps the sign bit. */
  function ShiftRight(w: Word): Word { w[1..] + [w[63]] }

  /** `bits` is `bits0` shifted right `j` times, as far as its low bits go. */
  ghost predicate Shifted(bits0: Word, bits: Word, j: nat) {
    forall k: nat | j + k < 64 :: bits[k] == bits0[j + k]
  }

  lemma ShiftOnce(bits0: Word, bits: Word, j: nat)
    requires Shifted(bits0, bits, j)
    ensures Shifted(bits0, ShiftRight(bits), j + 1)
  {
    forall k: nat | j + 1 + k < 64 ensures ShiftRight(bits)[k] == bits0[j + 1 + k] {
      assert bits[k + 1] == bits0[j + (k + 1)];
    }
  }

  class PoolSubpage {
    const run: Run
    const elemSize: nat
    const maxNumElems: nat
    const bitmapLength: nat
    const bitmap: array<Word>
    var nextAvail: int
    var numAvail: int
    var dontRelease: bool
    var prev: PoolSubpage?
    var next: PoolSubpage?
    ghost var used: set<nat>

    ghost function View(): Subpage
      reads this
    {
      Subpage(run, elemSize, maxNumElems, used, nextAvail)
    }

    ghost predicate Bit(i: nat)
      requires i < 64 * bitmap.Length
      reads bitmap
    {
      bitmap[i / 64][i % 64]
    }

    /** The bitmap, the count and the hint all tell the same story. */
    ghost predicate Valid()
      reads this, bitmap
    {
      && View().Valid() && numAvail == View().NumAvail()
      && bitmapLength <= bitmap.Length && 64 * (bitmapLength - 1) < maxNumElems <= 64 * bitmapLength
      && forall i: nat | i < 64 * bitmap.Length :: Bit(i) <==> i in used
    }

    // ---------------------------------------------------------------- the pool

    /** `ring` lists the members in `next` order, the head first. */
    static ghost predicate IsRing(ring: seq<PoolSubpage>)
      reads Members(ring)
    {
      && ring != []
      && (forall i, j | 0 <= i < j < |ring| :: ring[i] != ring[j])
      && (forall i | 0 <= i < |ring| - 1 :: ring[i].next == ring[i + 1] && ring[i + 1].prev == ring[i])
      && ring[|ring| - 1].next == ring[0] && ring[0].prev == ring[|ring| - 1]
    }

    static ghost function Members(ring: seq<PoolSubpage>): set<PoolSubpage> {
      set l | l in ring
    }

    static ghost function At(ring: seq<PoolSubpage>, i: nat): PoolSubpage
      requires i < |ring|
    {
      ring[i]
    }

    /** The pool head: a subpage of nothing, alone in its ring. */
    constructor Head()
      ensures IsRing([this])
    {
      run, elemSize, maxNumElems, bitmapLength, bitmap := Run(0, 0), 0, 0, 0, new Word[0];
      nextAvail, numAvail, dontRelease, used := 0, 0, true, {};
      prev, next := this, this;
    }

    /** New members go right behind the head. */
    method AddToPool(head: PoolSubpage, ghost ring: seq<PoolSubpage>)
      requires IsRing(ring) && ring[0] == head && this !in ring
      requires prev == null && next == null
      modifies this`prev, this`next, head`next, At(ring, if |ring| == 1 then 0 else 1)`prev
      ensures IsRing([head, this] + ring[1..])
    {
      prev := head;
      next := head.next;
      next.prev := this;
      head.next := this;
      ghost var r := [head, this] + ring[1..];
      assert forall i | 2 <= i < |r| :: r[i] == ring[i - 1];
    }

    /** Unlinking keeps the others in order. */
    method RemoveFromPool(ghost ring: seq<PoolSubpage>, ghost i: nat)
      requires IsRing(ring) && 0 < i < |ring| && ring[i] == this
      modifies this`prev, this`next, At(ring, i - 1)`next, At(ring, if i + 1 == |ring| then 0 else i + 1)`prev
      ensures IsRing(DropAt(ring, i)) && prev == null && next == null
    {
      var p, n := prev, next;
      p.next := n;
      n.prev := p;
      prev := null;
      next := null;
      ghost var r := DropAt(ring, i);
      assert forall k | 0 <= k < i :: r[k] == ring[k];
      assert forall k | i <= k < |r| :: r[k] == ring[k + 1];
    }

    /** What `prev == next` tests: this is the only member besides the head. */
    lemma SoleMember(ring: seq<PoolSubpage>, i: nat)
      requires IsRing(ring) && 0 < i < |ring| && ring[i] == this
      ensures prev == next <==> |ring| == 2
    {
      if |ring| != 2 && i == |ring| - 1 {
        assert ring[i - 1] != ring[0];
      } else if |ring| != 2 {
        assert ring[i - 1] != ring[i + 1];
      }
    }

    // ---------------------------------------------------------------- the bitmap

    /** A run of a few pages under equal elements; all clear, hint at 0, in the pool. */
    constructor (head: PoolSubpage, run: Run, runSize: nat, elemSize: nat, ghost ring: seq<PoolSubpage>)
      requires 16 <= elemSize <= runSize && runSize % 1024 == 0
      requires IsRing(ring) && ring[0] == head
      modifies head`next, At(ring, if |ring| == 1 then 0 else 1)`prev
      ensures Valid() && View() == New(run, elemSize, runSize / elemSize) && dontRelease && fresh(bitmap)
      ensures IsRing([head, this] + ring[1..])
    {
      this.run, this.elemSize := run, elemSize;
      bitmap := new Word[runSize / 1024](_ => Clear());
      maxNumElems := runSize / elemSize;
      numAvail := runSize / elemSize;
      nextAvail := 0;
      bitmapLength := runSize / elemSize / 64 + (if runSize / elemSize % 64 != 0 then 1 else 0);
      dontRelease := true;
      used := {};
      prev, next := null, null;
      new;
      BitmapFits(runSize, elemSize);
      AddToPool(head, ring);
    }

    static lemma BitmapFits(runSize: nat, elemSize: nat)
      requires 16 <= elemSize <= runSize && runSize % 1024 == 0
      ensures 0 < runSize / elemSize <= 64 * (runSize / 1024)
    {
      var n := runSize / elemSize;
      assert runSize == n * elemSize + runSize % elemSize;
      assert n * 16 <= n * elemSize;
      assert n == 0 ==> n * elemSize == 0;
    }

    /** What a scan of word `i` reports: its lowest clear bit within the run, or that there is none. */
    ghost predicate Scanned(i: nat, bits: Word, r: int) {
      if r == -1 then forall j: nat | j < 64 && 64 * i + j < maxNumElems :: bits[j]
      else 64 * i <= r < 64 * i + 64 && r < maxNumElems && !bits[r - 64 * i]
           && forall j: nat | j < r - 64 * i :: bits[j]
    }

    method FindNextAvail0(i: nat, bits0: Word) returns (r: int)
      ensures Scanned(i, bits0, r)
    {
      var bits: Word := bits0;
      var j := 0;
      while j < 64
        invariant 0 <= j <= 64
        invariant forall k: nat | k < j :: bits0[k]
        invariant Shifted(bits0, bits, j)
      {
        assert bits[0] == bits0[j + 0];
        if !bits[0] {
          var val := 64 * i + j;
          if val < maxNumElems {
            return val;
          }
          break;
        }
        ShiftOnce(bits0, bits, j);
        bits := ShiftRight(bits);
        j := j + 1;
      }
      r := -1;
    }

    method FindNextAvail() returns (r: int)
      requires Valid() && 0 < numAvail
      ensures r == FirstClear(used, 0, maxNumElems)
    {
      Pigeonhole(used, maxNumElems);
      ghost var free: nat :| free < maxNumElems && free !in used;
      hide Scanned, FirstClear;
      var i := 0;
      while i < bitmapLength
        invariant 0 <= i <= bitmapLength
        invariant forall k: nat | k < 64 * i :: k in used
      {
        var bits := bitmap[i];
        if bits != seq(64, _ => true) {
          var found := FindNextAvail0(i, bits);
          FoundIn(i, found);
          return found;
        }
        WordOf(i);
        i := i + 1;
      }
      r := -1;
    }

    /** With all words before it full and room left, a word that is not full holds the lowest clear bit. */
    lemma FoundIn(i: nat, found: int)
      requires Valid() && 0 < numAvail && i < bitmapLength && forall k: nat | k < 64 * i :: k in used
      requires bitmap[i] != seq(64, _ => true) && Scanned(i, bitmap[i], found)
      ensures found == FirstClear(used, 0, maxNumElems)
    {
      WordHasRoom(i);
      WordOf(i);
      hide Bit;
      forall k: nat | k < found ensures k in used {
        if 64 * i <= k { assert bitmap[i][k - 64 * i]; }
      }
      FirstClearUnique(used, maxNumElems, found);
    }

    lemma WordHasRoom(i: nat)
      requires Valid() && 0 < numAvail && i < bitmapLength && forall k: nat | k < 64 * i :: k in used
      requires bitmap[i] != seq(64, _ => true)
      ensures !Scanned(i, bitmap[i], -1)
    {
      Pigeonhole(used, maxNumElems);
      var free: nat :| free < maxNumElems && free !in used;
      WordOf(i);
      hide Bit;
      if 64 * i + 64 <= free {
        var j :| 0 <= j < 64 && !bitmap[i][j];
        assert 64 * i + j < maxNumElems;
      } else {
        assert !bitmap[i][free - 64 * i];
      }
    }

    lemma WordOf(w: nat)
      requires Valid() && w < bitmap.Length
      ensures forall j: nat | j < 64 :: bitmap[w][j] <==> 64 * w + j in used
    {
      forall j: nat | j < 64 ensures bitmap[w][j] <==> 64 * w + j in used {
        assert Bit(64 * w + j) <==> 64 * w + j in used;
      }
    }

    method GetNextAvail() returns (r: int)
      requires Valid() && 0 < numAvail
      modifies this`nextAvail
      ensures r == NextAvail(old(View())) && nextAvail == -1
    {
      r := nextAvail;
      if r >= 0 {
        nextAvail := -1;
        return;
      }
      r := FindNextAvail();
    }

    method SetBit(i: nat, value: bool)
      requires i < 64 * bitmap.Length
      modifies bitmap
      ensures forall k: nat | k < 64 * bitmap.Length :: Bit(k) <==> if k == i then value else old(Bit(k))
    {
      var q, r := i / 64, i % 64;
      bitmap[q] := bitmap[q][r := value];
    }

    method TakeElement() returns (bitmapIdx: int)
      requires Valid() && 0 < numAvail
      modifies this`nextAvail, this`numAvail, this`used, bitmap
      ensures Valid() && View() == Take(old(View())) && bitmapIdx == NextAvail(old(View()))
      ensures 0 <= numAvail == old(numAvail) - 1
    {
      Pigeonhole(used, maxNumElems);
      TakeIsFresh(View());
      bitmapIdx := GetNextAvail();
      assert !Bit(bitmapIdx);
      SetBit(bitmapIdx, true);
      used := used + {bitmapIdx};
      numAvail := numAvail - 1;
    }

    /** `allocate`: nothing from a full or released subpage; otherwise a fresh element, and the
        subpage leaves the pool with its last one. */
    method Allocate(ghost ring: seq<PoolSubpage>, ghost at: nat)
        returns (r: Option<Handle>, ghost ring': seq<PoolSubpage>)
      requires Valid() && 0 <= numAvail
      requires IsRing(ring) && at < |ring|
      requires 0 < numAvail && dontRelease ==> 0 < at && ring[at] == this
      modifies this`nextAvail, this`numAvail, this`used, bitmap, Members(ring)`prev, Members(ring)`next
      ensures Valid() && 0 <= numAvail
      ensures r.None? <==> old(numAvail) == 0 || !dontRelease
      ensures r.None? ==> View() == old(View()) && ring' == ring
      ensures r.Some? ==>
        && View() == Take(old(View()))
        && r.value == Handle(run.offset, run.pages, true, true, NextAvail(old(View())))
        && ring' == (if numAvail == 0 then DropAt(ring, at) else ring) && IsRing(ring')
    {
      hide Bit, Take, Give, NextAvail;
      ring' := ring;
      if numAvail == 0 || !dontRelease {
        return None, ring;
      }
      var bitmapIdx := TakeElement();
      if numAvail == 0 {
        RemoveFromPool(ring, at);
        ring' := DropAt(ring, at);
      }
      r := Some(Handle(run.offset, run.pages, true, true, bitmapIdx));
    }

    method ReturnElement(bitmapIdx: nat)
      requires Valid() && bitmapIdx in used
      modifies this`nextAvail, this`numAvail, this`used, bitmap
      ensures Valid() && View() == Give(old(View()), bitmapIdx) && numAvail == old(numAvail) + 1
      ensures 0 <= old(numAvail) && (numAvail == maxNumElems <==> used == {})
    {
      GiveIsValid(View(), bitmapIdx);
      assert Bit(bitmapIdx);
      SetBit(bitmapIdx, false);
      used := used - {bitmapIdx};
      nextAvail := bitmapIdx;
      numAvail := numAvail + 1;
    }

    /** `free`: the element is clear again and hinted; a full subpage rejoins the pool, and one that
        is wholly free is released when the pool has another. */
    method Free(head: PoolSubpage, bitmapIdx: nat, ghost ring: seq<PoolSubpage>, ghost at: nat)
      returns (kept: bool, ghost ring': seq<PoolSubpage>)
      requires Valid() && bitmapIdx in used && dontRelease
      requires IsRing(ring) && ring[0] == head
      requires if numAvail == 0 then this !in ring && prev == null && next == null
               else 0 < at < |ring| && ring[at] == this
      modifies this, bitmap, Members(ring)`prev, Members(ring)`next
      ensures Valid() && View() == Give(old(View()), bitmapIdx)
      ensures !kept <==> 0 < old(numAvail) && used == {} && |ring| != 2
      ensures dontRelease == kept
      ensures ring' == (if old(numAvail) == 0 then [head, this] + ring[1..] else if kept then ring
                        else DropAt(ring, at))
      ensures IsRing(ring')
    {
      hide Bit, Take, Give, NextAvail, Subpage.Valid, Subpage.NumAvail;
      ReturnElement(bitmapIdx);
      if numAvail - 1 == 0 {
        AddToPool(head, ring);
        return true, [head, this] + ring[1..];
      }
      if numAvail != maxNumElems {
        return true, ring;
      }
      kept, ring' := LeavePool(ring, at);
    }

    /** A wholly free subpage goes unless it is the only one of its pool. */
    method LeavePool(ghost ring: seq<PoolSubpage>, ghost at: nat) returns (kept: bool, ghost ring': seq<PoolSubpage>)
      requires IsRing(ring) && 0 < at < |ring| && ring[at] == this && dontRelease
      modifies this`dontRelease, Members(ring)`prev, Members(ring)`next
      ensures kept <==> |ring| == 2
      ensures dontRelease == kept && ring' == (if kept then ring else DropAt(ring, at)) && IsRing(ring')
    {
      SoleMember(ring, at);
      if prev == next {
        return true, ring;
      }
      dontRelease := false;
      RemoveFromPool(ring, at);
      return false, DropAt(ring, at);
    }
  }
}
