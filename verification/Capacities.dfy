/** `PoolByteBufAllocator`: how large a growing buffer and a chunk become. */
module Capacities {
  import opened Basics
  import opened Powers

  const THRESHOLD: nat := 4194304
  const MAX_CHUNK_SIZE: nat := 0x4000_0000

  /** `p` is the least power of two from 64 up that is not below `needed`. */
  ghost predicate IsLeastPower(needed: nat, p: nat) {
    exists k: nat :: p == Shl(64, k) && needed <= p && (k == 0 || Shl(64, k - 1) < needed)
  }

  /** `m` is the multiple of the threshold that `needed` has not reached yet. */
  predicate IsNextMultiple(needed: nat, m: nat) {
    m % THRESHOLD == 0 && m - THRESHOLD <= needed < m
  }

  function Capped(r: nat, max: nat): nat {
    if r < max then r else max
  }

  /** `calculateNewCapacity` by its law: the least power of two from 64 up below the threshold, the
      next multiple of the threshold above it, either cut off at the maximum. */
  ghost predicate IsNewCapacity(needed: nat, max: nat, r: nat) {
    && needed <= r <= max
    && (needed < THRESHOLD ==> exists p :: IsLeastPower(needed, p) && r == Capped(p, max))
    && (needed == THRESHOLD ==> r == THRESHOLD)
    && (needed > THRESHOLD ==> exists m :: IsNextMultiple(needed, m) && r == Capped(m, max))
  }

  function NewCapacity(needed: nat, max: nat): nat {
    if needed == THRESHOLD then THRESHOLD
    else if needed > THRESHOLD then
      var base := needed / THRESHOLD * THRESHOLD;
      if base > max - THRESHOLD then max else base + THRESHOLD
    else
      var r := Doubled(64, needed);
      if r < max then r else max
  }

  function Doubled(from: nat, needed: nat): (r: nat)
    requires 0 < from
    ensures needed <= r
    decreases needed - from
  {
    if from < needed then Doubled(2 * from, needed) else from
  }

  lemma {:induction false} DoubledIs(k: nat, needed: nat) returns (j: nat)
    requires k == 0 || Shl(64, k - 1) < needed
    ensures Doubled(Shl(64, k), needed) == Shl(64, j) && (j == 0 || Shl(64, j - 1) < needed)
    decreases needed - Shl(64, k)
  {
    if Shl(64, k) < needed {
      assert Shl(64, k + 1) == 2 * Shl(64, k);
      j := DoubledIs(k + 1, needed);
    } else {
      j := k;
    }
  }

  /** The new capacity lies between the need and the maximum and follows the law. */
  lemma NewCapacityIs(needed: nat, max: nat)
    requires needed <= max
    ensures IsNewCapacity(needed, max, NewCapacity(needed, max))
  {
    if needed < THRESHOLD {
      var j := DoubledIs(0, needed);
      assert Shl(64, 0) == 64;
      assert IsLeastPower(needed, Doubled(64, needed));
    } else if needed > THRESHOLD {
      var base := needed / THRESHOLD * THRESHOLD;
      assert IsNextMultiple(needed, base + THRESHOLD);
    }
  }

  lemma LeastPowerUnique(needed: nat, p: nat, q: nat)
    requires IsLeastPower(needed, p) && IsLeastPower(needed, q)
    ensures p == q
  {
    var k: nat :| p == Shl(64, k) && needed <= p && (k == 0 || Shl(64, k - 1) < needed);
    var j: nat :| q == Shl(64, j) && needed <= q && (j == 0 || Shl(64, j - 1) < needed);
    if k < j { ShlGrows(64, k, j - 1); } else if j < k { ShlGrows(64, j, k - 1); }
  }

  /** The law leaves no choice. */
  lemma NewCapacityUnique(needed: nat, max: nat, r: nat)
    requires IsNewCapacity(needed, max, r)
    ensures r == NewCapacity(needed, max)
  {
    NewCapacityIs(needed, max);
    hide NewCapacity, IsLeastPower;
    if needed < THRESHOLD {
      var p :| IsLeastPower(needed, p) && r == Capped(p, max);
      var q :| IsLeastPower(needed, q) && NewCapacity(needed, max) == Capped(q, max);
      LeastPowerUnique(needed, p, q);
    }
  }

  lemma NewCapacityFits(needed: nat, max: nat)
    requires needed <= max
    ensures needed <= NewCapacity(needed, max) <= max
  {
    NewCapacityIs(needed, max);
  }

  /** An exception when the maximum does not suffice. */
  method CalculateNewCapacity(minNewCapacity: nat, maxCapacity: nat) returns (r: Option<nat>)
    ensures r.None? <==> maxCapacity < minNewCapacity
    ensures r.Some? ==> r.value == NewCapacity(minNewCapacity, maxCapacity)
    ensures r.Some? ==> IsNewCapacity(minNewCapacity, maxCapacity, r.value)
  {
    if minNewCapacity > maxCapacity {
      return None;
    }
    NewCapacityIs(minNewCapacity, maxCapacity);
    if minNewCapacity == THRESHOLD {
      return Some(THRESHOLD);
    }
    if minNewCapacity > THRESHOLD {
      var newCapacity := minNewCapacity / THRESHOLD * THRESHOLD;
      if newCapacity > maxCapacity - THRESHOLD {
        newCapacity := maxCapacity;
      } else {
        newCapacity := newCapacity + THRESHOLD;
      }
      return Some(newCapacity);
    }
    var newCapacity := 64;
    while newCapacity < minNewCapacity
      invariant 0 < newCapacity && Doubled(newCapacity, minNewCapacity) == Doubled(64, minNewCapacity)
      decreases minNewCapacity - newCapacity
    {
      newCapacity := 2 * newCapacity;
    }
    r := Some(if newCapacity < maxCapacity then newCapacity else maxCapacity);
  }

  /** Shifting the page up to the chunk, refusing to pass the largest chunk size. */
  method ValidateAndCalculateChunkSize(pageSize: nat, maxOrder: nat) returns (r: Option<nat>)
    requires maxOrder < 14 && 0 < pageSize
    ensures r.None? <==> 0 < maxOrder && MAX_CHUNK_SIZE < Shl(pageSize, maxOrder)
    ensures r.Some? ==> r.value == Shl(pageSize, maxOrder)
  {
    var chunkSize := pageSize;
    var i := maxOrder;
    while i > 0
      invariant 0 <= i <= maxOrder && chunkSize == Shl(pageSize, maxOrder - i)
      invariant i < maxOrder ==> chunkSize <= MAX_CHUNK_SIZE
    {
      if chunkSize > MAX_CHUNK_SIZE / 2 {
        ShlGrows(pageSize, maxOrder - i + 1, maxOrder);
        return None;
      }
      chunkSize := 2 * chunkSize;
      i := i - 1;
    }
    r := Some(chunkSize);
  }

  lemma {:induction false} ShlGrows(n: nat, a: nat, b: nat)
    requires a <= b
    ensures Shl(n, a) <= Shl(n, b)
  {
    if a < b {
      ShlGrows(n, a, b - 1);
    }
  }
}
