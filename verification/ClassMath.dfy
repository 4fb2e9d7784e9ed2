/** The arithmetic shared by byte size classes (quantum 4, sixteen bytes) and page size
    classes (quantum pageShifts).  Shifts are written as powers of two, masks as `%`. */
module ClassMath {
  import opened Powers

  /** The size classes, by their law: eight multiples of the quantum, after which sizes double
      every four classes. */
  function ClassSize(quantum: nat, idx: nat): (size: nat)
    ensures 0 < size
  {
    if idx < 8 then (idx + 1) * Pow2(quantum) else 2 * ClassSize(quantum, idx - 4)
  }

  /** `sizeIdx2sizeCompute` and `pageIdx2sizeCompute`: the same sizes from group and position. */
  function ComputedSize(quantum: nat, idx: nat): nat {
    var group, mod := idx / 4, idx % 4;
    var groupSize := if group == 0 then 0 else Pow2(quantum + 1) * Pow2(group);
    var shift := if group == 0 then 1 else group;
    groupSize + (mod + 1) * Pow2(shift + quantum - 1)
  }

  /** The shift arithmetic of `size2sizeIdx` and `pages2pageIdxCompute`. */
  function ShiftIdx(quantum: nat, size: nat): nat
    requires 0 < size
  {
    var x := Log2(2 * size - 1);
    var shift := if x < quantum + 3 then 0 else x - (quantum + 2);
    var log2Delta := if x < quantum + 3 then quantum else x - 3;
    4 * shift + Position(size, Pow2(log2Delta))
  }

  /** `normalizeSizeCompute`: round up to a multiple of the class spacing. */
  function RoundUp(quantum: nat, size: nat): nat
    requires 0 < size
  {
    var x := Log2(2 * size - 1);
    RoundTo(size, Pow2(if x < quantum + 3 then quantum else x - 3))
  }

  /** Up to a multiple of `delta`; the code's mask does this for a power of two. */
  function RoundTo(size: nat, delta: nat): nat
    requires 0 < delta
  {
    (size + (delta - 1)) / delta * delta
  }

  /** The position of a size within its group of four. */
  function Position(size: nat, delta: nat): nat
    requires 0 < size && 0 < delta
  {
    (size - 1) / delta % 4
  }

  /** `idx` is the least class that holds `size`. */
  predicate IsLeastClass(quantum: nat, idx: nat, size: nat) {
    && size <= ClassSize(quantum, idx)
    && (0 < idx ==> ClassSize(quantum, idx - 1) < size)
  }

  lemma {:induction false} ClassSizeFactored(quantum: nat, group: nat, mod: nat)
    requires mod < 4
    ensures group == 0 ==> ClassSize(quantum, mod) == (mod + 1) * Pow2(quantum)
    ensures 0 < group ==> ClassSize(quantum, 4 * group + mod) == (5 + mod) * Pow2(group + quantum - 1)
  {
    if 1 < group {
      ClassSizeFactored(quantum, group - 1, mod);
      assert 4 * group + mod - 4 == 4 * (group - 1) + mod;
      assert Pow2(group + quantum - 1) == 2 * Pow2(group - 1 + quantum - 1);
    }
  }

  /** The closed form of the code is the law above. */
  lemma ComputedSizeIsClassSize(quantum: nat, idx: nat)
    ensures ComputedSize(quantum, idx) == ClassSize(quantum, idx)
  {
    var group, mod := idx / 4, idx % 4;
    assert idx == 4 * group + mod;
    ClassSizeFactored(quantum, group, mod);
    if 0 < group {
      Pow2Add(quantum + 1, group);
      assert Pow2(quantum + 1 + group) == 2 * (2 * Pow2(group + quantum - 1));
    }
  }

  lemma {:induction false} ClassStep(quantum: nat, idx: nat)
    ensures ClassSize(quantum, idx) < ClassSize(quantum, idx + 1)
  {
    if 8 <= idx {
      ClassStep(quantum, idx - 4);
    }
  }

  lemma {:induction false} ClassMonotone(quantum: nat, i: nat, j: nat)
    requires i < j
    ensures ClassSize(quantum, i) < ClassSize(quantum, j)
    decreases j - i
  {
    ClassStep(quantum, i);
    if i + 1 < j {
      ClassMonotone(quantum, i + 1, j);
    }
  }

  lemma LeastClassUnique(quantum: nat, i: nat, j: nat, size: nat)
    requires IsLeastClass(quantum, i, size) && IsLeastClass(quantum, j, size)
    ensures i == j
  {
    if i < j {
      if i < j - 1 { ClassMonotone(quantum, i, j - 1); }
    } else if j < i {
      if j < i - 1 { ClassMonotone(quantum, j, i - 1); }
    }
  }

  /** The class a request is served from, by searching the sizes in order: the meaning every
      table and every shift formula of the code is measured against. */
  function LeastClass(quantum: nat, size: nat): (idx: nat)
    ensures IsLeastClass(quantum, idx, size)
  {
    LeastClassFrom(quantum, size, 0)
  }

  function LeastClassFrom(quantum: nat, size: nat, start: nat): (idx: nat)
    requires 0 < start ==> ClassSize(quantum, start - 1) < size
    ensures IsLeastClass(quantum, idx, size)
    decreases if size <= ClassSize(quantum, start) then 0 else size - ClassSize(quantum, start)
  {
    if size <= ClassSize(quantum, start) then start
    else ClassStep(quantum, start); LeastClassFrom(quantum, size, start + 1)
  }

  /** What the exponent and the spacing amount to, for requests past the first group. */
  lemma Spacing(quantum: nat, size: nat)
    requires 0 < size
    ensures var x := Log2(2 * size - 1);
      && (x < quantum + 3 ==> size <= 4 * Pow2(quantum))
      && (quantum + 3 <= x ==> 4 * Pow2(x - 3) < size <= 8 * Pow2(x - 3))
  {
    var x := Log2(2 * size - 1);
    Log2Ceiling(size);
    if x < quantum + 3 {
      Pow2Monotone(x, quantum + 2);
      assert Pow2(quantum + 2) == 2 * Pow2(quantum + 1);
    } else {
      assert Pow2(x) == 2 * Pow2(x - 1) && Pow2(x - 1) == 2 * Pow2(x - 2) && Pow2(x - 2) == 2 * Pow2(x - 3);
    }
  }

  /** The shift arithmetic finds the least class not below the request. */
  lemma ShiftIdxIsLeast(quantum: nat, size: nat)
    requires 0 < size
    ensures IsLeastClass(quantum, ShiftIdx(quantum, size), size)
  {
    hide Position, IsLeastClass, Pow2, Log2;
    var x := Log2(2 * size - 1);
    Spacing(quantum, size);
    if x < quantum + 3 {
      LeastLower(quantum, size, Pow2(quantum));
    } else {
      LeastUpper(quantum, size, x, Pow2(x - 3));
    }
  }

  lemma LeastLower(quantum: nat, size: nat, delta: nat)
    requires 0 < size <= 4 * delta && delta == Pow2(quantum)
    ensures IsLeastClass(quantum, Position(size, delta), size)
  {
    Quotient(size - 1, delta, 0, 4);
  }

  lemma LeastUpper(quantum: nat, size: nat, x: nat, delta: nat)
    requires quantum + 3 <= x && delta == Pow2(x - 3) && 4 * delta < size <= 8 * delta
    ensures IsLeastClass(quantum, 4 * (x - (quantum + 2)) + Position(size, delta), size)
  {
    Quotient(size - 1, delta, 4, 8);
    var t := (size - 1) / delta;
    assert t % 4 == t - 4;
    LeastUpperAt(quantum, size, x - (quantum + 2), t - 4, delta);
  }

  lemma LeastUpperAt(quantum: nat, size: nat, g: nat, m: nat, delta: nat)
    requires 1 <= g && m < 4 && delta == Pow2(g + quantum - 1)
    requires (m + 4) * delta <= size - 1 < (m + 5) * delta
    ensures IsLeastClass(quantum, 4 * g + m, size)
  {
    ClassSizeFactored(quantum, g, m);
    if 0 < m {
      ClassSizeFactored(quantum, g, m - 1);
    } else {
      ClassSizeFactored(quantum, g - 1, 3);
      assert 4 * g - 1 == 4 * (g - 1) + 3;
      if 1 < g { assert delta == 2 * Pow2(g + quantum - 2); }
    }
  }

  lemma ShiftIdxIsLeastClass(quantum: nat, size: nat)
    requires 0 < size
    ensures ShiftIdx(quantum, size) == LeastClass(quantum, size)
  {
    ShiftIdxIsLeast(quantum, size);
    LeastClassUnique(quantum, ShiftIdx(quantum, size), LeastClass(quantum, size), size);
  }

  lemma RoundUpIsShifted(quantum: nat, size: nat)
    requires 0 < size
    ensures RoundUp(quantum, size) == ClassSize(quantum, ShiftIdx(quantum, size))
  {
    hide RoundTo, Position, ClassSize, Pow2, Log2;
    var x := Log2(2 * size - 1);
    Spacing(quantum, size);
    if x < quantum + 3 {
      RoundLower(quantum, size, Pow2(quantum));
    } else {
      RoundUpper(quantum, size, x, Pow2(x - 3));
    }
  }

  lemma RoundLower(quantum: nat, size: nat, delta: nat)
    requires 0 < size <= 4 * delta && delta == Pow2(quantum)
    ensures RoundTo(size, delta) == ClassSize(quantum, Position(size, delta))
  {
    Quotient(size - 1, delta, 0, 4);
    Ceiling(size, delta);
  }

  lemma RoundUpper(quantum: nat, size: nat, x: nat, delta: nat)
    requires quantum + 3 <= x && delta == Pow2(x - 3) && 4 * delta < size <= 8 * delta
    ensures RoundTo(size, delta) == ClassSize(quantum, 4 * (x - (quantum + 2)) + Position(size, delta))
  {
    Quotient(size - 1, delta, 4, 8);
    Ceiling(size, delta);
    var t := (size - 1) / delta;
    assert t % 4 == t - 4;
    ClassSizeFactored(quantum, x - (quantum + 2), t - 4);
  }

  lemma Ceiling(size: nat, delta: nat)
    requires 0 < size && 0 < delta
    ensures (size + (delta - 1)) / delta == (size - 1) / delta + 1
  {
    AddDivisor(size - 1, delta);
    assert size + (delta - 1) == (size - 1) + delta;
  }

  /** Rounding up to the spacing lands exactly on the least class. */
  lemma RoundUpIsLeastClass(quantum: nat, size: nat)
    requires 0 < size
    ensures RoundUp(quantum, size) == ClassSize(quantum, LeastClass(quantum, size))
  {
    RoundUpIsShifted(quantum, size);
    ShiftIdxIsLeastClass(quantum, size);
  }

  lemma AddDivisor(a: nat, d: nat)
    requires 0 < d
    ensures (a + d) / d == a / d + 1
  {
    var q := a / d;
    assert a == q * d + a % d;
    assert (q + 1) * d == q * d + d;
    assert (q + 2) * d == q * d + d + d;
    DivUnique(a + d, d, q + 1);
  }

  lemma RoundUpWaste(quantum: nat, size: nat)
    requires 4 * Pow2(quantum) < size
    ensures 4 * (RoundUp(quantum, size) - size) < size
  {
    Spacing(quantum, size);
    var delta := Pow2(Log2(2 * size - 1) - 3);
    DivBelow(size + (delta - 1), delta);
  }

  lemma DivBelow(a: nat, d: nat)
    requires 0 < d
    ensures a / d * d <= a
  {
    assert a == a / d * d + a % d;
  }

  /** Above the first group a request wastes less than a quarter of itself. */
  lemma WasteBelowQuarter(quantum: nat, size: nat)
    requires 4 * Pow2(quantum) < size
    ensures 4 * (ClassSize(quantum, LeastClass(quantum, size)) - size) < size
  {
    RoundUpIsLeastClass(quantum, size);
    RoundUpWaste(quantum, size);
  }

  lemma LeastClassIs(quantum: nat, size: nat, idx: nat)
    requires IsLeastClass(quantum, idx, size)
    ensures LeastClass(quantum, size) == idx
  {
    LeastClassUnique(quantum, idx, LeastClass(quantum, size), size);
  }

  /** The classes below `n` serve exactly the requests up to the last of them. */
  lemma LeastClassBelow(quantum: nat, size: nat, n: nat)
    requires 0 < n
    ensures LeastClass(quantum, size) < n <==> size <= ClassSize(quantum, n - 1)
  {
    var k := LeastClass(quantum, size);
    if k < n - 1 {
      ClassMonotone(quantum, k, n - 1);
    } else if n - 1 < k - 1 {
      ClassMonotone(quantum, n - 1, k - 1);
    }
  }

  /** `size2sizeIdx` inverts `sizeIdx2size`. */
  lemma LeastClassOfClass(quantum: nat, idx: nat)
    ensures LeastClass(quantum, ClassSize(quantum, idx)) == idx
  {
    if 0 < idx { ClassStep(quantum, idx - 1); }
    LeastClassIs(quantum, ClassSize(quantum, idx), idx);
  }
}
