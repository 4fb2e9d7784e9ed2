/** `MathUtils`: bit counting on 32-bit integers. */
module MathUtils {
  import opened Powers

  /** The unsigned value of a 32-bit signed integer. */
  function ToUnsigned(v: int): nat
    requires -0x8000_0000 <= v < 0x8000_0000
  {
    if v < 0 then v + 0x1_0000_0000 else v
  }

  /** A shift by `s` moves the top bit up by `s`. */
  lemma {:induction false} TopBitShifted(v: nat, s: nat, r: nat)
    requires 0 < v && s <= r && Pow2(r) <= Shl(v, s) < Pow2(r + 1)
    ensures Log2(v) == r - s
  {
    if s == 0 {
      Log2Unique(v, r);
    } else {
      TopBitShifted(v, s - 1, r - 1);
    }
  }

  /** Midway through the search: `val` is `v` shifted up by the `n - 1` zeros found, its top bit no
      lower than bit `low`. */
  ghost predicate Shifted(v: nat, n: int, val: int, low: nat) {
    1 <= n <= low + 1 && val == Shl(v, n - 1) && Pow2(low) <= val < Pow2(32)
  }

  /** One test of the search: clear upper bits are shifted out, otherwise the top bit is up there. */
  lemma Halve(v: nat, n: int, val: int, k: nat)
    requires 1 <= k <= 16 && Shifted(v, n, val, 32 - 2 * k)
    ensures if val < Pow2(32 - k) then Shifted(v, n + k, val * Pow2(k), 32 - k) else Shifted(v, n, val, 32 - k)
  {
    if val < Pow2(32 - k) {
      ShlMore(v, n - 1, k);
      Scaled(val, 32 - 2 * k, 32 - k, k);
    }
  }

  lemma {:induction false} ShlMore(v: nat, a: nat, k: nat)
    ensures Shl(v, a + k) == Shl(v, a) * Pow2(k)
  {
    if 0 < k {
      ShlMore(v, a, k - 1);
      Double(Shl(v, a), Pow2(k - 1));
    }
  }

  lemma Double(a: int, b: int)
    ensures 2 * (a * b) == a * (2 * b)
  {
  }

  lemma {:induction false} Scaled(val: int, low: nat, high: nat, k: nat)
    requires Pow2(low) <= val < Pow2(high)
    ensures Pow2(low + k) <= val * Pow2(k) < Pow2(high + k)
  {
    if 0 < k {
      Scaled(val, low, high, k - 1);
      Double(val, Pow2(k - 1));
    }
  }

  /** At the end the top bit is bit 31 or bit 30. */
  lemma TopBit(v: nat, n: int, val: int)
    requires 0 < v && Shifted(v, n, val, 30)
    ensures Log2(v) == if val < Pow2(31) then 31 - n else 32 - n
  {
    TopBitShifted(v, n - 1, if val < Pow2(31) then 30 else 31);
  }

  /** The binary search over the high bits finds the number of leading zeros. */
  method NumberOfLeadingZeros(signedVal: int) returns (n: int)
    requires -0x8000_0000 <= signedVal < 0x8000_0000
    ensures signedVal == 0 ==> n == 32
    ensures signedVal != 0 ==> Log2(ToUnsigned(signedVal)) == 31 - n
  {
    var val: int := ToUnsigned(signedVal);
    if val == 0 {
      return 32;
    }
    ghost var v := val;
    n := 1;
    PowersOfSearch();
    assert Shifted(v, n, val, 0);
    hide Pow2, Log2, Shifted;
    Halve(v, n, val, 16);
    if val < 0x1_0000 { n := n + 16; val := val * 0x1_0000; }
    Halve(v, n, val, 8);
    if val < 0x100_0000 { n := n + 8; val := val * 0x100; }
    Halve(v, n, val, 4);
    if val < 0x1000_0000 { n := n + 4; val := val * 0x10; }
    Halve(v, n, val, 2);
    if val < 0x4000_0000 { n := n + 2; val := val * 4; }
    TopBit(v, n, val);
    if val >= 0x8000_0000 {
      n := n - 1;
    }
  }

  lemma PowersOfSearch()
    ensures Pow2(2) == 4 && Pow2(4) == 0x10 && Pow2(8) == 0x100 && Pow2(16) == 0x1_0000 && Pow2(24) == 0x100_0000
    ensures Pow2(28) == 0x1000_0000 && Pow2(30) == 0x4000_0000 && Pow2(31) == 0x8000_0000 && Pow2(32) == 0x1_0000_0000
    ensures Pow2(0) == 1
  {
    assert Pow2(4) == 0x10;
    Pow2Add(4, 4);
    Pow2Add(8, 8);
    Pow2Add(16, 8);
    Pow2Add(24, 4);
  }

  /** `>>` on a signed integer: the sign bit moves in from the left. */
  function Sar(x: bv32, n: bv32): bv32
    requires n <= 31
  {
    if x & 0x8000_0000 != 0 then !(!x >> n) else x >> n
  }

  /** The two's complement of a negative number. */
  predicate Negative(x: bv32) {
    x & 0x8000_0000 != 0
  }

  /** Smearing the top bit down and adding one: the least power of two not below `val`; zero for
      zero and for negative numbers, whose sign bit smears over all the others. */
  method NextPowerOfTwo(val: bv32) returns (r: bv32)
    requires val <= 0x4000_0000 || 0x8000_0000 < val
    ensures val == 0 || Negative(val) ==> r == 0
    ensures val != 0 && !Negative(val) ==> r != 0 && r & (r - 1) == 0 && val <= r && (r >> 1) < val
  {
    r := val - 1;
    r := r | Sar(r, 1);
    r := r | Sar(r, 2);
    r := r | Sar(r, 4);
    r := r | Sar(r, 8);
    r := r | Sar(r, 16);
    r := r + 1;
  }
}
