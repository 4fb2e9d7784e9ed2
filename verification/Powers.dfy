/** Powers of two and the integer logarithm that shifts and `MathUtils::log2` stand for. */
module Powers {

  function Pow2(n: nat): (r: nat)
    ensures 0 < r
  {
    if n == 0 then 1 else 2 * Pow2(n - 1)
  }

  /** Position of the highest set bit of a positive number. */
  function Log2(v: nat): (r: nat)
    requires 0 < v
    ensures Pow2(r) <= v < Pow2(r + 1)
  {
    if v == 1 then 0 else 1 + Log2(v / 2)
  }

  lemma {:induction false} Pow2Add(a: nat, b: nat)
    ensures Pow2(a + b) == Pow2(a) * Pow2(b)
  {
    if a > 0 {
      Pow2Add(a - 1, b);
      assert Pow2(a + b) == 2 * Pow2(a - 1 + b);
    }
  }

  lemma Pow2Thrice(n: nat)
    requires 3 <= n
    ensures Pow2(n) == 8 * Pow2(n - 3)
  {
    assert Pow2(n) == 2 * Pow2(n - 1) && Pow2(n - 1) == 2 * Pow2(n - 2);
  }

  lemma {:induction false} Pow2Monotone(a: nat, b: nat)
    requires a <= b
    ensures Pow2(a) <= Pow2(b)
    ensures a < b ==> Pow2(a) < Pow2(b)
  {
    if a < b {
      Pow2Monotone(a, b - 1);
    }
  }

  lemma Log2Unique(v: nat, r: nat)
    requires 0 < v && Pow2(r) <= v < Pow2(r + 1)
    ensures Log2(v) == r
  {
    var x := Log2(v);
    if x < r {
      Pow2Monotone(x + 1, r);
    } else if r < x {
      Pow2Monotone(r + 1, x);
    }
  }

  /** `log2((v << 1) - 1)` rounds the exponent up. */
  lemma Log2Ceiling(v: nat)
    requires 0 < v
    ensures v <= Pow2(Log2(2 * v - 1))
    ensures 1 < v ==> 0 < Log2(2 * v - 1) && Pow2(Log2(2 * v - 1) - 1) < v
  {
    HalveBounds(v, Log2(2 * v - 1));
  }

  lemma HalveBounds(v: nat, x: nat)
    requires 0 < v && Pow2(x) <= 2 * v - 1 < Pow2(x + 1)
    ensures v <= Pow2(x)
    ensures 1 < v ==> 0 < x && Pow2(x - 1) < v
  {
  }

  // ---------------------------------------------------------------- division

  lemma Quotient(a: nat, d: nat, lo: nat, hi: nat)
    requires 0 < d && lo * d <= a < hi * d
    ensures lo <= a / d < hi
    ensures a / d * d <= a < (a / d + 1) * d
  {
    var t := a / d;
    assert a == t * d + a % d;
    Cancel(lo, t + 1, d);
    Cancel(t, hi, d);
  }

  lemma ScaleOrder(a: nat, b: nat, d: nat)
    ensures a <= b ==> a * d <= b * d
    ensures a < b && 0 < d ==> a * d < b * d
  {
  }

  lemma Cancel(a: nat, b: nat, d: nat)
    requires 0 < d && a * d < b * d
    ensures a < b
  {
    assert b <= a ==> b * d <= a * d;
  }

  lemma DivUnique(a: nat, d: nat, q: nat)
    requires 0 < d && q * d <= a < (q + 1) * d
    ensures a / d == q
  {
    Quotient(a, d, q, q + 1);
  }

  lemma DivMul(q: nat, d: nat)
    requires 0 < d
    ensures q * d / d == q && q * d % d == 0
  {
    DivUnique(q * d, d, q);
    assert q * d == (q * d) / d * d + (q * d) % d;
  }

  // ---------------------------------------------------------------- shifts

  /** `n << k`, by doubling. */
  function Shl(n: int, k: nat): (r: int)
    ensures 0 <= n ==> n <= r
  {
    if k == 0 then n else 2 * Shl(n, k - 1)
  }

  /** `n >> k` of a non-negative number, by halving. */
  function Shr(n: nat, k: nat): nat {
    if k == 0 then n else Shr(n / 2, k - 1)
  }

  lemma {:induction false} ShlIsProduct(n: int, k: nat)
    ensures Shl(n, k) == n * Pow2(k)
  {
    if k > 0 {
      ShlIsProduct(n, k - 1);
    }
  }

  lemma {:induction false} ShlAdd(a: int, b: int, k: nat)
    ensures Shl(a + b, k) == Shl(a, k) + Shl(b, k)
  {
    if k > 0 {
      ShlAdd(a, b, k - 1);
    }
  }

  lemma {:induction false} ShlOrder(a: int, b: int, k: nat)
    ensures Shl(a, k) <= Shl(b, k) <==> a <= b
  {
    if k > 0 {
      ShlOrder(a, b, k - 1);
    }
  }

  lemma {:induction false} ShrShl(n: nat, k: nat)
    ensures Shr(Shl(n, k), k) == n
  {
    if k > 0 {
      ShrShl(n, k - 1);
    }
  }
}
