/** How request sizes relate to pages and to the chunk. */
module RequestSizes {
  import opened Powers
  import opened ClassMath
  import opened PageClasses

  /** A normal size class is a whole number of pages, exactly one page class, and fits the chunk. */
  lemma NormalRequest(p: nat, o: nat, k: nat)
    requires ValidConfig(p, o) && SmallMaxSizeIdx(p) < k < NSizes(p, o)
    ensures ExactPages(Shr(SizeOf(k), p)) && Shr(SizeOf(k), p) <= Pow2(o)
    ensures Shl(Shr(SizeOf(k), p), p) == SizeOf(k)
  {
    hide Pow2, SizeOf, ExactPages, NSizes, SmallMaxSizeIdx;
    NormalIsExactPages(p, k);
    WholeShift(SizeOf(k), p);
    ClassInChunk(p, o, k);
    ShlOrder(Shr(SizeOf(k), p), Pow2(o), p);
  }

  lemma ClassInChunk(p: nat, o: nat, k: nat)
    requires ValidConfig(p, o) && k < NSizes(p, o)
    ensures SizeOf(k) <= Shl(Pow2(o), p)
  {
    LastSize(p, o);
    hide ClassSize, Pow2;
    if k < NSizes(p, o) - 1 { ClassMonotone(QUANTUM, k, NSizes(p, o) - 1); }
  }

  /** Shifting a multiple of the page down and up again. */
  lemma WholeShift(size: nat, p: nat)
    requires size % Pow2(p) == 0
    ensures Shr(size, p) == size / Pow2(p) && Shl(Shr(size, p), p) == size
  {
    var pages := size / Pow2(p);
    assert size == pages * Pow2(p) + size % Pow2(p);
    ShlIsProduct(pages, p);
    ShrShl(pages, p);
  }

  lemma LastSize(p: nat, o: nat)
    requires ValidConfig(p, o)
    ensures SizeOf(NSizes(p, o) - 1) == Shl(Pow2(o), p)
  {
    var g := p + o - 6;
    assert NSizes(p, o) - 1 == 4 * g + 3;
    ClassSizeFactored(QUANTUM, g, 3);
    Pow2Thrice(p + o);
    ShlIsProduct(Pow2(o), p);
    Pow2Add(o, p);
  }

  /** The classes nearest the chunk size: seven, six and five eighths of it, half of it, and seven, six
      and five sixteenths. */
  lemma LargestClasses(p: nat, o: nat, k: nat)
    requires ValidConfig(p, o) && k < NSizes(p, o)
    ensures var chunk := Shl(Pow2(o), p);
      && SizeOf(k) <= chunk
      && (8 * SizeOf(k) > 7 * chunk ==> SizeOf(k) == chunk)
      && (4 * SizeOf(k) > 3 * chunk ==> 8 * SizeOf(k) >= 7 * chunk)
      && (2 * SizeOf(k) > chunk ==> 8 * SizeOf(k) >= 5 * chunk)
      && (4 * SizeOf(k) > chunk ==> 16 * SizeOf(k) >= 5 * chunk)
  {
    hide ClassSize, Pow2;
    var g := p + o - 6;
    LastSize(p, o);
    TopGroups(g);
    if k < 4 * (g - 2) + 3 { ClassMonotone(QUANTUM, k, 4 * (g - 2) + 3); }
  }

  /** The last two groups of classes, and the class before them, in sixteenths of the last class. */
  lemma TopGroups(g: nat)
    requires 3 <= g
    ensures var u := Pow2(g + 2);
      && SizeOf(4 * g) == 10 * u && SizeOf(4 * g + 1) == 12 * u && SizeOf(4 * g + 2) == 14 * u
      && SizeOf(4 * g + 3) == 16 * u
      && SizeOf(4 * g - 4) == 5 * u && SizeOf(4 * g - 3) == 6 * u && SizeOf(4 * g - 2) == 7 * u
      && SizeOf(4 * g - 1) == 8 * u && SizeOf(4 * g - 5) == 4 * u
  {
    assert Pow2(g + 3) == 2 * Pow2(g + 2) && Pow2(g + 2) == 2 * Pow2(g + 1);
    hide ClassSize, Pow2;
    GroupSizes(g);
    GroupSizes(g - 1);
    ClassSizeFactored(QUANTUM, g - 2, 3);
  }

  lemma GroupSizes(g: nat)
    requires 0 < g
    ensures SizeOf(4 * g) == 5 * Pow2(g + 3) && SizeOf(4 * g + 1) == 6 * Pow2(g + 3)
    ensures SizeOf(4 * g + 2) == 7 * Pow2(g + 3) && SizeOf(4 * g + 3) == 8 * Pow2(g + 3)
  {
    hide ClassSize, Pow2;
    ClassSizeFactored(QUANTUM, g, 0);
    ClassSizeFactored(QUANTUM, g, 1);
    ClassSizeFactored(QUANTUM, g, 2);
    ClassSizeFactored(QUANTUM, g, 3);
  }

  /** A request is pooled exactly if it fits a chunk. */
  lemma RequestClass(p: nat, o: nat, size: nat)
    requires ValidConfig(p, o)
    ensures LeastClass(QUANTUM, size) < NSizes(p, o) <==> size <= Shl(Pow2(o), p)
  {
    LastSize(p, o);
    LeastClassBelow(QUANTUM, size, NSizes(p, o));
  }
}
