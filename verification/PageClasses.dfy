/** Which byte classes are whole numbers of pages, and page classes counted in pages. */
module PageClasses {
  import opened Powers
  import opened ClassMath

  const QUANTUM := 4
  const SEARCH_MAX := 4096
  const LAST_SEARCHED := 27

  predicate ValidConfig(pageShifts: nat, maxOrder: nat) {
    12 <= pageShifts && 3 <= maxOrder <= 13
  }

  function SizeOf(sizeIdx: nat): nat {
    ClassSize(QUANTUM, sizeIdx)
  }

  function NSizes(pageShifts: nat, maxOrder: nat): nat
    requires ValidConfig(pageShifts, maxOrder)
  {
    4 * (pageShifts + maxOrder - 5)
  }

  function NPSizes(maxOrder: nat): nat
    requires 3 <= maxOrder
  {
    4 * (maxOrder - 1)
  }

  function SmallMaxSizeIdx(pageShifts: nat): nat
    requires 12 <= pageShifts
  {
    4 * (pageShifts - 4) + 2
  }

  /** Pages of page class `j`; `pageIdx2size` is this many pages. */
  function PagesOf(j: nat): nat {
    ClassSize(0, j)
  }

  function PageIdx(pages: nat): nat {
    LeastClass(0, pages)
  }

  function PageIdxFloor(pages: nat): (j: nat)
    requires 0 < pages
    ensures PagesOf(j) <= pages < PagesOf(j + 1)
  {
    ClassStep(0, PageIdx(pages));
    if PagesOf(PageIdx(pages)) > pages then PageIdx(pages) - 1 else PageIdx(pages)
  }

  /** A page count that is itself a class. */
  predicate ExactPages(pages: nat) {
    0 < pages && PagesOf(PageIdx(pages)) == pages
  }

  lemma FloorOfExact(pages: nat)
    requires ExactPages(pages)
    ensures PageIdxFloor(pages) == PageIdx(pages)
  {
  }

  /** Runs at least as large as an exact class are filed at or above it, smaller ones below. */
  lemma FloorAgainstExact(need: nat, pages: nat)
    requires ExactPages(need) && 0 < pages
    ensures need <= pages <==> PageIdx(need) <= PageIdxFloor(pages)
  {
    var i, j := PageIdx(need), PageIdxFloor(pages);
    if i < j {
      ClassMonotone(0, i, j);
    } else if j + 1 < i {
      ClassMonotone(0, j + 1, i);
    }
  }

  lemma LastPageClass(maxOrder: nat)
    requires 3 <= maxOrder
    ensures PagesOf(NPSizes(maxOrder) - 1) == Pow2(maxOrder)
  {
    assert NPSizes(maxOrder) - 1 == 4 * (maxOrder - 2) + 3;
    ClassSizeFactored(0, maxOrder - 2, 3);
    Pow2Thrice(maxOrder);
  }

  lemma ClassIsExact(j: nat, pages: nat)
    requires PagesOf(j) == pages
    ensures PageIdx(pages) == j && ExactPages(pages)
  {
    LeastClassOfClass(0, j);
  }

  lemma WholeChunkClass(maxOrder: nat)
    requires 3 <= maxOrder
    ensures PageIdx(Pow2(maxOrder)) == NPSizes(maxOrder) - 1
    ensures ExactPages(Pow2(maxOrder))
  {
    LastPageClass(maxOrder);
    ClassIsExact(NPSizes(maxOrder) - 1, Pow2(maxOrder));
  }

  lemma FloorInRange(pages: nat, maxOrder: nat)
    requires 0 < pages <= Pow2(maxOrder) && 3 <= maxOrder
    ensures PageIdxFloor(pages) < NPSizes(maxOrder)
  {
    LastPageClass(maxOrder);
    var last := NPSizes(maxOrder) - 1;
    if last < PageIdxFloor(pages) { ClassMonotone(0, last, PageIdxFloor(pages)); }
  }

  // ------------------------------------------------ quantum p classes are quantum 0 classes times the page

  lemma {:induction false} ClassSizeScales(pageShifts: nat, j: nat)
    ensures ClassSize(pageShifts, j) == PagesOf(j) * Pow2(pageShifts)
  {
    if 8 <= j {
      ClassSizeScales(pageShifts, j - 4);
      DoubleProduct(PagesOf(j - 4), Pow2(pageShifts));
    }
  }

  lemma DoubleProduct(a: nat, d: nat)
    ensures 2 * (a * d) == (2 * a) * d
  {
  }

  /** The code works on `pages << pageShifts`; the class found does not depend on the page size. */
  lemma LeastClassOfPages(pageShifts: nat, pages: nat)
    ensures LeastClass(pageShifts, pages * Pow2(pageShifts)) == PageIdx(pages)
  {
    LeastClassScales(pageShifts, PageIdx(pages), pages, pages * Pow2(pageShifts));
    LeastClassIs(pageShifts, pages * Pow2(pageShifts), PageIdx(pages));
  }

  lemma LeastClassScales(pageShifts: nat, j: nat, pages: nat, size: nat)
    requires IsLeastClass(0, j, pages) && size == pages * Pow2(pageShifts)
    ensures IsLeastClass(pageShifts, j, size)
  {
    ClassSizeScales(pageShifts, j);
    ScaleOrder(pages, PagesOf(j), Pow2(pageShifts));
    if 0 < j {
      ClassSizeScales(pageShifts, j - 1);
      ScaleOrder(PagesOf(j - 1), pages, Pow2(pageShifts));
    }
  }

  // ------------------------------------------------ byte classes that are whole pages

  /** How many of the byte classes below `i` are whole pages. */
  function PageRank(pageShifts: nat, i: nat): nat
    requires 12 <= pageShifts
  {
    if i <= 4 * (pageShifts - 6) + 3 then 0
    else if i <= 4 * (pageShifts - 5) + 3 then 1
    else if i <= 4 * (pageShifts - 4) + 1 then 2
    else if i <= 4 * (pageShifts - 4) + 3 then 3
    else 4 + (i - 4 * (pageShifts - 3))
  }

  predicate WholePages(pageShifts: nat, i: nat) {
    SizeOf(i) % Pow2(pageShifts) == 0
  }

  lemma ModBetween(a: nat, d: nat, q: nat)
    requires q * d < a < (q + 1) * d
    ensures a % d != 0
  {
    DivUnique(a, d, q);
    assert a == a / d * d + a % d;
  }

  ghost predicate RankStep(pageShifts: nat, i: nat)
    requires 12 <= pageShifts
  {
    && PageRank(pageShifts, i + 1) == PageRank(pageShifts, i) + (if WholePages(pageShifts, i) then 1 else 0)
    && (WholePages(pageShifts, i) ==> SizeOf(i) == ClassSize(pageShifts, PageRank(pageShifts, i)))
  }

  lemma RankSmall(pageShifts: nat, i: nat)
    requires 12 <= pageShifts && i < 4 * (pageShifts - 6) + 3
    ensures RankStep(pageShifts, i)
  {
    ClassMonotone(QUANTUM, i, 4 * (pageShifts - 6) + 3);
    ClassSizeFactored(QUANTUM, pageShifts - 6, 3);
    Pow2Thrice(pageShifts);
    ClassStep(QUANTUM, i);
    ModBetween(SizeOf(i), Pow2(pageShifts), 0);
  }

  lemma RankFirst(pageShifts: nat, i: nat)
    requires 12 <= pageShifts && i == 4 * (pageShifts - 6) + 3
    ensures RankStep(pageShifts, i)
  {
    hide ClassSize, Pow2;
    Pow2Thrice(pageShifts);
    ClassSizeFactored(pageShifts, 0, 0);
    ClassSizeFactored(QUANTUM, pageShifts - 6, 3);
    DivMul(1, Pow2(pageShifts));
  }

  lemma RankMiddle(pageShifts: nat, i: nat)
    requires 12 <= pageShifts && 4 * (pageShifts - 5) <= i < 4 * (pageShifts - 4)
    ensures RankStep(pageShifts, i)
  {
    hide ClassSize;
    var d, m := Pow2(pageShifts), i - 4 * (pageShifts - 5);
    assert d == 2 * Pow2(pageShifts - 1) && Pow2(pageShifts - 1) == 2 * Pow2(pageShifts - 2);
    ClassSizeFactored(pageShifts, 0, 1);
    ClassSizeFactored(QUANTUM, pageShifts - 5, m);
    hide Pow2;
    if m == 3 {
      DivMul(2, d);
    } else {
      ModBetween(SizeOf(i), d, 1);
    }
  }

  lemma RankUpper(pageShifts: nat, i: nat)
    requires 12 <= pageShifts && 4 * (pageShifts - 4) <= i < 4 * (pageShifts - 3)
    ensures RankStep(pageShifts, i)
  {
    var d := Pow2(pageShifts);
    assert d == 2 * Pow2(pageShifts - 1);
    ClassSizeFactored(pageShifts, 0, 2);
    ClassSizeFactored(pageShifts, 0, 3);
    ClassSizeFactored(QUANTUM, i / 4, i % 4);
    if i % 4 == 1 {
      DivMul(3, d);
    } else if i % 4 == 3 {
      DivMul(4, d);
    } else if i % 4 == 0 {
      ModBetween(SizeOf(i), d, 2);
    } else {
      ModBetween(SizeOf(i), d, 3);
    }
  }

  lemma RankLarge(pageShifts: nat, i: nat)
    requires 12 <= pageShifts && 4 * (pageShifts - 3) <= i
    ensures RankStep(pageShifts, i) && WholePages(pageShifts, i)
  {
    var g, m := i / 4, i % 4;
    assert i == 4 * g + m;
    ClassSizeFactored(QUANTUM, g, m);
    var pg := g + 4 - pageShifts;
    assert PageRank(pageShifts, i) == 4 * pg + m;
    ClassSizeFactored(pageShifts, pg, m);
    ClassSizeScales(pageShifts, 4 * pg + m);
    DivMul(PagesOf(4 * pg + m), Pow2(pageShifts));
  }

  lemma RankStepHolds(pageShifts: nat, i: nat)
    requires 12 <= pageShifts
    ensures RankStep(pageShifts, i)
  {
    if i < 4 * (pageShifts - 6) + 3 {
      RankSmall(pageShifts, i);
    } else if i == 4 * (pageShifts - 6) + 3 {
      RankFirst(pageShifts, i);
    } else if i < 4 * (pageShifts - 4) {
      RankMiddle(pageShifts, i);
    } else if i < 4 * (pageShifts - 3) {
      RankUpper(pageShifts, i);
    } else {
      RankLarge(pageShifts, i);
    }
  }

  /** Every class above the small ones is a whole, exact page class: what reaches
      `allocateRun` for a normal request needs no rounding. */
  lemma NormalIsExactPages(pageShifts: nat, sizeIdx: nat)
    requires 12 <= pageShifts && SmallMaxSizeIdx(pageShifts) < sizeIdx
    ensures SizeOf(sizeIdx) % Pow2(pageShifts) == 0
    ensures ExactPages(SizeOf(sizeIdx) / Pow2(pageShifts))
  {
    RankStepHolds(pageShifts, sizeIdx);
    if 4 * (pageShifts - 3) <= sizeIdx {
      RankLarge(pageShifts, sizeIdx);
    }
    var j := PageRank(pageShifts, sizeIdx);
    assert PageRank(pageShifts, sizeIdx + 1) == j + 1;
    ClassSizeScales(pageShifts, j);
    DivMul(PagesOf(j), Pow2(pageShifts));
    LeastClassOfClass(0, j);
  }
}
