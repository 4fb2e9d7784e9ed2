/** `PoolChunk::calculateRunSize`: the run behind a subpage is the least common multiple of the
    page and the element. */
module RunSizing {
  import opened Powers
  import opened ClassMath
  import opened PageClasses

  /** A small class divides a few pages: `c` pages are `n` elements, `c` at most seven and `n`
      within the bitmap. */
  ghost predicate Tiles(pageSize: nat, elemSize: nat, limit: nat, c: nat, n: nat) {
    1 <= c <= 7 && 1 <= n <= limit && c * pageSize == n * elemSize
  }

  lemma TilesByExponent(pageShifts: nat, elemSize: nat, c: nat, e: nat)
    requires 4 <= e <= pageShifts && 1 <= c <= 7 && elemSize == c * Pow2(e)
    ensures Tiles(Pow2(pageShifts), elemSize, Pow2(pageShifts - 4), c, Pow2(pageShifts - e))
  {
    hide Pow2;
    Pow2Add(pageShifts - e, e);
    Pow2Monotone(pageShifts - e, pageShifts - 4);
    FactorsCommute(Pow2(pageShifts - e), c, Pow2(e));
  }

  lemma FactorsCommute(n: nat, c: nat, d: nat)
    ensures n * (c * d) == c * (n * d)
  {
  }

  lemma TilesSmall(pageShifts: nat, sizeIdx: nat) returns (c: nat, n: nat)
    requires 12 <= pageShifts && sizeIdx <= SmallMaxSizeIdx(pageShifts)
    ensures Tiles(Pow2(pageShifts), SizeOf(sizeIdx), Pow2(pageShifts - 4), c, n)
  {
    var g, m := sizeIdx / 4, sizeIdx % 4;
    assert sizeIdx == 4 * g + m;
    ClassSizeFactored(QUANTUM, g, m);
    if g == 0 {
      TilesByExponent(pageShifts, SizeOf(sizeIdx), m + 1, 4);
      c, n := m + 1, Pow2(pageShifts - 4);
    } else if m < 3 {
      TilesByExponent(pageShifts, SizeOf(sizeIdx), 5 + m, g + 3);
      c, n := 5 + m, Pow2(pageShifts - (g + 3));
    } else if g + 6 <= pageShifts {
      Pow2Thrice(g + 6);
      TilesByExponent(pageShifts, SizeOf(sizeIdx), 1, g + 6);
      c, n := 1, Pow2(pageShifts - (g + 6));
    } else {
      Pow2Thrice(g + 6);
      assert g + 6 == pageShifts + 1;
      Pow2Monotone(0, pageShifts - 4);
      c, n := 2, 1;
    }
  }

  /** Up to `c` pages, the element count stays under the limit until the division is exact. */
  lemma Progress(pageSize: nat, elemSize: nat, limit: nat, c: nat, n: nat, k: nat)
    requires 0 < pageSize && 0 < elemSize && Tiles(pageSize, elemSize, limit, c, n) && 1 <= k <= c
    ensures var elements := k * pageSize / elemSize;
      && elements <= limit
      && (k * pageSize == elements * elemSize <==> k * pageSize % elemSize == 0)
      && (k < c && elements >= limit ==> false)
      && (k == c ==> k * pageSize % elemSize == 0)
  {
    ScaleOrder(k, c, pageSize);
    QuotientBelow(k * pageSize, elemSize, n);
  }

  lemma QuotientBelow(total: nat, elemSize: nat, n: nat)
    requires 0 < elemSize && total <= n * elemSize
    ensures total == total / elemSize * elemSize <==> total % elemSize == 0
    ensures total / elemSize <= n && (total < n * elemSize ==> total / elemSize < n)
    ensures total == n * elemSize ==> total % elemSize == 0
  {
    var elements := total / elemSize;
    assert total == elements * elemSize + total % elemSize;
    ScaleOrder(n, elements, elemSize);
    DivMul(n, elemSize);
  }

  function Elements(runSize: nat, elemSize: nat): nat
    requires 0 < elemSize
  {
    runSize / elemSize
  }

  predicate Whole(runSize: nat, elements: nat, elemSize: nat) {
    runSize == elements * elemSize
  }

  /** The search after `k` pages: no fewer pages divide evenly. */
  ghost predicate Searched(pageSize: nat, elemSize: nat, k: nat, runSize: nat, elements: nat)
    requires 0 < elemSize
  {
    && runSize == k * pageSize && elements == runSize / elemSize
    && forall j | 0 < j < k :: j * pageSize % elemSize != 0
  }

  /** As long as the loop goes on, `c` pages are not reached. */
  lemma NextPage(pageSize: nat, elemSize: nat, limit: nat, c: nat, n: nat, k: nat, runSize: nat, elements: nat)
    requires 0 < pageSize && 0 < elemSize && Tiles(pageSize, elemSize, limit, c, n) && 1 <= k <= c
    requires Searched(pageSize, elemSize, k, runSize, elements) && !Whole(runSize, elements, elemSize)
    ensures k < c && Searched(pageSize, elemSize, k + 1, runSize + pageSize, Elements(runSize + pageSize, elemSize))
  {
    Progress(pageSize, elemSize, limit, c, n, k);
    assert (k + 1) * pageSize == runSize + pageSize;
  }

  /** When it stops, the division is exact: the element limit did not cut the search short. */
  lemma LastPage(pageSize: nat, elemSize: nat, limit: nat, c: nat, n: nat, k: nat, runSize: nat, elements: nat)
    requires 0 < pageSize && 0 < elemSize && Tiles(pageSize, elemSize, limit, c, n) && 1 <= k <= c
    requires Searched(pageSize, elemSize, k, runSize, elements)
    requires limit <= elements || Whole(runSize, elements, elemSize)
    ensures runSize % elemSize == 0 && 1 <= elements <= limit && k <= 7
  {
    Progress(pageSize, elemSize, limit, c, n, k);
    ScaleOrder(1, k, pageSize);
    assert elements == 0 ==> runSize == elements * elemSize + runSize % elemSize;
  }

  /** `calculateRunSize` ends at the least common multiple: the element limit never cuts the
      search short, and the loop that would shrink the run again has nothing to do. */
  method CalculateRunSize(pageShifts: nat, sizeIdx: nat) returns (runSize: nat, ghost pages: nat)
    requires 12 <= pageShifts && sizeIdx <= SmallMaxSizeIdx(pageShifts)
    ensures 1 <= pages <= 7 && runSize == pages * Pow2(pageShifts)
    ensures runSize % SizeOf(sizeIdx) == 0
    ensures forall j | 0 < j < pages :: j * Pow2(pageShifts) % SizeOf(sizeIdx) != 0
    ensures 1 <= runSize / SizeOf(sizeIdx) <= Pow2(pageShifts - 4)
    ensures runSize / SizeOf(sizeIdx) == 1 <==> SizeOf(sizeIdx) % Pow2(pageShifts) == 0
  {
    var nElements: nat;
    runSize, nElements, pages := SearchRunSize(Pow2(pageShifts), Pow2(pageShifts - QUANTUM), pageShifts, sizeIdx);
    RunSizeIsNeeded(pageShifts, sizeIdx, pages, runSize);
    OneElementIff(pageShifts, sizeIdx, pages);
    OneIfEqual(runSize, SizeOf(sizeIdx));
  }

  lemma OneIfEqual(runSize: nat, elemSize: nat)
    requires 0 < elemSize && runSize % elemSize == 0
    ensures runSize / elemSize == 1 <==> runSize == elemSize
  {
    assert runSize == runSize / elemSize * elemSize + runSize % elemSize;
    if runSize == elemSize { DivMul(1, elemSize); }
  }

  method SearchRunSize(pageSize: nat, maxElements: nat, ghost pageShifts: nat, sizeIdx: nat)
    returns (runSize: nat, nElements: nat, ghost pages: nat)
    requires 12 <= pageShifts && sizeIdx <= SmallMaxSizeIdx(pageShifts)
    requires pageSize == Pow2(pageShifts) && maxElements == Pow2(pageShifts - QUANTUM)
    ensures 1 <= pages <= 7 && Searched(pageSize, SizeOf(sizeIdx), pages, runSize, nElements)
    ensures runSize % SizeOf(sizeIdx) == 0 && 1 <= nElements <= maxElements
  {
    hide Pow2, SizeOf, Tiles, Searched, Elements, Whole;
    var elemSize := SizeOf(sizeIdx);
    ghost var c, n := TilesSmall(pageShifts, sizeIdx);
    TilesBound(pageSize, elemSize, maxElements, c, n);
    FirstPage(pageSize, elemSize);
    runSize := pageSize;
    nElements := Elements(runSize, elemSize);
    pages := 1;
    while nElements < maxElements && !Whole(runSize, nElements, elemSize)
      invariant 1 <= pages <= c && Searched(pageSize, elemSize, pages, runSize, nElements)
      decreases c - pages
    {
      NextPage(pageSize, elemSize, maxElements, c, n, pages, runSize, nElements);
      runSize := runSize + pageSize;
      nElements := Elements(runSize, elemSize);
      pages := pages + 1;
    }
    LastPage(pageSize, elemSize, maxElements, c, n, pages, runSize, nElements);
    // the correcting loop of the source starts only above the limit
    assert nElements <= maxElements;
  }

  lemma FirstPage(pageSize: nat, elemSize: nat)
    requires 0 < elemSize
    ensures Searched(pageSize, elemSize, 1, pageSize, Elements(pageSize, elemSize))
  {
  }

  lemma TilesBound(pageSize: nat, elemSize: nat, limit: nat, c: nat, n: nat)
    requires Tiles(pageSize, elemSize, limit, c, n)
    ensures 1 <= c <= 7 && 1 <= n
  {
  }

  lemma RunIsExactPages(pages: nat, maxOrder: nat)
    requires 1 <= pages <= 7 && 3 <= maxOrder
    ensures ExactPages(pages) && pages <= Pow2(maxOrder)
  {
    ClassIsExact(pages - 1, pages);
    Pow2Monotone(3, maxOrder);
    assert Pow2(3) == 8;
  }

  // ---------------------------------------------------------------- what a request takes from a chunk

  predicate EvenPages(p: nat, k: nat, n: nat) {
    n * Pow2(p) % SizeOf(k) == 0
  }

  /** `n` pages are what a request of class `k` takes from a chunk: the size itself, or for a small
      class the least run its elements tile. */
  ghost predicate NeedsPages(p: nat, k: nat, n: nat) {
    && 12 <= p && 0 < n
    && if k <= SmallMaxSizeIdx(p) then EvenPages(p, k, n) && forall j | 0 < j < n :: !EvenPages(p, k, j)
       else n * Pow2(p) == SizeOf(k)
  }

  lemma RunSizeIsNeeded(p: nat, k: nat, pages: nat, runSize: nat)
    requires 12 <= p && k <= SmallMaxSizeIdx(p) && 1 <= pages && runSize == pages * Pow2(p)
    requires runSize % SizeOf(k) == 0 && forall j | 0 < j < pages :: j * Pow2(p) % SizeOf(k) != 0
    ensures NeedsPages(p, k, pages)
  {
  }

  /** The least multiple from `n` on. */
  lemma {:induction false} LeastFrom(p: nat, k: nat, n: nat, c: nat) returns (pages: nat)
    requires 12 <= p && k <= SmallMaxSizeIdx(p) && 0 < n <= c && EvenPages(p, k, c)
    requires forall j | 0 < j < n :: !EvenPages(p, k, j)
    ensures n <= pages <= c && NeedsPages(p, k, pages)
    decreases c - n
  {
    hide EvenPages;
    if EvenPages(p, k, n) {
      pages := n;
    } else {
      pages := LeastFrom(p, k, n + 1, c);
    }
  }

  lemma SmallNeeds(p: nat, k: nat) returns (pages: nat)
    requires 12 <= p && k <= SmallMaxSizeIdx(p)
    ensures NeedsPages(p, k, pages) && pages <= 7
  {
    var c, n := TilesSmall(p, k);
    DivMul(n, SizeOf(k));
    assert EvenPages(p, k, c);
    pages := LeastFrom(p, k, 1, c);
  }

  /** The run a class needs is determined. */
  lemma NeedsUnique(p: nat, k: nat, m: nat, n: nat)
    requires 12 <= p && k <= SmallMaxSizeIdx(p) && NeedsPages(p, k, m) && NeedsPages(p, k, n)
    ensures m == n
  {
    hide EvenPages;
  }

  /** A small class has its run to itself, one element to a run, exactly if its size is whole pages. */
  lemma OneElementIff(p: nat, k: nat, pages: nat)
    requires 12 <= p && k <= SmallMaxSizeIdx(p) && NeedsPages(p, k, pages)
    ensures pages * Pow2(p) == SizeOf(k) <==> SizeOf(k) % Pow2(p) == 0
  {
    hide NeedsPages, Pow2, SizeOf;
    if SizeOf(k) % Pow2(p) == 0 {
      var n := WholeQuotient(SizeOf(k), Pow2(p));
      WholePagesNeed(p, k, n);
      NeedsUnique(p, k, n, pages);
    } else {
      DivMul(pages, Pow2(p));
    }
  }

  lemma WholeQuotient(a: nat, d: nat) returns (n: nat)
    requires 0 < d && a % d == 0
    ensures a == n * d
  {
    n := a / d;
    assert a == n * d + a % d;
  }

  lemma WholePagesNeed(p: nat, k: nat, n: nat)
    requires 12 <= p && k <= SmallMaxSizeIdx(p) && SizeOf(k) == n * Pow2(p)
    ensures NeedsPages(p, k, n)
  {
    assert n == 0 ==> SizeOf(k) == 0;
    DivMul(1, SizeOf(k));
    forall j | 0 < j < n ensures !EvenPages(p, k, j) {
      ScaleOrder(0, j, Pow2(p));
      ScaleOrder(j, n, Pow2(p));
      ModBetween(j * Pow2(p), SizeOf(k), 0);
    }
  }

  /** The small classes of whole pages are those of one, two and three pages. */
  lemma SmallWholePages(p: nat, k: nat)
    requires 12 <= p && k <= SmallMaxSizeIdx(p)
    ensures SizeOf(k) % Pow2(p) == 0 <==> SizeOf(k) in {Pow2(p), 2 * Pow2(p), 3 * Pow2(p)}
  {
    RankStepHolds(p, k);
    ClassSizeScales(p, PageRank(p, k));
    assert PagesOf(0) == 1 && PagesOf(1) == 2 && PagesOf(2) == 3;
    hide ClassSize, Pow2, RankStep;
    DivMul(1, Pow2(p));
    DivMul(2, Pow2(p));
    DivMul(3, Pow2(p));
  }
}
