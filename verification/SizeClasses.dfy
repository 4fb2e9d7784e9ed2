/** `SizeClass`: the lookup tables and the functions that read them. */
module SizeClasses {
  import opened Powers
  import opened ClassMath
  import opened PageClasses

  const LOG2_SIZE_CLASS_GROUP := 2
  const LOG2_MAX_SEARCH_SIZE := 12

  datatype Row = Row(index: nat, log2Group: nat, log2Delta: nat, nDelta: nat,
                     isMultiPage: bool, isSubpage: bool, log2SearchDelta: nat)

  function Log2GroupOf(i: nat): nat { if i < 4 then QUANTUM else i / 4 + 5 }
  function Log2DeltaOf(i: nat): nat { if i < 4 then QUANTUM else i / 4 + 3 }
  function NDeltaOf(i: nat): nat { if i < 4 then i else i % 4 + 1 }

  /** What row `i` of the class table means. */
  ghost predicate RowFor(pageShifts: nat, row: Row, i: nat)
    requires 12 <= pageShifts
  {
    && row.index == i
    && row.log2Group == Log2GroupOf(i) && row.log2Delta == Log2DeltaOf(i) && row.nDelta == NDeltaOf(i)
    && (row.isMultiPage <==> WholePages(pageShifts, i))
    && (row.isSubpage <==> i <= SmallMaxSizeIdx(pageShifts))
    && (row.log2SearchDelta != 0 <==> i <= LAST_SEARCHED)
  }

  function Min(a: nat, b: nat): nat { if a < b then a else b }

  /** Size by group, spacing and position, as `sizeClass` computes it. */
  lemma RowSize(i: nat)
    ensures Pow2(Log2GroupOf(i)) + Pow2(Log2DeltaOf(i)) * NDeltaOf(i) == SizeOf(i)
  {
    ClassSizeFactored(QUANTUM, i / 4, i % 4);
    assert i == 4 * (i / 4) + i % 4;
    if 4 <= i {
      var d := Pow2(i / 4 + 3);
      assert Pow2(i / 4 + 5) == 4 * d by { assert Pow2(i / 4 + 5) == 2 * Pow2(i / 4 + 4); }
    }
  }

  lemma {:induction false} RowSpacing(i: nat)
    ensures 0 < i ==> SizeOf(i) == SizeOf(i - 1) + Pow2(Log2DeltaOf(i))
    ensures i == 0 ==> SizeOf(i) == Pow2(Log2DeltaOf(i))
  {
    if 8 < i {
      RowSpacing(i - 4);
      assert Pow2(Log2DeltaOf(i)) == 2 * Pow2(Log2DeltaOf(i - 4));
    } else if i == 8 {
      assert Pow2(5) == 2 * Pow2(4);
    }
  }

  lemma GroupEnd(group: nat)
    requires 0 < group
    ensures SizeOf(4 * group - 1) == Pow2(group + 5)
  {
    assert 4 * group - 1 == 4 * (group - 1) + 3;
    ClassSizeFactored(QUANTUM, group - 1, 3);
    if 1 < group { Pow2Thrice(group + 5); }
  }

  lemma SearchMaxIs()
    ensures SizeOf(LAST_SEARCHED) == SEARCH_MAX
  {
    GroupEnd(7);
    assert Pow2(12) == 4096;
  }

  lemma Log2OfSmall()
    ensures Log2(1) == 0 && Log2(2) == 1 && Log2(3) == 1 && Log2(4) == 2
  {
  }

  /** The exponent of a class size and the mark on it, from row position alone. */
  function Log2SizeOf(i: nat): nat {
    if i < 2 then 5 else if i < 4 then 4 else i / 4 + 5 + (if i % 4 == 3 then 1 else 0)
  }

  class SizeClass {
    const pageSize: nat
    const pageShifts: nat
    const chunkSize: nat
    ghost const maxOrder: nat
    var searchMaxSize: nat
    var nSizes: nat
    var nSubpages: nat
    var nPSizes: nat
    var smallMaxSizeIdx: nat
    var rows: array<Row>
    var pageIdx2sizeTab: array<nat>
    var sizeIdx2sizeTab: array<nat>
    var size2idxTab: array<nat>

    ghost predicate Configured() {
      && ValidConfig(pageShifts, maxOrder)
      && pageSize == Pow2(pageShifts) && chunkSize == Pow2(pageShifts + maxOrder)
    }

    /** The counters after the first `i` classes. */
    ghost predicate CountersAt(i: nat)
      requires Configured()
      reads this
    {
      && nPSizes == PageRank(pageShifts, i)
      && nSubpages == Min(i, SmallMaxSizeIdx(pageShifts) + 1)
      && smallMaxSizeIdx == (if i == 0 then 0 else Min(i - 1, SmallMaxSizeIdx(pageShifts)))
      && searchMaxSize == (if i == 0 then 0 else SizeOf(Min(i - 1, LAST_SEARCHED)))
    }

    ghost predicate RowsFilled(n: nat)
      requires Configured()
      reads this, rows
    {
      && n <= rows.Length
      && forall i | 0 <= i < n :: RowFor(pageShifts, rows[i], i)
    }

    /** The tables say what the size law says. */
    ghost predicate Valid()
      reads this, pageIdx2sizeTab, sizeIdx2sizeTab, size2idxTab
    {
      && Configured()
      && nSizes == NSizes(pageShifts, maxOrder) && nPSizes == NPSizes(maxOrder)
      && smallMaxSizeIdx == SmallMaxSizeIdx(pageShifts) && nSubpages == smallMaxSizeIdx + 1
      && searchMaxSize == SEARCH_MAX
      && sizeIdx2sizeTab.Length == nSizes
      && (forall i | 0 <= i < nSizes :: sizeIdx2sizeTab[i] == SizeOf(i))
      && pageIdx2sizeTab.Length == nPSizes
      && (forall j | 0 <= j < nPSizes :: pageIdx2sizeTab[j] == PagesOf(j) * pageSize)
      && size2idxTab.Length == SEARCH_MAX / 16
      && (forall k | 0 <= k < SEARCH_MAX / 16 :: size2idxTab[k] == LeastClass(QUANTUM, 16 * (k + 1)))
    }

    method ClassRow(index: nat, log2Group: nat, log2Delta: nat, nDelta: nat, size: nat) returns (row: Row)
      requires Configured()
      requires log2Group == Log2GroupOf(index) && log2Delta == Log2DeltaOf(index) && nDelta == NDeltaOf(index)
      requires size == SizeOf(index)
      ensures RowFor(pageShifts, row, index)
    {
      var isMultiPage := log2Delta >= pageShifts || size % Pow2(pageShifts) == 0;
      if log2Delta >= pageShifts {
        RankLarge(pageShifts, index);
      }
      Log2OfSmall();
      var log2nDelta := if nDelta == 0 then 0 else Log2(nDelta);
      var mark := Pow2(log2nDelta) < nDelta;
      var log2size := if log2nDelta + log2Delta == log2Group then log2Group + 1 else log2Group;
      if log2size == log2Group {
        mark := true;
      }
      assert log2size == Log2SizeOf(index);
      var isSubpage := log2size < pageShifts + LOG2_SIZE_CLASS_GROUP;
      var log2SearchDelta :=
        if log2size < LOG2_MAX_SEARCH_SIZE || (log2size == LOG2_MAX_SEARCH_SIZE && !mark) then log2Delta else 0;
      row := Row(index, log2Group, log2Delta, nDelta, isMultiPage, isSubpage, log2SearchDelta);
    }

    method AddClass(index: nat, log2Group: nat, log2Delta: nat, nDelta: nat) returns (size: nat)
      requires Configured() && CountersAt(index) && RowsFilled(index) && index < rows.Length
      requires log2Group == Log2GroupOf(index) && log2Delta == Log2DeltaOf(index) && nDelta == NDeltaOf(index)
      modifies this`searchMaxSize, this`nSubpages, this`nPSizes, this`smallMaxSizeIdx, rows
      ensures size == SizeOf(index)
      ensures CountersAt(index + 1) && RowsFilled(index + 1)
    {
      hide Pow2, SizeOf, PageRank, Log2GroupOf, Log2DeltaOf, NDeltaOf;
      size := Pow2(log2Group) + Pow2(log2Delta) * nDelta;
      RowSize(index);
      var row := ClassRow(index, log2Group, log2Delta, nDelta, size);
      rows[index] := row;
      RankStepHolds(pageShifts, index);
      if row.isMultiPage {
        nPSizes := nPSizes + 1;
      }
      if row.isSubpage {
        nSubpages := nSubpages + 1;
        smallMaxSizeIdx := index;
      }
      if row.log2SearchDelta != 0 {
        searchMaxSize := size;
      }
    }

    /** `sizeClasses`: the first group, then group after group up to the chunk size. */
    method FillClasses() returns (n: nat)
      requires Configured() && CountersAt(0) && NSizes(pageShifts, maxOrder) <= rows.Length
      modifies this`searchMaxSize, this`nSubpages, this`nPSizes, this`smallMaxSizeIdx, rows
      ensures n == NSizes(pageShifts, maxOrder)
      ensures CountersAt(n) && RowsFilled(n)
    {
      var index, size, log2Group, log2Delta, nDelta := 0, 0, QUANTUM, QUANTUM, 0;
      while nDelta < 4
        invariant index == nDelta <= 4
        invariant index == 4 ==> size == SizeOf(3)
        invariant CountersAt(index) && RowsFilled(index)
      {
        size := AddClass(index, log2Group, log2Delta, nDelta);
        index, nDelta := index + 1, nDelta + 1;
      }
      log2Group := log2Group + LOG2_SIZE_CLASS_GROUP;
      ghost var group := 1;
      GroupEnd(1);
      while size < chunkSize
        invariant 0 < group <= pageShifts + maxOrder - 5 && index == 4 * group
        invariant log2Group == group + 5 && log2Delta == group + 3 && size == Pow2(group + 5)
        invariant CountersAt(index) && RowsFilled(index)
        decreases pageShifts + maxOrder - group
      {
        RoomForGroup(group);
        index, size := AddGroup(group, index, size, log2Group, log2Delta);
        log2Delta, log2Group, group := log2Delta + 1, log2Group + 1, group + 1;
      }
      FullChunk(group);
      n := index;
    }

    lemma RoomForGroup(group: nat)
      requires Configured() && 0 < group <= pageShifts + maxOrder - 5 && Pow2(group + 5) < chunkSize
      ensures group < pageShifts + maxOrder - 5
      ensures forall i | 4 * group <= i < 4 * group + 3 :: SizeOf(i) < chunkSize
    {
      Pow2Monotone(group + 6, pageShifts + maxOrder);
      GroupEnd(group + 1);
      forall i | 4 * group <= i < 4 * group + 3 ensures SizeOf(i) < chunkSize {
        ClassMonotone(QUANTUM, i, 4 * group + 3);
      }
    }

    lemma FullChunk(group: nat)
      requires Configured() && group <= pageShifts + maxOrder - 5 && chunkSize <= Pow2(group + 5)
      ensures group == pageShifts + maxOrder - 5
    {
      if group + 5 < pageShifts + maxOrder { Pow2Monotone(group + 5, pageShifts + maxOrder); }
    }

    method AddGroup(ghost group: nat, index0: nat, size0: nat, log2Group: nat, log2Delta: nat)
      returns (index: nat, size: nat)
      requires Configured() && 0 < group && index0 == 4 * group && index0 + 4 <= rows.Length
      requires log2Group == group + 5 && log2Delta == group + 3 && size0 < chunkSize
      requires forall i | 4 * group <= i < 4 * group + 3 :: SizeOf(i) < chunkSize
      requires CountersAt(index0) && RowsFilled(index0)
      modifies this`searchMaxSize, this`nSubpages, this`nPSizes, this`smallMaxSizeIdx, rows
      ensures index == 4 * (group + 1) && size == Pow2(group + 6)
      ensures CountersAt(index) && RowsFilled(index)
    {
      index, size := index0, size0;
      var nDelta := 1;
      while nDelta <= 4 && size < chunkSize
        invariant 1 <= nDelta <= 5 && index == index0 + nDelta - 1
        invariant nDelta == 1 ==> size == size0
        invariant 1 < nDelta ==> size == SizeOf(index - 1)
        invariant CountersAt(index) && RowsFilled(index)
      {
        size := AddClass(index, log2Group, log2Delta, nDelta);
        index, nDelta := index + 1, nDelta + 1;
      }
      GroupEnd(group + 1);
    }

    /** `idx2SizeTab`: sizes by class, and the page multiples among them by page class. */
    method FillSizeTables(sizeTab: array<nat>, pageTab: array<nat>)
      requires Configured() && nSizes == NSizes(pageShifts, maxOrder) && RowsFilled(nSizes)
      requires sizeTab.Length == nSizes && pageTab.Length == NPSizes(maxOrder) && sizeTab != pageTab
      requires PageRank(pageShifts, nSizes) == NPSizes(maxOrder)
      modifies sizeTab, pageTab
      ensures forall i | 0 <= i < nSizes :: sizeTab[i] == SizeOf(i)
      ensures forall j | 0 <= j < NPSizes(maxOrder) :: pageTab[j] == PagesOf(j) * pageSize
    {
      var pageIdx := 0;
      for i := 0 to nSizes
        invariant pageIdx == PageRank(pageShifts, i)
        invariant forall k | 0 <= k < i :: sizeTab[k] == SizeOf(k)
        invariant forall j | 0 <= j < pageIdx :: j < pageTab.Length && pageTab[j] == PagesOf(j) * pageSize
      {
        var row := rows[i];
        RowSize(i);
        var size := Pow2(row.log2Group) + Pow2(row.log2Delta) * row.nDelta;
        sizeTab[i] := size;
        RankStepHolds(pageShifts, i);
        RankMonotone(pageShifts, i + 1, nSizes);
        if row.isMultiPage {
          ClassSizeScales(pageShifts, pageIdx);
          pageTab[pageIdx] := size;
          pageIdx := pageIdx + 1;
        }
      }
    }

    lemma {:induction false} RankMonotone(shifts: nat, i: nat, j: nat)
      requires 12 <= shifts && i <= j
      ensures PageRank(shifts, i) <= PageRank(shifts, j)
    {
    }

    /** `size2idxTab`: one entry per sixteen bytes up to the search limit. */
    method FillLookup(tab: array<nat>)
      requires Configured() && nSizes == NSizes(pageShifts, maxOrder) && RowsFilled(nSizes)
      requires searchMaxSize == SEARCH_MAX && tab.Length == SEARCH_MAX / 16 && tab as object != rows
      modifies tab
      ensures forall k | 0 <= k < tab.Length :: tab[k] == LeastClass(QUANTUM, 16 * (k + 1))
    {
      hide LeastClass, ClassSize, Pow2, WholePages;
      var idx, size, i := 0, 0, 0;
      SearchMaxIs();
      while size <= searchMaxSize
        invariant 0 <= i <= LAST_SEARCHED + 1
        invariant idx <= tab.Length && 16 * idx == (if i == 0 then 0 else SizeOf(i - 1))
        invariant size == (if idx == 0 then 0 else 16 * (idx + 1))
        invariant forall k | 0 <= k < idx :: tab[k] == LeastClass(QUANTUM, 16 * (k + 1))
        decreases LAST_SEARCHED + 1 - i
      {
        var times := Pow2(rows[i].log2Delta - QUANTUM);
        ClassFits(i);
        while size <= searchMaxSize && times != 0
          invariant idx <= tab.Length && 16 * (idx + times) == SizeOf(i) <= SEARCH_MAX
          invariant i == 0 || SizeOf(i - 1) <= 16 * idx
          invariant size == (if idx == 0 then 0 else 16 * (idx + 1))
          invariant forall k | 0 <= k < idx :: tab[k] == LeastClass(QUANTUM, 16 * (k + 1))
          decreases times
        {
          times := times - 1;
          LeastClassIs(QUANTUM, 16 * (idx + 1), i);
          tab[idx] := i;
          idx := idx + 1;
          size := 16 * (idx + 1);
        }
        i := i + 1;
      }
    }

    lemma ClassFits(i: nat)
      requires i == 0 || SizeOf(i - 1) < SEARCH_MAX
      ensures i <= LAST_SEARCHED && SizeOf(i) <= SEARCH_MAX
      ensures SizeOf(i) == (if i == 0 then 0 else SizeOf(i - 1)) + 16 * Pow2(Log2DeltaOf(i) - QUANTUM)
    {
      SearchMaxIs();
      if LAST_SEARCHED < i - 1 { ClassMonotone(QUANTUM, LAST_SEARCHED, i - 1); }
      if i < LAST_SEARCHED { ClassMonotone(QUANTUM, i, LAST_SEARCHED); }
      RowSpacing(i);
      Pow2Add(QUANTUM, Log2DeltaOf(i) - QUANTUM);
      assert Pow2(4) == 16;
    }

    method FillTables()
      requires Configured() && nSizes == NSizes(pageShifts, maxOrder) && CountersAt(nSizes) && RowsFilled(nSizes)
      modifies this`pageIdx2sizeTab, this`sizeIdx2sizeTab, this`size2idxTab
      ensures Valid()
    {
      hide ClassSize, Pow2, LeastClass;
      SearchMaxIs();
      sizeIdx2sizeTab := new nat[nSizes];
      pageIdx2sizeTab := new nat[nPSizes];
      FillSizeTables(sizeIdx2sizeTab, pageIdx2sizeTab);
      size2idxTab := new nat[searchMaxSize / 16];
      FillLookup(size2idxTab);
    }

    /** The tables are built for every page size and chunk size the allocator admits. */
    constructor (pageSize: nat, pageShifts: nat, chunkSize: nat, ghost maxOrder: nat)
      requires ValidConfig(pageShifts, maxOrder)
      requires pageSize == Pow2(pageShifts) && chunkSize == Pow2(pageShifts + maxOrder)
      ensures this.pageShifts == pageShifts && this.maxOrder == maxOrder
      ensures Valid()
    {
      this.pageSize, this.pageShifts, this.chunkSize, this.maxOrder := pageSize, pageShifts, chunkSize, maxOrder;
      searchMaxSize, nSubpages, nPSizes, smallMaxSizeIdx := 0, 0, 0, 0;
      Pow2Monotone(pageShifts + maxOrder, pageShifts + maxOrder + 1);
      Log2Unique(chunkSize, pageShifts + maxOrder);
      rows := new Row[4 * (Log2(chunkSize) + 1 - QUANTUM)];
      pageIdx2sizeTab, sizeIdx2sizeTab, size2idxTab := new nat[0], new nat[0], new nat[0];
      new;
      var n := FillClasses();
      nSizes := n;
      FillTables();
    }

    // ---------------------------------------------------------------- reading the tables

    function Size2SizeIdx(size: nat): (idx: nat)
      requires Valid()
      reads this, pageIdx2sizeTab, sizeIdx2sizeTab, size2idxTab
      ensures size <= chunkSize ==> idx == LeastClass(QUANTUM, size) && idx < nSizes
      ensures chunkSize < size ==> idx == nSizes
    {
      if size == 0 then ZeroRequest(); 0
      else if size > chunkSize then nSizes
      else
        LookupRange(size); ShiftIdxIsLeastClass(QUANTUM, size);
        if size <= searchMaxSize then size2idxTab[(size - 1) / 16] else ShiftIdx(QUANTUM, size)
    }

    lemma ZeroRequest()
      requires Configured()
      ensures LeastClass(QUANTUM, 0) == 0 < NSizes(pageShifts, maxOrder)
    {
    }

    lemma LookupRange(size: nat)
      requires Configured() && 0 < size <= chunkSize
      ensures LeastClass(QUANTUM, size) < NSizes(pageShifts, maxOrder)
      ensures size <= SEARCH_MAX ==>
        (size - 1) / 16 < SEARCH_MAX / 16
        && LeastClass(QUANTUM, 16 * ((size - 1) / 16 + 1)) == LeastClass(QUANTUM, size)
    {
      ServedByChunk(size);
      SameQuantum(size);
    }

    lemma ServedByChunk(size: nat)
      requires Configured() && size <= chunkSize
      ensures LeastClass(QUANTUM, size) < NSizes(pageShifts, maxOrder)
    {
      var last := NSizes(pageShifts, maxOrder) - 1;
      GroupEnd(pageShifts + maxOrder - 5);
      var i := LeastClass(QUANTUM, size);
      if last + 1 < i { ClassMonotone(QUANTUM, last, i - 1); }
    }

    /** All requests within one step of sixteen bytes have the same class. */
    lemma SameQuantum(size: nat)
      requires 0 < size
      ensures LeastClass(QUANTUM, 16 * ((size - 1) / 16 + 1)) == LeastClass(QUANTUM, size)
    {
      hide LeastClass, ClassSize;
      var i := LeastClass(QUANTUM, size);
      Multiple16(i);
      RoundedUp(size, SizeOf(i));
      if 0 < i {
        Multiple16(i - 1);
        RoundedUp(size, SizeOf(i - 1));
      }
      LeastClassIs(QUANTUM, 16 * ((size - 1) / 16 + 1), i);
    }

    lemma RoundedUp(size: nat, a: nat)
      requires 0 < size && a % 16 == 0
      ensures size <= a <==> 16 * ((size - 1) / 16 + 1) <= a
    {
    }

    lemma {:induction false} Multiple16(i: nat)
      ensures SizeOf(i) % 16 == 0
    {
      if 8 <= i { Multiple16(i - 4); }
      assert Pow2(4) == 16;
    }

    function SizeIdx2Size(sizeIdx: nat): (size: nat)
      requires Valid() && sizeIdx < nSizes
      reads this, pageIdx2sizeTab, sizeIdx2sizeTab, size2idxTab
      ensures size == ComputedSize(QUANTUM, sizeIdx)
      ensures Size2SizeIdx(size) == sizeIdx
    {
      ComputedSizeIsClassSize(QUANTUM, sizeIdx);
      LeastClassOfClass(QUANTUM, sizeIdx);
      ChunkSizeIsLast(sizeIdx);
      sizeIdx2sizeTab[sizeIdx]
    }

    lemma ChunkSizeIsLast(sizeIdx: nat)
      requires Configured() && sizeIdx < NSizes(pageShifts, maxOrder)
      ensures SizeOf(sizeIdx) <= chunkSize
    {
      GroupEnd(pageShifts + maxOrder - 5);
      var last := NSizes(pageShifts, maxOrder) - 1;
      if sizeIdx < last { ClassMonotone(QUANTUM, sizeIdx, last); }
    }

    /** `normalizeSize`: table and mask agree with the size of the class that serves the request. */
    function NormalizeSize(size: nat): (r: nat)
      requires Valid()
      reads this, pageIdx2sizeTab, sizeIdx2sizeTab, size2idxTab
      ensures size <= r == SizeOf(LeastClass(QUANTUM, size))
      ensures size <= chunkSize ==> r == SizeIdx2Size(Size2SizeIdx(size))
      ensures 64 < size ==> 4 * (r - size) < size
    {
      SearchBelowChunk();
      SmallWaste(size);
      if size == 0 then ZeroRequest(); sizeIdx2sizeTab[0]
      else
        RoundUpIsLeastClass(QUANTUM, size);
        if size <= searchMaxSize then LookupRange(size); sizeIdx2sizeTab[size2idxTab[(size - 1) / 16]]
        else RoundUp(QUANTUM, size)
    }

    lemma SmallWaste(size: nat)
      ensures 64 < size ==> 4 * (SizeOf(LeastClass(QUANTUM, size)) - size) < size
    {
      assert Pow2(QUANTUM) == 16;
      if 64 < size { WasteBelowQuarter(QUANTUM, size); }
    }

    lemma SearchBelowChunk()
      requires Configured()
      ensures SEARCH_MAX <= chunkSize
    {
      Pow2Monotone(12, pageShifts + maxOrder);
      assert Pow2(12) == 4096;
    }

    /** `pages2pageIdxCompute`, whose floor form steps back when the class found is too large. */
    function Pages2PageIdxCompute(pages: nat, floor: bool): (idx: nat)
      requires Valid() && 0 < pages
      reads this, pageIdx2sizeTab, sizeIdx2sizeTab, size2idxTab
      ensures pages <= Pow2(maxOrder) ==>
        idx < nPSizes && idx == if floor then PageIdxFloor(pages) else PageIdx(pages)
      ensures Pow2(maxOrder) < pages ==> idx == nPSizes
    {
      var pageBytes := pages * Pow2(pageShifts);
      PagesAgainstChunk(pages);
      if pageBytes > chunkSize then nPSizes
      else
        FloorInRange(pages, maxOrder);
        ShiftIdxIsLeastClass(pageShifts, pageBytes);
        LeastClassOfPages(pageShifts, pages);
        var pageIdx := ShiftIdx(pageShifts, pageBytes);
        PageTabOrder(pages, pageIdx);
        if floor && pageIdx2sizeTab[pageIdx] > pageBytes then pageIdx - 1 else pageIdx
    }

    lemma PagesAgainstChunk(pages: nat)
      requires Configured() && 0 < pages
      ensures 0 < pages * Pow2(pageShifts)
      ensures chunkSize < pages * Pow2(pageShifts) <==> Pow2(maxOrder) < pages
    {
      Pow2Add(maxOrder, pageShifts);
      assert maxOrder + pageShifts == pageShifts + maxOrder;
      ScaleOrder(Pow2(maxOrder), pages, Pow2(pageShifts));
      ScaleOrder(pages, Pow2(maxOrder), Pow2(pageShifts));
      ScaleOrder(1, pages, Pow2(pageShifts));
    }

    lemma PageTabOrder(pages: nat, pageIdx: nat)
      requires Configured() && 0 < pages <= Pow2(maxOrder) && pageIdx == PageIdx(pages)
      ensures pageIdx < NPSizes(maxOrder)
      ensures pages * Pow2(pageShifts) < PagesOf(pageIdx) * Pow2(pageShifts) <==> pages < PagesOf(pageIdx)
    {
      hide ClassSize, Pow2;
      LastPageClass(maxOrder);
      var last := NPSizes(maxOrder) - 1;
      if last < pageIdx - 1 { ClassMonotone(0, last, pageIdx - 1); }
      ScaleOrder(pages, PagesOf(pageIdx), Pow2(pageShifts));
      ScaleOrder(PagesOf(pageIdx), pages, Pow2(pageShifts));
    }
  }
}
