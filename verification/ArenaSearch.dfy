/** Which chunk an allocation is served from: the lists in their order, each from its front. */
module ArenaSearch {
  import opened Powers
  import opened PageClasses
  import opened Runs
  import opened RunSizing
  import opened RequestSizes
  import opened ChunkLists
  import opened ArenaState
  import opened ArenaSteps
  import ArenaOps

  /** No free run of chunk `c` is long enough. */
  ghost predicate NoRoom(s: Arena, c: nat, k: nat) {
    c in s.chunks && forall n: nat, f | NeedsPages(s.pageShifts, k, n) && f in s.chunks[c].layout.free :: f.pages < n
  }

  /** No chunk of the list has room. */
  ghost predicate Exhausted(s: Arena, band: nat, k: nat) {
    band < |s.lists| && forall i | 0 <= i < |s.lists[band]| :: NoRoom(s, s.lists[band][i], k)
  }

  /** Chunk `c` is in the list and has room, and no chunk before it has. */
  ghost predicate FirstWithRoom(s: Arena, band: nat, k: nat, c: nat) {
    band < |s.lists| && exists i :: 0 <= i < |s.lists[band]| && ServesAt(s, band, k, c, i)
  }

  ghost predicate ServesAt(s: Arena, band: nat, k: nat, c: nat, i: nat)
    requires band < |s.lists| && i < |s.lists[band]|
  {
    s.lists[band][i] == c && !NoRoom(s, c, k) && forall j | 0 <= j < i :: NoRoom(s, s.lists[band][j], k)
  }

  /** The order in which `allocateNormal` asks the lists; q100 is not asked. */
  const ORDER: seq<nat> := [Q50, Q25, Q00, Q_INIT, Q75]

  /** The lists before the `n`-th are exhausted. */
  ghost predicate ExhaustedBefore(s: Arena, k: nat, n: nat) {
    n <= |ORDER| && forall m | 0 <= m < n :: Exhausted(s, ORDER[m], k)
  }

  /** Chunk `c` is the one the search comes to first. */
  ghost predicate Preferred(s: Arena, k: nat, c: nat) {
    exists n: nat :: n < |ORDER| && ExhaustedBefore(s, k, n) && FirstWithRoom(s, ORDER[n], k, c)
  }

  /** The same written out: the half full, the quarter full, the used, the new, the nearly full. */
  ghost predicate FirstChoice(s: Arena, k: nat, c: nat) {
    || FirstWithRoom(s, Q50, k, c)
    || (Exhausted(s, Q50, k)
        && (FirstWithRoom(s, Q25, k, c)
            || (Exhausted(s, Q25, k)
                && (FirstWithRoom(s, Q00, k, c)
                    || (Exhausted(s, Q00, k)
                        && (FirstWithRoom(s, Q_INIT, k, c)
                            || (Exhausted(s, Q_INIT, k) && FirstWithRoom(s, Q75, k, c))))))))
  }

  lemma PreferredIs(s: Arena, k: nat, c: nat)
    requires Preferred(s, k, c)
    ensures FirstChoice(s, k, c)
  {
    hide Exhausted, FirstWithRoom;
    var n: nat :| n < |ORDER| && ExhaustedBefore(s, k, n) && FirstWithRoom(s, ORDER[n], k, c);
    assert forall m | 0 <= m < n :: Exhausted(s, ORDER[m], k);
    assert 0 < n ==> Exhausted(s, ORDER[0], k);
    assert 1 < n ==> Exhausted(s, ORDER[1], k);
    assert 2 < n ==> Exhausted(s, ORDER[2], k);
    assert 3 < n ==> Exhausted(s, ORDER[3], k);
  }

  // ---------------------------------------------------------------- what a failed search of one chunk means

  lemma NormalNoRoom(s: Arena, c: nat, k: nat)
    requires c in s.chunks && 12 <= s.pageShifts && SmallMaxSizeIdx(s.pageShifts) < k
    requires forall f | f in s.chunks[c].layout.free :: f.pages < Shr(SizeOf(k), s.pageShifts)
    ensures NoRoom(s, c, k)
  {
    forall n: nat | NeedsPages(s.pageShifts, k, n) ensures n == Shr(SizeOf(k), s.pageShifts) {
      ShlIsProduct(n, s.pageShifts);
      ShrShl(n, s.pageShifts);
    }
  }

  lemma SmallNoRoom(s: Arena, c: nat, k: nat, pages: nat)
    requires c in s.chunks && 12 <= s.pageShifts && k <= SmallMaxSizeIdx(s.pageShifts)
    requires NeedsPages(s.pageShifts, k, pages)
    requires forall f | f in s.chunks[c].layout.free :: f.pages < pages
    ensures NoRoom(s, c, k)
  {
    hide EvenPages;
    assert forall n: nat | NeedsPages(s.pageShifts, k, n) :: n == pages;
  }

  /** A free run gone means there was one that large. */
  lemma NormalHadRoom(s: Arena, c: nat, k: nat, l: Layout, run: Run)
    requires s.Inv() && Grows(s, c, l, run) && SmallMaxSizeIdx(s.pageShifts) < k < NSizes(s.pageShifts, s.maxOrder)
    requires run.pages == Shr(SizeOf(k), s.pageShifts)
    ensures !NoRoom(s, c, k)
  {
    NormalRequest(s.pageShifts, s.maxOrder, k);
    ShlIsProduct(run.pages, s.pageShifts);
    hide SizeOf, Pow2, Shr, Shl, Run.Overlaps, Layout.Owned;
    var f := GrewFrom(s, c, l, run);
    assert NeedsPages(s.pageShifts, k, run.pages);
  }

  lemma SmallHadRoom(s: Arena, c: nat, k: nat, l: Layout, run: Run)
    requires s.Inv() && Grows(s, c, l, run) && NeedsPages(s.pageShifts, k, run.pages)
    ensures !NoRoom(s, c, k)
  {
    hide NeedsPages;
    var f := GrewFrom(s, c, l, run);
  }

  lemma GrewFrom(s: Arena, c: nat, l: Layout, run: Run) returns (f: Run)
    requires s.Inv() && Grows(s, c, l, run)
    ensures f in s.chunks[c].layout.free && run.pages <= f.pages
  {
    hide Arena.SubsOk, Arena.HeldOk, Arena.Exclusive, Arena.NoLeak, Arena.PoolsOk, Arena.PoolsComplete,
      Arena.QueuesOk, Arena.ListsShape, Arena.ListsBounds, Arena.OneIdle;
    assert s.ChunkOk(s.chunks[c].layout);
    hide Layout.Valid, Conserved;
    f := FreeAround(s.chunks[c].layout, l, run);
  }

  // ---------------------------------------------------------------- the capacity limit of a list

  lemma SizeIsPositive(k: nat)
    ensures 0 < SizeOf(k)
  {
  }

  lemma NeedsCost(p: nat, k: nat, n: nat)
    requires NeedsPages(p, k, n)
    ensures SizeOf(k) <= n * Pow2(p)
  {
    hide SizeOf, Pow2;
    SizeIsPositive(k);
    if k <= SmallMaxSizeIdx(p) {
      ScaleOrder(0, n, Pow2(p));
      var a := n * Pow2(p);
      assert a == a / SizeOf(k) * SizeOf(k) + a % SizeOf(k);
      if a / SizeOf(k) >= 1 { ScaleOrder(1, a / SizeOf(k), SizeOf(k)); }
    }
  }

  /** Room for a request takes as many free bytes. */
  lemma RoomCosts(s: Arena, c: nat, k: nat)
    requires c in s.chunks && !NoRoom(s, c, k)
    ensures SizeOf(k) <= s.FreeBytes(c)
  {
    hide NeedsPages, SizeOf;
    var n: nat, f :| NeedsPages(s.pageShifts, k, n) && f in s.chunks[c].layout.free && n <= f.pages;
    NeedsCost(s.pageShifts, k, n);
    PagesOfRemoved(s.chunks[c].layout.free, f);
    ShlIsProduct(n, s.pageShifts);
    ShlOrder(n, Pages(s.chunks[c].layout.free), s.pageShifts);
  }

  /** The chunks of a list by the share in use. */
  lemma UsageOf(s: Arena, c: nat)
    requires s.Inv() && c in s.chunks
    ensures s.chunks[c].parent < BANDS && s.FreeBytes(c) <= s.ChunkSize()
    ensures s.ChunkSize() % 0x1000 == 0 && s.FreeBytes(c) % 0x1000 == 0 && ChunkSizeOk(s.ChunkSize())
    ensures InBand(s.ChunkSize(), s.chunks[c].parent, s.FreeBytes(c))
  {
    ArenaOps.Located(s, c);
    WholePages4K(Pow2(s.maxOrder), s.pageShifts);
    WholePages4K(Pages(s.chunks[c].layout.free), s.pageShifts);
    assert s.Banded(c);
  }

  lemma WholePages4K(n: nat, p: nat)
    requires 12 <= p
    ensures Shl(n, p) % 0x1000 == 0
  {
    ShlIsProduct(n, p);
    Pow2Add(12, p - 12);
    assert Pow2(12) == 0x1000;
    hide Pow2;
    FactorOut(n, Pow2(p - 12));
    DivMul(n * Pow2(p - 12), 0x1000);
  }

  lemma FactorOut(n: nat, d: nat)
    ensures n * (0x1000 * d) == n * d * 0x1000
  {
  }

  /** The limit turns no chunk with room away: what exceeds it is, in the grid of the classes, so much
      larger that no chunk of the list has it free. */
  lemma NothingRefused(s: Arena, c: nat, k: nat)
    requires s.Inv() && c in s.chunks && k < NSizes(s.pageShifts, s.maxOrder) && !NoRoom(s, c, k)
    ensures s.chunks[c].parent < BANDS && SizeOf(k) <= MaxCapacity(s.ChunkSize(), s.chunks[c].parent)
  {
    hide NoRoom, InBand, MaxCapacity, SizeOf, Arena.FreeBytes;
    RoomCosts(s, c, k);
    UsageOf(s, c);
    BandIs(s.ChunkSize(), s.chunks[c].parent, s.FreeBytes(c));
    LargestClasses(s.pageShifts, s.maxOrder, k);
    CapacityIs(s.ChunkSize(), s.chunks[c].parent, SizeOf(k));
    hide Arena.Inv;
  }

  lemma RefusedIsExhausted(s: Arena, band: nat, k: nat)
    requires s.Inv() && band < |s.lists| == BANDS && k < NSizes(s.pageShifts, s.maxOrder)
    requires SizeOf(k) > MaxCapacity(s.ChunkSize(), band)
    ensures Exhausted(s, band, k)
  {
    hide NoRoom, MaxCapacity, SizeOf, Arena.SubsOk, Arena.HeldOk, Arena.Exclusive, Arena.NoLeak, Arena.PoolsOk,
      Arena.PoolsComplete, Arena.QueuesOk, Arena.ChunksOk, Arena.ListsBounds, Arena.OneIdle;
    forall i | 0 <= i < |s.lists[band]| ensures NoRoom(s, s.lists[band][i], k) {
      var c := s.lists[band][i];
      assert c in s.lists[band];
      if !NoRoom(s, c, k) { NothingRefused(s, c, k); }
    }
  }

  /** A full chunk has no room, so with the five lists exhausted no chunk has any. */
  lemma NoChunkHasRoom(s: Arena, k: nat)
    requires s.Inv() && ExhaustedBefore(s, k, |ORDER|)
    ensures forall c | c in s.chunks :: NoRoom(s, c, k)
  {
    hide NoRoom, Arena.SubsOk, Arena.HeldOk, Arena.Exclusive, Arena.NoLeak, Arena.PoolsOk,
      Arena.PoolsComplete, Arena.QueuesOk, Arena.ChunksOk, Arena.ListsBounds, Arena.OneIdle, Arena.FreeBytes, SizeOf;
    assert Exhausted(s, ORDER[0], k) && Exhausted(s, ORDER[1], k) && Exhausted(s, ORDER[2], k);
    assert Exhausted(s, ORDER[3], k) && Exhausted(s, ORDER[4], k);
    forall c | c in s.chunks ensures NoRoom(s, c, k) {
      UsageOf(s, c);
      if s.chunks[c].parent == Q100 && !NoRoom(s, c, k) {
        RoomCosts(s, c, k);
        SizeIsPositive(k);
      }
    }
  }

  // ---------------------------------------------------------------- a new chunk has room

  lemma FreshHasRoom(s: Arena, c: nat, k: nat, n: nat)
    requires c in s.chunks && s.chunks[c].layout == Fresh(Pow2(s.maxOrder))
    requires NeedsPages(s.pageShifts, k, n) && n <= Pow2(s.maxOrder)
    ensures !NoRoom(s, c, k)
  {
    assert Run(0, Pow2(s.maxOrder)) in s.chunks[c].layout.free;
  }

  /** Whatever the class, an untouched chunk has room for it. */
  lemma NewChunkHasRoom(s: Arena, c: nat, k: nat)
    requires ValidConfig(s.pageShifts, s.maxOrder) && k < NSizes(s.pageShifts, s.maxOrder)
    requires c in s.chunks && s.chunks[c].layout == Fresh(Pow2(s.maxOrder))
    ensures !NoRoom(s, c, k)
  {
    if k <= SmallMaxSizeIdx(s.pageShifts) {
      var n := SmallNeeds(s.pageShifts, k);
      RunIsExactPages(n, s.maxOrder) by {
        hide EvenPages;
      }
      FreshHasRoom(s, c, k, n);
    } else {
      var n := NormalNeeds(s.pageShifts, s.maxOrder, k);
      FreshHasRoom(s, c, k, n);
    }
  }

  lemma NormalNeeds(p: nat, o: nat, k: nat) returns (n: nat)
    requires ValidConfig(p, o) && SmallMaxSizeIdx(p) < k < NSizes(p, o)
    ensures NeedsPages(p, k, n) && n <= Pow2(o)
  {
    NormalRequest(p, o, k);
    n := Shr(SizeOf(k), p);
    ShlIsProduct(n, p);
  }

  // ---------------------------------------------------------------- the search, step by step

  lemma ServedByList(s: Arena, band: nat, k: nat, c: nat, i: nat)
    requires band < |s.lists| && i < |s.lists[band]| && ServesAt(s, band, k, c, i)
    ensures FirstWithRoom(s, band, k, c)
  {
  }

  lemma ServedInOrder(s: Arena, k: nat, c: nat, n: nat)
    requires n < |ORDER| && ExhaustedBefore(s, k, n) && FirstWithRoom(s, ORDER[n], k, c)
    ensures Preferred(s, k, c)
  {
  }

  lemma OneMoreExhausted(s: Arena, k: nat, n: nat)
    requires n < |ORDER| && ExhaustedBefore(s, k, n) && Exhausted(s, ORDER[n], k)
    ensures ExhaustedBefore(s, k, n + 1)
  {
  }

  lemma PreferredInChunks(s: Arena, k: nat, c: nat)
    requires s.Inv() && Preferred(s, k, c)
    ensures c in s.chunks && !NoRoom(s, c, k)
  {
    hide NoRoom, Exhausted, Arena.SubsOk, Arena.HeldOk, Arena.Exclusive, Arena.NoLeak, Arena.PoolsOk,
      Arena.PoolsComplete, Arena.QueuesOk, Arena.ChunksOk, Arena.ListsBounds, Arena.OneIdle;
    var n: nat :| n < |ORDER| && ExhaustedBefore(s, k, n) && FirstWithRoom(s, ORDER[n], k, c);
    var i :| 0 <= i < |s.lists[ORDER[n]]| && ServesAt(s, ORDER[n], k, c, i);
    assert c in s.lists[ORDER[n]];
  }
}
