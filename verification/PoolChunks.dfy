/** `PoolChunk`: runs of pages, split on allocation and coalesced on free, with two indexes kept
    in step -- best-fit queues by page class and a map from head and tail offsets. */
module PoolChunks {
  import opened Basics
  import opened Powers
  import opened PageClasses
  import opened Runs
  import opened Handles

  /** `BestFitQueue::top`: the smallest raw handle. */
  predicate IsTop(queue: set<Handle>, h: Handle) {
    h in queue && forall g | g in queue :: Encode(h) <= Encode(g)
  }

  /** The run best fit must pick: smallest fitting class, then lowest offset. */
  predicate IsBestFit(free: set<Run>, need: nat, f: Run)
    requires forall g | g in free :: 0 < g.pages
  {
    && f in free && need <= f.pages
    && forall g | g in free && need <= g.pages ::
         PageIdxFloor(f.pages) < PageIdxFloor(g.pages)
         || (PageIdxFloor(f.pages) == PageIdxFloor(g.pages) && f.offset <= g.offset)
  }

  /** What a successful `allocateRun` has done. */
  ghost predicate Served(before: Layout, need: nat, f: Run, after: Layout, h: Handle) {
    && before.Valid() && 0 < need && IsBestFit(before.free, need, f)
    && after == Carve(before, f, need)
    && h.ToRun() == Run(f.offset, need) && h.used && !h.subpage && h.Fits()
  }

  /** Free runs are apart from one another and inside the chunk. */
  ghost predicate Apart(total: nat, free: set<Run>) {
    && (forall r | r in free :: 0 < r.pages && r.End() <= total)
    && (forall a, b | a in free && b in free && a != b :: !a.Overlaps(b))
  }

  // ---------------------------------------------------------------- the two indexes, as values

  datatype Index = Index(queues: seq<set<Handle>>, keys: map<int, Handle>)

  function Inserted(ix: Index, h: Handle): Index
    requires 0 < h.pages && PageIdxFloor(h.pages) < |ix.queues|
  {
    var i := PageIdxFloor(h.pages);
    Index(ix.queues[i := ix.queues[i] + {h}], ix.keys[h.runOffset := h][h.runOffset + h.pages - 1 := h])
  }

  function Removed(ix: Index, h: Handle): Index
    requires 0 < h.pages && PageIdxFloor(h.pages) < |ix.queues|
  {
    var i := PageIdxFloor(h.pages);
    Index(ix.queues[i := ix.queues[i] - {h}], ix.keys - {h.runOffset, h.runOffset + h.pages - 1})
  }

  /** The offset map has exactly the head and tail keys of each free run. */
  ghost predicate Keyed(m: map<int, Handle>, free: set<Run>) {
    && (forall k | k in m ::
          m[k].ToRun() in free && !m[k].used && !m[k].subpage && m[k].Fits()
          && (k == m[k].runOffset || k == m[k].runOffset + m[k].pages - 1))
    && (forall r | r in free :: KeyedRun(m, r))
  }

  ghost predicate KeyedRun(m: map<int, Handle>, r: Run) {
    r.offset in m && r.End() - 1 in m && m[r.offset].ToRun() == r && m[r.End() - 1] == m[r.offset]
  }

  /** Each free run sits in exactly the queue of its floor page class, under its map handle. */
  ghost predicate Queued(ix: Index, free: set<Run>) {
    && (forall i, h | 0 <= i < |ix.queues| && h in ix.queues[i] ::
          h.ToRun() in free && 0 < h.pages && i == PageIdxFloor(h.pages)
          && h.runOffset in ix.keys && ix.keys[h.runOffset] == h)
    && (forall r | r in free :: QueuedRun(ix, r))
  }

  ghost predicate QueuedRun(ix: Index, r: Run) {
    && 0 < r.pages && r.offset in ix.keys
    && PageIdxFloor(r.pages) < |ix.queues| && ix.keys[r.offset] in ix.queues[PageIdxFloor(r.pages)]
  }

  ghost predicate Indexes(ix: Index, free: set<Run>) {
    Keyed(ix.keys, free) && Queued(ix, free)
  }

  /** A run apart from the free ones shares no key with them. */
  lemma FreshKeys(m: map<int, Handle>, free: set<Run>, r: Run)
    requires Keyed(m, free) && 0 < r.pages && r !in free
    requires forall f | f in free :: 0 < f.pages && !f.Overlaps(r)
    ensures r.offset !in m && r.End() - 1 !in m
  {
    assert r.offset in m ==> m[r.offset].ToRun().Overlaps(r);
    assert r.End() - 1 in m ==> m[r.End() - 1].ToRun().Overlaps(r);
  }

  lemma KeyedInsert(m: map<int, Handle>, free: set<Run>, h: Handle)
    requires Keyed(m, free) && 0 < h.pages && !h.used && !h.subpage && h.Fits()
    requires h.runOffset !in m && h.runOffset + h.pages - 1 !in m
    ensures Keyed(m[h.runOffset := h][h.runOffset + h.pages - 1 := h], free + {h.ToRun()})
  {
  }

  lemma QueuedInsert(ix: Index, free: set<Run>, h: Handle, i: nat, ix': Index)
    requires Keyed(ix.keys, free) && Queued(ix, free) && 0 < h.pages && i == PageIdxFloor(h.pages) < |ix.queues|
    requires h.runOffset !in ix.keys && h.runOffset + h.pages - 1 !in ix.keys
    requires ix'.queues == ix.queues[i := ix.queues[i] + {h}]
    requires ix'.keys == ix.keys[h.runOffset := h][h.runOffset + h.pages - 1 := h]
    ensures Queued(ix', free + {h.ToRun()})
  {
    hide Handle.Fits, PagesOf, PageIdx;
    forall r | r in free ensures QueuedRun(ix', r) {
      assert QueuedRun(ix, r) && KeyedRun(ix.keys, r);
    }
    assert QueuedRun(ix', h.ToRun());
  }

  lemma InsertKeepsIndex(ix: Index, free: set<Run>, h: Handle)
    requires Indexes(ix, free) && 0 < h.pages && !h.used && !h.subpage && h.Fits()
    requires PageIdxFloor(h.pages) < |ix.queues|
    requires h.runOffset !in ix.keys && h.runOffset + h.pages - 1 !in ix.keys
    ensures Indexes(Inserted(ix, h), free + {h.ToRun()})
  {
    KeyedInsert(ix.keys, free, h);
    QueuedInsert(ix, free, h, PageIdxFloor(h.pages), Inserted(ix, h));
  }

  lemma KeyedRemove(m: map<int, Handle>, free: set<Run>, h: Handle)
    requires Keyed(m, free) && h.ToRun() in free && 0 < h.pages
    requires forall f | f in free && f != h.ToRun() :: 0 < f.pages && !f.Overlaps(h.ToRun())
    ensures Keyed(m - {h.runOffset, h.runOffset + h.pages - 1}, free - {h.ToRun()})
  {
    var m' := m - {h.runOffset, h.runOffset + h.pages - 1};
    assert KeyedRun(m, h.ToRun());
    forall r | r in free && r != h.ToRun() ensures KeyedRun(m', r) {
      assert KeyedRun(m, r);
    }
    forall k | k in m' ensures m'[k].ToRun() != h.ToRun() {
      assert k != h.runOffset && k != h.runOffset + h.pages - 1;
    }
  }

  lemma QueuedRemove(ix: Index, free: set<Run>, h: Handle, i: nat, ix': Index)
    requires Indexes(ix, free) && h.ToRun() in free && 0 < h.pages && i == PageIdxFloor(h.pages) < |ix.queues|
    requires ix.keys[h.runOffset] == h && Keyed(ix'.keys, free - {h.ToRun()})
    requires ix'.queues == ix.queues[i := ix.queues[i] - {h}]
    requires ix'.keys == ix.keys - {h.runOffset, h.runOffset + h.pages - 1}
    ensures Queued(ix', free - {h.ToRun()})
  {
    forall r | r in free && r != h.ToRun() ensures QueuedRun(ix', r) {
      assert QueuedRun(ix, r) && KeyedRun(ix.keys, r) && KeyedRun(ix'.keys, r);
    }
    forall k, g | 0 <= k < |ix'.queues| && g in ix'.queues[k]
      ensures g.ToRun() in free - {h.ToRun()} && g.runOffset in ix'.keys
    {
      assert g in ix.queues[k] && g != h;
      assert KeyedRun(ix'.keys, g.ToRun());
    }
  }

  lemma QueueOf(ix: Index, free: set<Run>, r: Run)
    requires Indexes(ix, free) && r in free
    ensures QueuedRun(ix, r) && r.offset in ix.keys
  {
  }

  lemma RemoveKeepsIndex(ix: Index, free: set<Run>, h: Handle)
    requires Indexes(ix, free) && h.ToRun() in free && 0 < h.pages && PageIdxFloor(h.pages) < |ix.queues|
    requires forall f | f in free && f != h.ToRun() :: 0 < f.pages && !f.Overlaps(h.ToRun())
    requires ix.keys[h.runOffset] == h
    ensures Indexes(Removed(ix, h), free - {h.ToRun()})
  {
    hide Keyed, Queued, Run.Overlaps, PageIdxFloor;
    KeyedRemove(ix.keys, free, h);
    QueuedRemove(ix, free, h, PageIdxFloor(h.pages), Removed(ix, h));
  }

  lemma TopExists(queue: set<Handle>) returns (h: Handle)
    requires queue != {}
    ensures IsTop(queue, h)
    decreases |queue|
  {
    h :| h in queue;
    if queue != {h} {
      var rest := queue - {h};
      assert queue == rest + {h};
      assert rest != {};
      var g := TopExists(rest);
      if Encode(g) < Encode(h) { h := g; }
    }
  }

  class PoolChunk {
    const memory: array<Byte>
    const pageShifts: nat
    const maxOrder: nat
    var freeBytes: int
    var runsAvail: seq<set<Handle>>
    var runsAvailMap: map<int, Handle>
    ghost var layout: Layout

    const total: nat := Pow2(maxOrder)
    const chunkSize: int := Shl(Pow2(maxOrder), pageShifts)

    ghost predicate Configured() {
      ValidConfig(pageShifts, maxOrder) && memory.Length == chunkSize
    }

    function Tables(): Index
      reads this
    {
      Index(runsAvail, runsAvailMap)
    }

    /** The chunk between the moves of one operation: all but the free-byte count. */
    ghost predicate Consistent()
      reads this
    {
      && Configured()
      && layout.total == total && layout.Valid() && Conserved(layout)
      && |runsAvail| == NPSizes(maxOrder) && Indexes(Tables(), layout.free)
    }

    ghost predicate Valid()
      reads this
    {
      Consistent() && freeBytes == Shl(Pages(layout.free), pageShifts)
    }

    lemma TotalFits()
      requires Configured()
      ensures total <= 0x2000
    {
      Pow2Monotone(maxOrder, 13);
      assert Pow2(13) == 0x2000;
    }

    constructor (memory: array<Byte>, pageShifts: nat, maxOrder: nat)
      requires ValidConfig(pageShifts, maxOrder) && memory.Length == Shl(Pow2(maxOrder), pageShifts)
      ensures this.memory == memory && this.pageShifts == pageShifts && this.maxOrder == maxOrder
      ensures Valid() && layout == Fresh(total)
    {
      this.memory, this.pageShifts, this.maxOrder := memory, pageShifts, maxOrder;
      freeBytes := Shl(Pow2(maxOrder), pageShifts);
      runsAvail := seq(NPSizes(maxOrder), _ => {});
      runsAvailMap := map[];
      layout := Layout(Pow2(maxOrder), {}, {});
      new;
      FreshIsValid(total);
      FreshIsConserved(total);
      TotalFits();
      FloorInRange(total, maxOrder);
      var h := RunHandle(Run(0, total), false);
      InsertKeepsIndex(Tables(), {}, h);
      InsertAvailRun(0, total, h);
      layout := Fresh(total);
      assert {} + {Run(0, total)} == layout.free;
    }

    // ---------------------------------------------------------------- the two indexes

    method InsertAvailRun0(runOffset: nat, h: Handle)
      modifies this`runsAvailMap
      ensures runsAvailMap == if runOffset in old(runsAvailMap) then old(runsAvailMap)
                              else old(runsAvailMap)[runOffset := h]
    {
      if runOffset !in runsAvailMap {
        runsAvailMap := runsAvailMap[runOffset := h];
      }
    }

    method InsertAvailRun(runOffset: nat, pages: nat, h: Handle)
      requires 0 < pages && h.runOffset == runOffset && h.pages == pages
      requires PageIdxFloor(pages) < |runsAvail|
      requires runOffset !in runsAvailMap && runOffset + pages - 1 !in runsAvailMap
      modifies this`runsAvail, this`runsAvailMap
      ensures Tables() == Inserted(old(Tables()), h)
    {
      var pageIdxFloor := PageIdxFloor(pages);
      runsAvail := runsAvail[pageIdxFloor := runsAvail[pageIdxFloor] + {h}];
      InsertAvailRun0(runOffset, h);
      if pages > 1 {
        InsertAvailRun0(runOffset + pages - 1, h);
      }
    }

    method RemoveAvailRun(h: Handle)
      requires 0 < h.pages && PageIdxFloor(h.pages) < |runsAvail|
      modifies this`runsAvail, this`runsAvailMap
      ensures Tables() == Removed(old(Tables()), h)
    {
      var pageIdxFloor := PageIdxFloor(h.pages);
      RemoveFromQueue(pageIdxFloor, h);
    }

    method RemoveFromQueue(queueIdx: nat, h: Handle)
      requires 0 < h.pages && queueIdx == PageIdxFloor(h.pages) < |runsAvail|
      modifies this`runsAvail, this`runsAvailMap
      ensures Tables() == Removed(old(Tables()), h)
    {
      runsAvail := runsAvail[queueIdx := runsAvail[queueIdx] - {h}];
      var runOffset, pages := h.runOffset, h.pages;
      runsAvailMap := runsAvailMap - {runOffset};
      if pages > 1 {
        runsAvailMap := runsAvailMap - {runOffset + pages - 1};
      }
      assert runsAvailMap == old(runsAvailMap) - {runOffset, runOffset + pages - 1};
    }

    // ---------------------------------------------------------------- allocation

    /** First non-empty queue from `pageIdx` up; an untouched chunk is served from the last. */
    method RunBestFit(pageIdx: nat) returns (i: int)
      requires Valid() && pageIdx < NPSizes(maxOrder)
      ensures i == -1 ==> Skipped(pageIdx, NPSizes(maxOrder))
      ensures i != -1 ==> pageIdx <= i < |runsAvail| && runsAvail[i] != {} && Skipped(pageIdx, i)
    {
      if freeBytes == chunkSize {
        UntouchedChunk(pageIdx);
        return NPSizes(maxOrder) - 1;
      }
      i := FirstNonEmpty(pageIdx);
      SkippedQueues(pageIdx, if i == -1 then NPSizes(maxOrder) else i);
    }

    method FirstNonEmpty(pageIdx: nat) returns (i: int)
      requires pageIdx < |runsAvail|
      ensures i == -1 ==> forall j | pageIdx <= j < |runsAvail| :: runsAvail[j] == {}
      ensures i != -1 ==>
        pageIdx <= i < |runsAvail| && runsAvail[i] != {} && forall j | pageIdx <= j < i :: runsAvail[j] == {}
    {
      i := pageIdx;
      while i < |runsAvail|
        invariant pageIdx <= i <= |runsAvail|
        invariant forall j | pageIdx <= j < i :: runsAvail[j] == {}
      {
        if runsAvail[i] != {} {
          return;
        }
        i := i + 1;
      }
      i := -1;
    }

    /** No free run is filed in the queues from `lo` to `hi`. */
    ghost predicate Skipped(lo: nat, hi: nat)
      requires forall f | f in layout.free :: 0 < f.pages
      reads this`layout
    {
      forall f | f in layout.free :: PageIdxFloor(f.pages) < lo || hi <= PageIdxFloor(f.pages)
    }

    lemma SkippedQueues(lo: nat, hi: nat)
      requires Indexes(Tables(), layout.free) && hi <= |runsAvail| && forall j | lo <= j < hi :: runsAvail[j] == {}
      ensures (forall f | f in layout.free :: 0 < f.pages) && Skipped(lo, hi)
    {
      forall f | f in layout.free
        ensures 0 < f.pages && (PageIdxFloor(f.pages) < lo || hi <= PageIdxFloor(f.pages))
      {
        assert QueuedRun(Tables(), f);
      }
    }

    /** What makes the shortcut of `runBestFit` sound. */
    lemma UntouchedChunk(pageIdx: nat)
      requires Valid() && freeBytes == chunkSize
      ensures layout.free == {Run(0, total)} && layout.live == {}
      ensures runsAvail[NPSizes(maxOrder) - 1] != {}
      ensures Skipped(pageIdx, NPSizes(maxOrder) - 1)
    {
      ShlOrder(Pages(layout.free), total, pageShifts);
      ShlOrder(total, Pages(layout.free), pageShifts);
      AllFree(layout);
      WholeChunkClass(maxOrder);
      FloorOfExact(total);
      assert QueuedRun(Tables(), Run(0, total));
    }

    method SplitLargeRun(h: Handle, needPages: nat, ghost f: Run) returns (r: Handle)
      requires Configured() && layout.total == total && layout.Valid() && f in layout.free && f == h.ToRun()
      requires |runsAvail| == NPSizes(maxOrder) && Indexes(Tables(), layout.free - {f})
      requires 0 < needPages <= h.pages && h.Fits() && !h.used && !h.subpage
      modifies this`runsAvail, this`runsAvailMap
      ensures |runsAvail| == NPSizes(maxOrder) && Indexes(Tables(), Carve(layout, f, needPages).free)
      ensures r.ToRun() == Run(f.offset, needPages) && r.used && !r.subpage && r.Fits()
    {
      var totalPages := h.pages;
      var remainPages := totalPages - needPages;
      if remainPages > 0 {
        var availOffset := h.runOffset + needPages;
        var availRun := RunHandle(Run(availOffset, remainPages), false);
        TailIsApart(layout, f, needPages);
        FreshKeys(runsAvailMap, layout.free - {f}, availRun.ToRun());
        TotalFits();
        FloorInRange(remainPages, maxOrder);
        InsertKeepsIndex(Tables(), layout.free - {f}, availRun);
        InsertAvailRun(availOffset, remainPages, availRun);
        return RunHandle(Run(h.runOffset, needPages), true);
      }
      assert Carve(layout, f, needPages).free == layout.free - {f};
      r := h.(used := true);
    }

    lemma TailIsApart(l: Layout, f: Run, need: nat)
      requires l.Tiled() && f in l.free && 0 < need < f.pages && l.total <= total
      ensures var tail := Run(f.offset + need, f.pages - need);
        && tail !in l.free - {f} && tail.End() <= total
        && forall g | g in l.free - {f} :: 0 < g.pages && !g.Overlaps(tail)
    {
      var tail := Run(f.offset + need, f.pages - need);
      forall g | g in l.free - {f} ensures 0 < g.pages && !g.Overlaps(tail) {
        assert !g.Overlaps(f);
      }
      assert tail.Overlaps(tail);
    }

    lemma NothingFits(pages: nat)
      requires Valid() && ExactPages(pages)
      requires Skipped(PageIdx(pages), NPSizes(maxOrder))
      ensures forall g | g in layout.free :: g.pages < pages
    {
      forall g | g in layout.free ensures g.pages < pages {
        FloorAgainstExact(pages, g.pages);
        assert QueuedRun(Tables(), g);
      }
    }

    lemma BestFitFound(pages: nat, i: nat, h: Handle)
      requires Valid() && ExactPages(pages) && PageIdx(pages) <= i < |runsAvail| && IsTop(runsAvail[i], h)
      requires Skipped(PageIdx(pages), i)
      ensures h.Fits() && !h.used && !h.subpage && 0 < h.pages && PageIdxFloor(h.pages) == i
      ensures runsAvailMap[h.runOffset] == h && IsBestFit(layout.free, pages, h.ToRun())
    {
      FloorAgainstExact(pages, h.pages);
      forall g | g in layout.free && pages <= g.pages
        ensures i < PageIdxFloor(g.pages) || (i == PageIdxFloor(g.pages) && h.runOffset <= g.offset)
      {
        FloorAgainstExact(pages, g.pages);
        assert QueuedRun(Tables(), g) && KeyedRun(runsAvailMap, g);
        if i == PageIdxFloor(g.pages) {
          EncodeOrder(h, runsAvailMap[g.offset]);
        }
      }
    }

    /** `allocateRun`.  Complete: it fails only when no free run is large enough.  Exact: it takes
        precisely the pages asked for, from the front of the best-fitting run. */
    method AllocateRun(runSize: nat) returns (r: Option<Handle>, ghost f: Run)
      requires Valid() && ExactPages(Shr(runSize, pageShifts)) && Shr(runSize, pageShifts) <= total
      modifies this
      ensures Valid()
      ensures r.None? ==> unchanged(this) && forall g | g in layout.free :: g.pages < Shr(runSize, pageShifts)
      ensures r.Some? ==> Served(old(layout), Shr(runSize, pageShifts), f, layout, r.value)
    {
      var pages := Shr(runSize, pageShifts);
      r, f := AllocatePages(pages);
    }

    method AllocatePages(pages: nat) returns (r: Option<Handle>, ghost f: Run)
      requires Valid() && ExactPages(pages) && pages <= total
      modifies this
      ensures Valid()
      ensures r.None? ==> unchanged(this) && forall g | g in layout.free :: g.pages < pages
      ensures r.Some? ==> Served(old(layout), pages, f, layout, r.value)
    {
      f := Run(0, 0);
      var pageIdx := PageIdx(pages);
      FloorInRange(pages, maxOrder);
      FloorOfExact(pages);
      var runAvailIdx := RunBestFit(pageIdx);
      if runAvailIdx == -1 {
        NothingFits(pages);
        return None, f;
      }
      ghost var top := TopExists(runsAvail[runAvailIdx]);
      var h :| IsTop(runsAvail[runAvailIdx], h);
      BestFitFound(pages, runAvailIdx, h);
      f := h.ToRun();
      var handle := TakeRun(runAvailIdx, h, pages);
      r := Some(handle);
    }

    /** The second half of `allocateRun`: pop the run off its queue and both keys, split it, count it. */
    method TakeRun(runAvailIdx: nat, h: Handle, pages: nat) returns (r: Handle)
      requires Valid() && h.ToRun() in layout.free && runsAvailMap[h.runOffset] == h
      requires 0 < h.pages && runAvailIdx == PageIdxFloor(h.pages) < |runsAvail|
      requires 0 < pages <= h.pages && h.Fits() && !h.used && !h.subpage
      modifies this
      ensures Valid() && layout == Carve(old(layout), h.ToRun(), pages)
      ensures r.ToRun() == Run(h.runOffset, pages) && r.used && !r.subpage && r.Fits()
    {
      hide Keyed, Queued, Layout.Tiled, Layout.Coalesced;
      CanRemove(layout, h.ToRun());
      RemoveKeepsIndex(Tables(), layout.free, h);
      PopRun(runAvailIdx, h);
      r := SplitLargeRun(h, pages, h.ToRun());
      TakeInLayout(h.ToRun(), pages);
      freeBytes := freeBytes - Shl(r.pages, pageShifts);
    }

    /** `pop` takes the run off the queue; the `remove` that follows finds it gone already. */
    method PopRun(runAvailIdx: nat, h: Handle)
      requires 0 < h.pages && runAvailIdx == PageIdxFloor(h.pages) < |runsAvail|
      modifies this`runsAvail, this`runsAvailMap
      ensures Tables() == Removed(old(Tables()), h)
    {
      runsAvail := runsAvail[runAvailIdx := runsAvail[runAvailIdx] - {h}];
      RemoveFromQueue(runAvailIdx, h);
      assert old(runsAvail)[runAvailIdx] - {h} - {h} == old(runsAvail)[runAvailIdx] - {h};
    }

    lemma CanRemove(l: Layout, f: Run)
      requires l.Tiled() && f in l.free
      ensures 0 < f.pages && forall g | g in l.free && g != f :: 0 < g.pages && !g.Overlaps(f)
    {
    }

    lemma LiveFits(l: Layout, r: Run)
      requires l.Tiled() && r in l.live && l.total <= 0x2000
      ensures RunHandle(r, false).Fits()
    {
    }

    ghost method TakeInLayout(f: Run, pages: nat)
      requires layout.Valid() && Conserved(layout) && f in layout.free && 0 < pages <= f.pages
      modifies this`layout
      ensures layout == Carve(old(layout), f, pages) && layout.Valid() && Conserved(layout)
      ensures Shl(Pages(layout.free), pageShifts) == Shl(Pages(old(layout).free), pageShifts) - Shl(pages, pageShifts)
    {
      hide Layout.Tiled, Layout.Coalesced, Pages;
      CarveIsValid(layout, f, pages);
      CarveConserves(layout, f, pages);
      ShlAdd(Pages(layout.free) - pages, pages, pageShifts);
      layout := Carve(layout, f, pages);
    }

    // ---------------------------------------------------------------- release

    method GetAvailRunByOffset(runOffset: int) returns (r: Option<Handle>)
      ensures r == if runOffset in runsAvailMap then Some(runsAvailMap[runOffset]) else None
    {
      if runOffset in runsAvailMap {
        return Some(runsAvailMap[runOffset]);
      }
      r := None;
    }

    /** The run being freed, mid-collapse: still counted live, all other live runs as before. */
    ghost predicate InHand(h: Handle, others: set<Run>)
      reads this`layout
    {
      h.Fits() && h.ToRun() in layout.live && layout.live - {h.ToRun()} == others
    }

    ghost predicate NoneEndsAt(offset: nat)
      reads this`layout
    {
      forall f | f in layout.free :: f.End() != offset
    }

    ghost predicate NoneStartsAt(offset: nat)
      reads this`layout
    {
      forall f | f in layout.free :: f.offset != offset
    }

    method CollapsePrev(h0: Handle, ghost others: set<Run>) returns (h: Handle)
      requires Consistent() && InHand(h0, others)
      modifies this`runsAvail, this`runsAvailMap, this`layout
      ensures Consistent() && InHand(h, others) && NoneEndsAt(h.runOffset)
    {
      hide Keyed, Queued, Layout.Tiled, Layout.Coalesced, NoneEndsAt, NoneStartsAt;
      h := h0;
      while true
        invariant Consistent() && InHand(h, others)
        decreases |layout.free|
      {
        var prevRun := GetAvailRunByOffset(h.runOffset - 1);
        PrevKey(h);
        if prevRun == None {
          break;
        }
        var prev := prevRun.value;
        if prev == h || prev.runOffset + prev.pages != h.runOffset {
          break;
        }
        h := Grow(h, prev, others);
      }
    }

    method CollapseNext(h0: Handle, ghost others: set<Run>) returns (h: Handle)
      requires Consistent() && InHand(h0, others) && NoneEndsAt(h0.runOffset)
      modifies this`runsAvail, this`runsAvailMap, this`layout
      ensures Consistent() && InHand(h, others) && NoneEndsAt(h.runOffset) && NoneStartsAt(h.runOffset + h.pages)
    {
      hide Keyed, Queued, Layout.Tiled, Layout.Coalesced, NoneEndsAt, NoneStartsAt;
      h := h0;
      while true
        invariant Consistent() && InHand(h, others) && NoneEndsAt(h.runOffset)
        decreases |layout.free|
      {
        var nextRun := GetAvailRunByOffset(h.runOffset + h.pages);
        NextKey(h);
        if nextRun == None {
          break;
        }
        var next := nextRun.value;
        if next == h || h.runOffset + h.pages != next.runOffset {
          break;
        }
        h := Grow(h, next, others);
      }
    }

    /** The key just below the run in hand is there exactly when a free run ends at it. */
    lemma PrevKey(h: Handle)
      requires Consistent() && h.ToRun() in layout.live
      ensures h.runOffset - 1 in runsAvailMap ==>
        var prev := runsAvailMap[h.runOffset - 1];
        prev != h && prev.runOffset + prev.pages == h.runOffset
        && prev.ToRun() in layout.free && runsAvailMap[prev.runOffset] == prev
      ensures h.runOffset - 1 !in runsAvailMap ==> NoneEndsAt(h.runOffset)
    {
      hide Queued, Layout.Owned, Conserved, Handle.Fits;
      if h.runOffset - 1 in runsAvailMap {
        var prev := runsAvailMap[h.runOffset - 1];
        assert KeyedRun(runsAvailMap, prev.ToRun());
        assert !prev.ToRun().Overlaps(h.ToRun());
      } else {
        forall f | f in layout.free ensures f.End() != h.runOffset {
          assert KeyedRun(runsAvailMap, f);
        }
      }
    }

    /** The same on the other side. */
    lemma NextKey(h: Handle)
      requires Consistent() && h.ToRun() in layout.live
      ensures h.runOffset + h.pages in runsAvailMap ==>
        var next := runsAvailMap[h.runOffset + h.pages];
        next != h && h.runOffset < h.runOffset + h.pages == next.runOffset
        && next.ToRun() in layout.free && runsAvailMap[next.runOffset] == next
      ensures h.runOffset + h.pages !in runsAvailMap ==> NoneStartsAt(h.runOffset + h.pages)
    {
      hide Queued, Layout.Owned;
      if h.runOffset + h.pages in runsAvailMap {
        var next := runsAvailMap[h.runOffset + h.pages];
        assert KeyedRun(runsAvailMap, next.ToRun());
        assert !next.ToRun().Overlaps(h.ToRun());
      } else {
        forall f | f in layout.free ensures h.runOffset + h.pages != f.offset {
          assert KeyedRun(runsAvailMap, f);
        }
      }
    }

    /** One merge: the neighbour leaves both indexes and the run in hand takes its pages. */
    method Grow(h: Handle, f: Handle, ghost others: set<Run>) returns (r: Handle)
      requires Consistent() && InHand(h, others)
      requires f.ToRun() in layout.free && runsAvailMap[f.runOffset] == f && Touch(h.ToRun(), f.ToRun())
      modifies this`runsAvail, this`runsAvailMap, this`layout
      ensures Consistent() && InHand(r, others) && r.ToRun() == Join(h.ToRun(), f.ToRun())
      ensures layout.free == old(layout.free) - {f.ToRun()}
      ensures h.runOffset < f.runOffset && old(NoneEndsAt(h.runOffset)) ==> NoneEndsAt(r.runOffset)
    {
      hide Keyed, Queued, Layout.Tiled, Layout.Coalesced, Pages, Run.Overlaps;
      CanRemove(layout, f.ToRun());
      QueueOf(Tables(), layout.free, f.ToRun());
      RemoveKeepsIndex(Tables(), layout.free, f);
      RemoveAvailRun(f);
      r := RunHandle(Join(h.ToRun(), f.ToRun()), false);
      GrowInLayout(h.ToRun(), f.ToRun(), others);
      TotalFits();
      LiveFits(layout, r.ToRun());
    }

    ghost method GrowInLayout(hand: Run, f: Run, others: set<Run>)
      requires layout.Valid() && Conserved(layout) && hand in layout.live && f in layout.free && Touch(hand, f)
      requires layout.live - {hand} == others
      modifies this`layout
      ensures layout == Absorb(old(layout), hand, f) && layout.Valid() && Conserved(layout)
      ensures layout.live - {Join(hand, f)} == others
    {
      AbsorbIsTiled(layout, hand, f);
      AbsorbConserves(layout, hand, f);
      assert Join(hand, f) !in layout.live - {hand} by { assert Join(hand, f).Overlaps(hand); }
      layout := Absorb(layout, hand, f);
    }

    /** `free` of a run: coalesce both ways, then file the result.  Which free runs come out is
        fixed by the live runs that stay (`FreeRunsAreDetermined`). */
    method FreeRun(handle: Handle)
      requires Valid() && handle.Fits() && handle.ToRun() in layout.live
      modifies this
      ensures Valid() && layout.live == old(layout.live) - {handle.ToRun()}
      ensures freeBytes == old(freeBytes) + Shl(handle.pages, pageShifts)
    {
      hide Keyed, Queued, Layout.Tiled, Layout.Coalesced, Pages, NoneEndsAt, NoneStartsAt;
      ghost var others := layout.live - {handle.ToRun()};
      ghost var before := layout;
      var pages := handle.pages;
      var h := CollapsePrev(handle, others);
      h := CollapseNext(h, others);
      var concateRun := h.(used := false, subpage := false);
      FileRun(concateRun);
      Released(before, layout, handle.ToRun());
      freeBytes := freeBytes + Shl(pages, pageShifts);
    }

    method FileRun(h: Handle)
      requires Consistent() && h.Fits() && !h.used && !h.subpage && h.ToRun() in layout.live
      requires NoneEndsAt(h.runOffset) && NoneStartsAt(h.runOffset + h.pages)
      modifies this`runsAvail, this`runsAvailMap, this`layout
      ensures Consistent() && layout == Retire(old(layout), h.ToRun())
    {
      hide Keyed, Queued, Layout.Tiled, Layout.Coalesced, Pages;
      LiveIsApart(layout, h.ToRun());
      FreshKeys(runsAvailMap, layout.free, h.ToRun());
      FloorInRange(h.pages, maxOrder);
      InsertKeepsIndex(Tables(), layout.free, h);
      InsertAvailRun(h.runOffset, h.pages, h);
      RetireIsValid(layout, h.ToRun());
      RetireConserves(layout, h.ToRun());
      layout := Retire(layout, h.ToRun());
    }

    lemma LiveIsApart(l: Layout, r: Run)
      requires l.Tiled() && r in l.live
      ensures 0 < r.pages && r.End() <= l.total && r !in l.free
      ensures forall f | f in l.free :: 0 < f.pages && !f.Overlaps(r)
    {
    }

    lemma Released(before: Layout, after: Layout, r: Run)
      requires Conserved(before) && Conserved(after) && before.total == after.total
      requires r in before.live && after.live == before.live - {r}
      ensures Shl(Pages(after.free), pageShifts) == Shl(Pages(before.free), pageShifts) + Shl(r.pages, pageShifts)
    {
      PagesOfRemoved(before.live, r);
      ShlAdd(Pages(before.free), r.pages, pageShifts);
    }
  }
}
