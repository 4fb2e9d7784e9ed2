/** The operations of the arena and its thread cache, and every run of them. */
module ArenaOps {
  import opened Powers
  import opened Runs
  import opened Handles
  import opened Subpages
  import opened ChunkLists
  import opened ArenaState
  import opened ArenaSteps
  import ArenaSafety

  // ---------------------------------------------------------------- finding the right list again

  /** `PoolChunkList::allocate` and `add`, after an allocation from chunk `c`. */
  ghost function SettleUp(s: Arena, c: nat): (s': Arena)
    requires c in s.chunks && s.chunks[c].parent < |s.lists| == BANDS
    ensures s'.subs == s.subs && s'.held == s.held && s'.pageShifts == s.pageShifts && s'.queues == s.queues
  {
    var band := s.chunks[c].parent;
    if s.FreeBytes(c) <= FreeMin(s.ChunkSize(), band) then
      Relist(s, c, AddTo(s.ChunkSize(), band, s.FreeBytes(c)))
    else s
  }

  /** `PoolChunkList::free`, `move0` and `move`, after a release in chunk `c`; a chunk with no list
      left to go to is destroyed. */
  ghost function SettleDown(s: Arena, c: nat): (s': Arena)
    requires c in s.chunks && s.chunks[c].parent < |s.lists| == BANDS
    ensures s'.subs == s.subs && s'.held == s.held && s'.pageShifts == s.pageShifts && s'.queues == s.queues
  {
    var band := s.chunks[c].parent;
    if band == Q_INIT || s.FreeBytes(c) <= FreeMax(s.ChunkSize(), band) then s
    else match MoveFrom(s.ChunkSize(), band, s.FreeBytes(c))
         case Band(b) => Relist(s, c, b)
         case Destroyed => Destroy(s, c)
  }

  /** A chunk that moves comes first in its new list; the other lists, and the order of the rest, stay. */
  lemma MovedToFront(s: Arena, c: nat, s': Arena)
    requires c in s.chunks && s.chunks[c].parent < |s.lists| == BANDS && c in s'.chunks
    requires s' == SettleUp(s, c) || s' == SettleDown(s, c)
    requires s'.chunks[c].parent != s.chunks[c].parent
    ensures var from, to := s.chunks[c].parent, s'.chunks[c].parent;
      && to < |s'.lists| == BANDS && s'.lists[to] == [c] + s.lists[to] && s'.lists[from] == Without(s.lists[from], c)
      && forall b | 0 <= b < BANDS && b != from && b != to :: s'.lists[b] == s.lists[b]
  {
    hide AddTo, MoveFrom, Without;
  }

  // ---------------------------------------------------------------- allocation

  /** A small size from its pool. */
  ghost predicate AllocPooled(s: Arena, k: nat, x: nat, s': Arena)
    requires s.Core()
  {
    CanTakeElem(s, k, x) && (assert s.pools[k][0] in s.pools[k]; s' == TakeElem(s, k, x))
  }

  /** A normal size from chunk `c`, whose layout becomes `l`. */
  ghost predicate AllocNormal(s: Arena, c: nat, l: Layout, h: Handle, x: nat, s': Arena)
    requires s.Core()
  {
    CanTakeRun(s, c, l, h, x) && s' == SettleUp(TakeRun(s, c, l, h, x), c)
  }

  /** A small size whose pool is empty: a run of chunk `c` becomes a subpage and gives its first element. */
  ghost predicate AllocSubpage(s: Arena, c: nat, l: Layout, run: Run, k: nat, elems: nat, x: nat, s': Arena)
    requires s.Core()
  {
    && CanAddSub(s, c, l, run, k, elems) && s.pools[k] == [] && x !in s.held
    && s' == SettleUp(TakeElem(AddSub(s, c, l, run, k, elems), k, x), c)
  }

  // ---------------------------------------------------------------- release

  /** `PoolSubpage::free` finds the subpage wholly free and another one in its pool. */
  ghost predicate Releases(s: Arena, x: nat)
    requires s.Core() && CanReturnElem(s, x)
  {
    ElemIsLive(s, x);
    var sub := s.subs[s.held[x].At()];
    0 < sub.NumAvail() && sub.used == {s.held[x].handle.bitmapIdx} && |s.pools[ClassOf(sub)]| != 1
  }

  /** The chunk can take the region back; its layout becomes `l` if a run goes with it. */
  ghost predicate CanFree(s: Arena, x: nat, l: Layout)
    requires s.Core()
  {
    if CanReturnElem(s, x) then
      Releases(s, x) ==> Shrinks(s, s.held[x].chunk, l, s.subs[s.held[x].At()].run)
    else CanReturnRun(s, x, l)
  }

  /** An element goes back, and its subpage with it if it is released. */
  ghost function WithoutElem(s: Arena, x: nat, l: Layout, released: bool): (s1: Arena)
    requires x in s.held && s.held[x].At() in s.subs && s.held[x].chunk in s.chunks
    requires ClassOf(s.subs[s.held[x].At()]) < |s.pools|
    ensures s1.held == s.held - {x} && s1.lists == s.lists
    ensures s1.pageShifts == s.pageShifts && s1.maxOrder == s.maxOrder
    ensures forall p | p in s1.subs :: p in s.subs && s1.subs[p].elemSize == s.subs[p].elemSize
    ensures s.held[x].chunk in s1.chunks && s1.chunks[s.held[x].chunk].parent == s.chunks[s.held[x].chunk].parent
  {
    if released then DropSub(ReturnElem(s, x), s.held[x].At(), l) else ReturnElem(s, x)
  }

  lemma FreedFrom(s: Arena, x: nat, l: Layout)
    requires s.Core() && CanFree(s, x, l)
    ensures x in s.held && s.held[x].chunk in s.chunks && s.chunks[s.held[x].chunk].parent < |s.lists|
    ensures CanReturnElem(s, x) ==> s.held[x].At() in s.subs && ClassOf(s.subs[s.held[x].At()]) < |s.pools|
  {
    hide Releases;
    assert s.LiveRegion(s.held[x]);
    if CanReturnElem(s, x) { ElemIsLive(s, x); }
  }

  /** `PoolChunk::free`. */
  ghost function Freed(s: Arena, x: nat, l: Layout): (s1: Arena)
    requires s.Core() && CanFree(s, x, l)
    ensures s1.held == s.held - {x} && s1.lists == s.lists
    ensures s1.pageShifts == s.pageShifts && s1.maxOrder == s.maxOrder
    ensures forall p | p in s1.subs :: p in s.subs && s1.subs[p].elemSize == s.subs[p].elemSize
    ensures s.held[x].chunk in s.chunks && s.held[x].chunk in s1.chunks
    ensures s1.chunks[s.held[x].chunk].parent == s.chunks[s.held[x].chunk].parent < |s1.lists|
  {
    FreedFrom(s, x, l);
    if CanReturnElem(s, x) then WithoutElem(s, x, l, Releases(s, x)) else ReturnRun(s, x, l)
  }

  lemma FreedQueues(s: Arena, x: nat, l: Layout)
    requires s.Core() && CanFree(s, x, l)
    ensures Freed(s, x, l).queues == s.queues
  {
    hide Arena.Core, Releases, CanReturnElem, CanReturnRun;
  }

  /** `freeChunk` of a region no queue holds. */
  ghost predicate Release(s: Arena, x: nat, l: Layout, s': Arena)
    requires s.Core()
  {
    CanFree(s, x, l) && s' == SettleDown(Freed(s, x, l), s.held[x].chunk)
  }

  // ---------------------------------------------------------------- list bounds

  /** All chunks but `c` still sit within the bounds of their list. */
  ghost predicate BandedBut(s: Arena, c: nat) {
    forall d | d in s.chunks && d != c :: s.Banded(d)
  }

  lemma OthersBanded(s: Arena, s': Arena, c: nat)
    requires BandedBut(s, c) && s'.pageShifts == s.pageShifts && s'.maxOrder == s.maxOrder
    requires forall d | d in s'.chunks && d != c :: d in s.chunks && s'.chunks[d] == s.chunks[d]
    ensures BandedBut(s', c)
  {
    forall d | d in s'.chunks && d != c ensures s'.Banded(d) {
      assert s.Banded(d);
    }
  }

  lemma RelistBanded(s: Arena, c: nat, band: nat)
    requires BandedBut(s, c) && c in s.chunks && s.chunks[c].parent < |s.lists| && band < |s.lists|
    requires InBand(s.ChunkSize(), band, s.FreeBytes(c))
    ensures Relist(s, c, band).ListsBounds()
  {
    var s' := Relist(s, c, band);
    OthersBanded(s, s', c);
    assert s'.Banded(c);
    forall d | d in s'.chunks ensures s'.Banded(d) {
    }
  }

  lemma Located(s: Arena, c: nat)
    requires s.Core() && c in s.chunks
    ensures ChunkSizeOk(s.ChunkSize()) && s.chunks[c].parent < |s.lists| == BANDS
    ensures s.chunks[c].layout.live != {} <==> s.FreeBytes(c) < s.ChunkSize()
    ensures 0 <= s.FreeBytes(c) <= s.ChunkSize()
  {
    hide Arena.SubsOk, Arena.HeldOk, Arena.Exclusive, Arena.NoLeak, Arena.PoolsOk, Arena.PoolsComplete, Arena.QueuesOk,
      Arena.ChunksOk, Arena.FreeBytes;
    ArenaSafety.LiveCosts(s, c);
  }

  lemma RelistInv(s: Arena, c: nat, band: nat)
    requires s.Core() && s.OneIdle() && BandedBut(s, c) && c in s.chunks && s.chunks[c].parent < |s.lists|
    requires band < |s.lists| && InBand(s.ChunkSize(), band, s.FreeBytes(c))
    ensures Relist(s, c, band).Inv()
  {
    hide Arena.Core, BandedBut, InBand, Arena.Banded;
    RelistBanded(s, c, band);
    RelistCore(s, c, band);
  }

  lemma DestroyInv(s: Arena, c: nat)
    requires s.Core() && s.OneIdle() && BandedBut(s, c) && CanDestroy(s, c) && s.chunks[c].parent < |s.lists|
    ensures Destroy(s, c).Inv()
  {
    hide Arena.Core;
    DestroyCore(s, c);
    OthersBanded(s, Destroy(s, c), c);
    assert Destroy(s, c).ListsBounds();
  }

  lemma StayInv(s: Arena, c: nat)
    requires s.Core() && s.OneIdle() && BandedBut(s, c) && c in s.chunks && s.Banded(c)
    ensures s.Inv()
  {
    hide Arena.Core, Arena.Banded;
  }

  lemma SettleUpInv(s: Arena, c: nat)
    requires s.Core() && s.OneIdle() && BandedBut(s, c) && c in s.chunks
    requires s.FreeBytes(c) <= FreeMax(s.ChunkSize(), s.chunks[c].parent)
    ensures s.chunks[c].parent < |s.lists| == BANDS && SettleUp(s, c).Inv()
  {
    hide Arena.Core, Arena.Inv, Arena.OneIdle, Arena.FreeBytes, BandedBut, FreeMin, FreeMax, AddTo, Relist;
    Located(s, c);
    var band := s.chunks[c].parent;
    if s.FreeBytes(c) <= FreeMin(s.ChunkSize(), band) {
      AddFindsBand(s.ChunkSize(), band, s.FreeBytes(c));
      RelistInv(s, c, AddTo(s.ChunkSize(), band, s.FreeBytes(c)));
    } else {
      StayInv(s, c);
    }
  }

  lemma SettleDownInv(s: Arena, c: nat)
    requires s.Core() && s.OneIdle() && BandedBut(s, c) && c in s.chunks
    requires s.chunks[c].parent < BANDS && FreeMin(s.ChunkSize(), s.chunks[c].parent) < s.FreeBytes(c)
    ensures s.chunks[c].parent < |s.lists| == BANDS && SettleDown(s, c).Inv()
    ensures c !in SettleDown(s, c).chunks ==> s.chunks[c].layout.live == {}
  {
    hide Arena.Core, Arena.Inv, Arena.OneIdle, Arena.FreeBytes, BandedBut, MoveFrom;
    Located(s, c);
    BandsOverlap(s.ChunkSize());
    var band := s.chunks[c].parent;
    if band == Q_INIT || s.FreeBytes(c) <= FreeMax(s.ChunkSize(), band) {
      StayInv(s, c);
    } else {
      MoveFindsBand(s.ChunkSize(), band, s.FreeBytes(c));
      match MoveFrom(s.ChunkSize(), band, s.FreeBytes(c)) {
        case Band(b) => RelistInv(s, c, b);
        case Destroyed => DestroyInv(s, c);
      }
    }
  }

  // ---------------------------------------------------------------- every operation keeps the invariant

  lemma GrowthCosts(s: Arena, c: nat, l: Layout, run: Run)
    requires s.ChunksOk() && Grows(s, c, l, run)
    ensures Shl(Pages(l.free), s.pageShifts) <= s.FreeBytes(c)
  {
    assert s.ChunkOk(s.chunks[c].layout);
    PagesOfAdded(s.chunks[c].layout.live, run);
    ShlOrder(Pages(l.free), Pages(s.chunks[c].layout.free), s.pageShifts);
  }

  lemma ShrinkageGains(s: Arena, c: nat, l: Layout, run: Run)
    requires s.ChunksOk() && Shrinks(s, c, l, run)
    ensures s.FreeBytes(c) <= Shl(Pages(l.free), s.pageShifts)
  {
    assert s.ChunkOk(s.chunks[c].layout);
    PagesOfRemoved(s.chunks[c].layout.live, run);
    ShlOrder(Pages(s.chunks[c].layout.free), Pages(l.free), s.pageShifts);
  }

  lemma AllocNormalInv(s: Arena, c: nat, l: Layout, h: Handle, x: nat, s': Arena)
    requires s.Inv() && AllocNormal(s, c, l, h, x, s')
    ensures s'.Inv()
  {
    hide Arena.SubsOk, Arena.HeldOk, Arena.Exclusive, Arena.NoLeak, Arena.PoolsOk, Arena.PoolsComplete, Arena.QueuesOk,
      Arena.ChunksOk, Arena.ListsShape, Arena.NormalRun, SettleUp;
    var s1 := TakeRun(s, c, l, h, x);
    TakeRunCore(s, c, l, h, x);
    GrowthCosts(s, c, l, h.ToRun());
    assert s.Banded(c);
    OthersBanded(s, s1, c);
    SettleUpInv(s1, c);
  }

  /** At most one idle subpage a class, `p0` aside. */
  ghost predicate OneIdleBut(s: Arena, p0: Place) {
    forall p, q | p in s.subs && q in s.subs && p != q && p != p0 && q != p0 && ClassOf(s.subs[p]) == ClassOf(s.subs[q])
                  && 1 < s.subs[p].maxElems && 1 < s.subs[q].maxElems ::
      s.subs[p].used != {} || s.subs[q].used != {}
  }

  lemma TakeElemIdle(s: Arena, k: nat, x: nat)
    requires s.PoolsOk() && CanTakeElem(s, k, x) && OneIdleBut(s, s.pools[k][0])
    ensures s.pools[k][0] in s.subs && TakeElem(s, k, x).OneIdle()
  {
    var p0 := s.pools[k][0];
    assert p0 in s.pools[k];
    var s' := TakeElem(s, k, x);
    assert NextAvail(s.subs[p0]) in s'.subs[p0].used;
  }

  lemma AllocPooledInv(s: Arena, k: nat, x: nat, s': Arena)
    requires s.Inv() && AllocPooled(s, k, x, s')
    ensures s'.Inv()
  {
    hide Arena.SubsOk, Arena.HeldOk, Arena.Exclusive, Arena.NoLeak, Arena.PoolsComplete, Arena.QueuesOk,
      Arena.ChunksOk, Arena.ListsShape, Take;
    TakeElemCore(s, k, x);
    TakeElemIdle(s, k, x);
    SameChunks(s, s');
  }

  lemma AddSubIdle(s: Arena, c: nat, l: Layout, run: Run, k: nat, elems: nat)
    requires s.OneIdle() && CanAddSub(s, c, l, run, k, elems)
    ensures OneIdleBut(AddSub(s, c, l, run, k, elems), Place(c, run.offset))
  {
  }

  lemma AllocSubpageInv(s: Arena, c: nat, l: Layout, run: Run, k: nat, elems: nat, x: nat, s': Arena)
    requires s.Inv() && AllocSubpage(s, c, l, run, k, elems, x, s')
    ensures s'.Inv()
  {
    hide Arena.SubsOk, Arena.HeldOk, Arena.Exclusive, Arena.NoLeak, Arena.PoolsOk, Arena.PoolsComplete, Arena.QueuesOk,
      Arena.ChunksOk, Arena.ListsShape, Arena.OneIdle, OneIdleBut, SettleUp, Take;
    var s1 := AddSub(s, c, l, run, k, elems);
    AddSubCore(s, c, l, run, k, elems);
    AddSubIdle(s, c, l, run, k, elems);
    var s2 := TakeElem(s1, k, x);
    TakeElemCore(s1, k, x);
    TakeElemIdle(s1, k, x);
    GrowthCosts(s, c, l, run);
    assert s.Banded(c);
    OthersBanded(s, s2, c);
    SettleUpInv(s2, c);
  }

  lemma FreedCore(s: Arena, x: nat, l: Layout)
    requires s.Core() && CanFree(s, x, l)
    ensures Freed(s, x, l).Core()
  {
    hide Arena.SubsOk, Arena.HeldOk, Arena.Exclusive, Arena.NoLeak, Arena.PoolsOk, Arena.PoolsComplete, Arena.QueuesOk,
      Arena.ChunksOk, Arena.ListsShape;
    if CanReturnElem(s, x) {
      ElemIsLive(s, x);
      ReturnElemCore(s, x);
      if Releases(s, x) {
        DropSubCore(ReturnElem(s, x), s.held[x].At(), l);
      }
    } else {
      ReturnRunCore(s, x, l);
    }
  }

  /** A subpage kept although wholly free has its pool to itself, or only one element. */
  lemma KeptIdle(s: Arena, x: nat, q: Place)
    requires s.Core() && CanReturnElem(s, x) && !Releases(s, x) && s.held[x].At() in s.subs && q in s.subs
    requires q != s.held[x].At() && ClassOf(s.subs[q]) == ClassOf(s.subs[s.held[x].At()]) < |s.pools|
    requires 1 < s.subs[s.held[x].At()].maxElems && 1 < s.subs[q].maxElems
    requires s.subs[s.held[x].At()].used == {s.held[x].handle.bitmapIdx}
    ensures s.subs[q].used != {}
  {
    hide Arena.SubsOk, Arena.HeldOk, Arena.Exclusive, Arena.NoLeak, Arena.PoolsOk, Arena.QueuesOk,
      Arena.ChunksOk, Arena.ListsShape;
  }

  lemma ReturnElemIdle(s: Arena, x: nat)
    requires s.Core() && s.OneIdle() && CanReturnElem(s, x) && !Releases(s, x)
    ensures s.held[x].At() in s.subs && ClassOf(s.subs[s.held[x].At()]) < |s.pools| && ReturnElem(s, x).OneIdle()
  {
    hide Arena.SubsOk, Arena.HeldOk, Arena.Exclusive, Arena.NoLeak, Arena.PoolsOk, Arena.PoolsComplete, Arena.QueuesOk,
      Arena.ChunksOk, Arena.ListsShape;
    ElemIsLive(s, x);
    var p, i := s.held[x].At(), s.held[x].handle.bitmapIdx;
    var s' := ReturnElem(s, x);
    forall q | q in s.subs && q != p && ClassOf(s.subs[q]) == ClassOf(s.subs[p])
               && 1 < s.subs[p].maxElems && 1 < s.subs[q].maxElems
      ensures s'.subs[p].used != {} || s'.subs[q].used != {}
    {
      if s.subs[p].used - {i} == {} {
        assert s.subs[p].used == {i};
        KeptIdle(s, x, q);
      }
    }
  }

  lemma FreedIdle(s: Arena, x: nat, l: Layout)
    requires s.Core() && s.OneIdle() && CanFree(s, x, l)
    ensures Freed(s, x, l).OneIdle()
  {
    hide Arena.SubsOk, Arena.HeldOk, Arena.Exclusive, Arena.NoLeak, Arena.PoolsOk, Arena.PoolsComplete, Arena.QueuesOk,
      Arena.ChunksOk, Arena.ListsShape;
    if CanReturnElem(s, x) {
      ElemIsLive(s, x);
      if !Releases(s, x) {
        ReturnElemIdle(s, x);
      }
    }
  }

  /** Room only grows, and only in the region's own chunk. */
  lemma FreedBands(s: Arena, x: nat, l: Layout)
    requires s.Inv() && CanFree(s, x, l)
    ensures BandedBut(Freed(s, x, l), s.held[x].chunk)
    ensures s.FreeBytes(s.held[x].chunk) <= Freed(s, x, l).FreeBytes(s.held[x].chunk)
  {
    hide Arena.SubsOk, Arena.HeldOk, Arena.Exclusive, Arena.NoLeak, Arena.PoolsOk, Arena.PoolsComplete, Arena.QueuesOk,
      Arena.ChunksOk, Arena.ListsShape, Arena.Banded;
    var c := s.held[x].chunk;
    if CanReturnElem(s, x) {
      ElemIsLive(s, x);
      if Releases(s, x) {
        ShrinkageGains(s, c, l, s.subs[s.held[x].At()].run);
      }
    } else {
      ShrinkageGains(s, c, l, s.held[x].handle.ToRun());
    }
    OthersBanded(s, Freed(s, x, l), c);
  }

  lemma ReleaseInv(s: Arena, x: nat, l: Layout, s': Arena)
    requires s.Inv() && Release(s, x, l, s')
    ensures s'.Inv() && s'.held == s.held - {x}
  {
    hide Arena.SubsOk, Arena.HeldOk, Arena.Exclusive, Arena.NoLeak, Arena.PoolsOk, Arena.PoolsComplete, Arena.QueuesOk,
      Arena.ChunksOk, Arena.ListsShape, Freed, SettleDown;
    FreedCore(s, x, l);
    FreedIdle(s, x, l);
    FreedBands(s, x, l);
    assert s.Banded(s.held[x].chunk);
    SettleDownInv(Freed(s, x, l), s.held[x].chunk);
  }
}
