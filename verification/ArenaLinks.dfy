/** Links between what one object promises and what the arena model needs: chunk and subpage contracts
    as arena moves, and sequences of moves as whole operations. */
module ArenaLinks {
  import opened Basics
  import opened Powers
  import opened ClassMath
  import opened PageClasses
  import opened Runs
  import opened Handles
  import opened Subpages
  import opened ChunkLists
  import opened PoolChunks
  import opened RunSizing
  import opened RequestSizes
  import opened ArenaSearch
  import opened ArenaState
  import opened ArenaSteps
  import opened ArenaOps
  import ArenaRuns
  import ArenaOwners
  import ArenaSafety

  // ---------------------------------------------------------------- chunk contracts as moves

  /** What `allocateRun` promises is what the arena needs to grow a chunk. */
  lemma ServedGrows(s: Arena, c: nat, need: nat, f: Run, l: Layout, h: Handle)
    requires s.ChunksOk() && c in s.chunks && Served(s.chunks[c].layout, need, f, l, h)
    ensures Grows(s, c, l, h.ToRun()) && h.Fits()
  {
    var before := s.chunks[c].layout;
    assert s.ChunkOk(before);
    CarveIsValid(before, f, need);
    CarveConserves(before, f, need);
    assert f.Overlaps(h.ToRun());
  }

  lemma SameLayout(s: Arena, c: nat)
    requires c in s.chunks
    ensures WithLayout(s, c, s.chunks[c].layout) == s
  {
    assert s.chunks[c := s.chunks[c].(layout := s.chunks[c].layout)] == s.chunks;
  }

  lemma ServedByChunk(s: Arena, c: nat, need: nat, f: Run, l: Layout, h: Handle)
    requires s.Inv() && c in s.chunks && Served(s.chunks[c].layout, need, f, l, h)
    ensures Grows(s, c, l, h.ToRun()) && h.Fits() && h.pages == need && !h.subpage
  {
    hide Arena.SubsOk, Arena.HeldOk, Arena.Exclusive, Arena.NoLeak, Arena.PoolsOk, Arena.PoolsComplete, Arena.QueuesOk,
      Arena.ListsShape, Arena.ListsBounds, Arena.OneIdle, Arena.ChunksOk;
    ServedGrows(s, c, need, f, l, h);
  }

  /** The run behind a subpage is an exact page class and holds a whole number of elements. */
  lemma SubpageRun(p: nat, o: nat, k: nat, runSize: nat, pages: nat)
    requires ValidConfig(p, o) && 1 <= pages <= 7 && runSize == pages * Pow2(p)
    requires runSize % SizeOf(k) == 0 && 1 <= runSize / SizeOf(k)
    ensures Shr(runSize, p) == pages && ExactPages(pages) && pages <= Pow2(o)
    ensures runSize / SizeOf(k) * SizeOf(k) == Shl(pages, p)
  {
    ShlIsProduct(pages, p);
    ShrShl(pages, p);
    RunIsExactPages(pages, o);
    hide Pow2, SizeOf, ExactPages;
    Divides(runSize, SizeOf(k));
  }

  lemma Divides(a: nat, d: nat)
    requires 0 < d && a % d == 0
    ensures a / d * d == a
  {
    assert a == a / d * d + a % d;
  }

  ghost predicate SettledUp(s: Arena, c: nat, s': Arena) {
    c in s.chunks && s.chunks[c].parent < |s.lists| == BANDS && s' == SettleUp(s, c)
  }

  ghost predicate SettledDown(s: Arena, c: nat, s': Arena) {
    c in s.chunks && s.chunks[c].parent < |s.lists| == BANDS && s' == SettleDown(s, c)
  }

  /** Nothing but entries of `was`. */
  ghost predicate Among<T>(now: map<nat, T>, was: map<nat, T>) {
    forall d | d in now :: d in was && now[d] == was[d]
  }

  /** What both have, both have the same; at most one entry is new, under a key from `next` on. */
  ghost predicate OneMore<T>(now: map<nat, T>, was: map<nat, T>, next: nat) {
    && (forall d | d in now && d in was :: now[d] == was[d])
    && (forall d | d in now && d !in was :: next <= d)
    && (forall d, e | d in now && e in now && d !in was && e !in was :: d == e)
  }

  lemma OnlyFewer<T>(now: map<nat, T>, was: map<nat, T>, next: nat)
    requires Among(now, was)
    ensures OneMore(now, was, next)
  {
  }

  lemma MoreAfterFewer<T>(now: map<nat, T>, mid: map<nat, T>, was: map<nat, T>, next: nat)
    requires Among(mid, was) && OneMore(now, mid, next) && forall d | d in was :: d < next
    ensures OneMore(now, was, next)
  {
  }

  ghost predicate Homed(s: Arena, c: nat, home: Home, s': Arena) {
    && c in s.chunks && s.chunks[c].parent < |s.lists| == BANDS
    && match home
       case Band(b) => b < BANDS && s' == ArenaSteps.Relist(s, c, b)
       case Destroyed => s' == ArenaSteps.Destroy(s, c)
  }

  function WithChunk(s: Arena, c: nat, chunk: Chunk): Arena {
    s.(chunks := s.chunks[c := chunk])
  }

  function Listed(s: Arena, c: nat, band: nat): Arena
    requires band < |s.lists|
  {
    s.(lists := s.lists[band := [c] + s.lists[band]])
  }

  ghost predicate AddedChunk(s: Arena, c: nat, s': Arena) {
    |s.lists| == BANDS && s' == AddChunk(s, c)
  }

  ghost predicate AddedSub(s: Arena, c: nat, run: Run, k: nat, elems: nat, s': Arena) {
    c in s.chunks && k < |s.pools| && s' == AddSub(s, c, s.chunks[c].layout, run, k, elems)
  }

  function Held(s: Arena, c: nat, h: Handle, x: nat): Arena {
    s.(held := s.held[x := Region(c, h)])
  }

  /** Chunk `c` has carved a run of `runSize` bytes for `h`. */
  ghost predicate GotRun(s: Arena, c: nat, runSize: nat, l: Layout, h: Handle, s1: Arena) {
    && Grows(s, c, l, h.ToRun()) && s1 == WithLayout(s, c, l)
    && h.pages == Shr(runSize, s.pageShifts) && !h.subpage && h.Fits()
  }

  ghost predicate Got(s: Arena, c: nat, k: nat, x: nat, m: ArenaRuns.Move, s': Arena) {
    s.Inv() && ArenaRuns.Step(s, m, s') && ArenaOwners.GivenBy(s, m) == {x} && ArenaOwners.TakenBy(m) == {}
    && x in s'.held && s'.NormCapacity(s'.held[x]) == SizeOf(k) && s'.held[x].chunk == c
  }

  /** Where `SettleUp` and `SettleDown` start from. */
  lemma ParentInRange(s: Arena, c: nat)
    requires s.Inv() && c in s.chunks
    ensures s.chunks[c].parent < |s.lists| == BANDS
  {
  }

  lemma ListedInChunks(s: Arena, band: nat, i: nat)
    requires s.Inv() && band < |s.lists| && i < |s.lists[band]|
    ensures s.lists[band][i] in s.chunks
  {
    assert s.lists[band][i] in s.lists[band];
  }

  lemma NormalAllocated(s: Arena, c: nat, k: nat, l: Layout, h: Handle, x: nat, s': Arena)
    requires s.Inv() && SmallMaxSizeIdx(s.pageShifts) < k < NSizes(s.pageShifts, s.maxOrder) && x !in s.held
    requires c in s.chunks && GotRun(s, c, SizeOf(k), l, h, WithLayout(s, c, l))
    requires SettledUp(TakeRun(s, c, l, h, x), c, s')
    ensures Got(s, c, k, x, ArenaRuns.Normal(c, l, h, x), s') && s'.Inv()
  {
    hide Arena.SubsOk, Arena.HeldOk, Arena.Exclusive, Arena.NoLeak, Arena.PoolsOk, Arena.PoolsComplete, Arena.QueuesOk,
      Arena.ChunksOk, Arena.ListsShape, Arena.ListsBounds, Arena.OneIdle, SettleUp;
    NormalRequest(s.pageShifts, s.maxOrder, k);
    LeastClassOfClass(QUANTUM, k);
    assert CanTakeRun(s, c, l, h, x);
    AllocNormalInv(s, c, l, h, x, s');
  }

  /** ... for a subpage of class `k`: whole elements tile the run. */
  ghost predicate GotSubRun(s: Arena, c: nat, k: nat, elems: nat, l: Layout, h: Handle, s1: Arena) {
    && Grows(s, c, l, h.ToRun()) && s1 == WithLayout(s, c, l) && !h.subpage
    && NeedsPages(s.pageShifts, k, h.pages) && 0 < elems && elems * SizeOf(k) == Shl(h.pages, s.pageShifts)
  }

  lemma TakeElemCapacity(s: Arena, c: nat, run: Run, k: nat, x: nat, s': Arena)
    requires k < |s.pools| && s.pools[k] != [] && s.pools[k][0] == Place(c, run.offset)
    requires s.pools[k][0] in s.subs && s.subs[s.pools[k][0]].run == run && s.subs[s.pools[k][0]].elemSize == SizeOf(k)
    requires TookElem(s, k, x, s')
    ensures x in s'.held && s'.NormCapacity(s'.held[x]) == SizeOf(k) && s'.held[x].chunk == c
  {
  }

  lemma SmallAllocated(s: Arena, c: nat, k: nat, l: Layout, h: Handle, elems: nat, x: nat,
                       s0: Arena, s1: Arena, s2: Arena, s': Arena)
    requires s.Inv() && GotSubRun(s, c, k, elems, l, h, s0) && k < |s.pools| && s.pools[k] == []
    requires AddedSub(s0, c, h.ToRun(), k, elems, s1)
    requires TookElem(s1, k, x, s2) && x !in s.held && SettledUp(s2, c, s')
    ensures Got(s, c, k, x, ArenaRuns.Carved(c, l, h.ToRun(), k, elems, x), s') && s'.Inv()
  {
    hide Arena.SubsOk, Arena.HeldOk, Arena.Exclusive, Arena.NoLeak, Arena.PoolsOk, Arena.PoolsComplete, Arena.QueuesOk,
      Arena.ChunksOk, Arena.ListsShape, Arena.ListsBounds, Arena.OneIdle, SettleUp, Take;
    assert CanAddSub(s, c, l, h.ToRun(), k, elems);
    assert s1 == AddSub(s, c, l, h.ToRun(), k, elems);
    TakeElemCapacity(s1, c, h.ToRun(), k, x, s2);
    AllocSubpageInv(s, c, l, h.ToRun(), k, elems, x, s');
  }

  /** A buffer has got a region of class `k`, and nobody else's region has changed. */
  ghost predicate Granted(s: Arena, k: nat, x: nat, s': Arena) {
    ArenaOwners.Operation(s, {x}, {}, s') && x in s'.held && s'.NormCapacity(s'.held[x]) == SizeOf(k)
  }

  ghost predicate InChunk(s: Arena, x: nat, c: nat) {
    x in s.held && s.held[x].chunk == c
  }

  /** The first `n` lists have been asked: either in vain, or the first chunk with room has served. */
  ghost predicate Asked(s: Arena, k: nat, n: nat, r: Option<nat>, c: nat, s': Arena) {
    if r.None? then s' == s && ExhaustedBefore(s, k, n)
    else Granted(s, k, r.value, s') && InChunk(s', r.value, c) && Preferred(s, k, c)
  }

  lemma GotIsGranted(s: Arena, c: nat, k: nat, x: nat, m: ArenaRuns.Move, s': Arena)
    requires Got(s, c, k, x, m, s')
    ensures Granted(s, k, x, s') && InChunk(s', x, c)
  {
    hide ArenaRuns.Step, Arena.Inv, ArenaOwners.Operation, Arena.NormCapacity;
    ArenaOwners.StepIsOperation(s, m, s');
  }

  lemma NewChunkOperation(s: Arena, c: nat, s1: Arena)
    requires s.Inv() && c !in s.chunks && AddedChunk(s, c, s1)
    ensures s1.Inv() && ArenaOwners.Operation(s, {}, {}, s1)
    ensures c in s1.chunks && s1.chunks[c].layout == Fresh(Pow2(s1.maxOrder))
    ensures s1.pools == s.pools
  {
    hide Arena.Core, ArenaOwners.Operation;
    ArenaRuns.AddChunkInv(s, c);
    assert ArenaRuns.Step(s, ArenaRuns.NewChunk(c), s1);
    ArenaOwners.StepIsOperation(s, ArenaRuns.NewChunk(c), s1);
  }

  lemma GrantedAfter(s: Arena, s1: Arena, k: nat, x: nat, s2: Arena)
    requires ArenaOwners.Operation(s, {}, {}, s1) && Granted(s1, k, x, s2)
    ensures Granted(s, k, x, s2)
  {
    hide ArenaOwners.Operation, Arena.NormCapacity;
    var none: set<nat> := {};
    ArenaOwners.Chain(s, none, none, s1, {x}, none, s2);
    assert (none - none) + {x} == {x} && none + none - none == none;
  }

  /** Chunk `c` has taken the run of `h` back. */
  ghost predicate GaveBack(s: Arena, c: nat, h: Handle, l: Layout, s1: Arena) {
    Shrinks(s, c, l, h.ToRun()) && s1 == WithLayout(s, c, l)
  }

  /** Subpage `p` leaves its pool and its chunk's table. */
  function Dropped(s: Arena, p: Place): Arena
    requires p in s.subs && ClassOf(s.subs[p]) < |s.pools|
  {
    var k := ClassOf(s.subs[p]);
    s.(subs := s.subs - {p}, pools := s.pools[k := Without(s.pools[k], p)])
  }

  ghost predicate GaveElem(s: Arena, x: nat, s1: Arena) {
    x in s.held && s.held[x].At() in s.subs && ClassOf(s.subs[s.held[x].At()]) < |s.pools| && s1 == ReturnElem(s, x)
  }

  ghost predicate FreedElem(s: Arena, x: nat, kept: bool, s2: Arena) {
    && s.Core() && CanReturnElem(s, x) && kept == !Releases(s, x)
    && (ElemIsLive(s, x); s2 == if kept then ReturnElem(s, x) else Dropped(ReturnElem(s, x), s.held[x].At()))
  }

  /** What `PoolSubpage::free` may rely on, and what its three tests decide. */
  lemma ElementOf(s: Arena, x: nat)
    requires s.Inv() && ArenaOwners.Live(s, x) && s.held[x].handle.subpage
    ensures CanReturnElem(s, x) && s.held[x].At() in s.subs && ClassOf(s.subs[s.held[x].At()]) < |s.pools|
    ensures s.subs[s.held[x].At()].Valid() && s.held[x].handle.bitmapIdx in s.subs[s.held[x].At()].used
  {
    hide Arena.Exclusive, Arena.NoLeak, Arena.PoolsOk, Arena.PoolsComplete, Arena.QueuesOk,
      Arena.ChunksOk, Arena.ListsShape, Arena.ListsBounds, Arena.OneIdle, Arena.SubsOk, Arena.HeldOk;
    ElemIsLive(s, x);
  }

  /** The three tests of `PoolSubpage::free`, in order, any of which keeps the subpage. */
  ghost predicate Keeps(s: Arena, x: nat, s1: Arena)
    requires CanReturnElem(s, x) && s.held[x].At() in s.subs && ClassOf(s.subs[s.held[x].At()]) < |s.pools|
  {
    var sub := s.subs[s.held[x].At()];
    && ClassOf(sub) < |s1.pools|
    && (sub.NumAvail() == 0 || Give(sub, s.held[x].handle.bitmapIdx).NumAvail() != sub.maxElems
        || |s1.pools[ClassOf(sub)]| == 1)
  }

  lemma ElementKept(s: Arena, x: nat, s1: Arena)
    requires s.Inv() && ArenaOwners.Live(s, x) && s.held[x].handle.subpage && GaveElem(s, x, s1)
    ensures CanReturnElem(s, x) && s.held[x].At() in s.subs && ClassOf(s.subs[s.held[x].At()]) < |s.pools|
    ensures Keeps(s, x, s1) <==> !Releases(s, x)
    ensures s.held[x].At() in s1.subs && ClassOf(s1.subs[s.held[x].At()]) < |s1.pools| == |s.pools|
  {
    hide Arena.SubsOk, Arena.HeldOk, Arena.Exclusive, Arena.NoLeak, Arena.PoolsOk, Arena.PoolsComplete, Arena.QueuesOk,
      Arena.ChunksOk, Arena.ListsShape, Arena.ListsBounds, Arena.OneIdle;
    ElementOf(s, x);
    var sub, i := s.subs[s.held[x].At()], s.held[x].handle.bitmapIdx;
    GiveIsValid(sub, i);
    assert sub.used - {i} == {} <==> sub.used == {i};
  }

  function Forgotten(s: Arena, x: nat): Arena {
    s.(held := s.held - {x})
  }

  ghost predicate IsFreed(s: Arena, x: nat, l: Layout, s1: Arena) {
    s.Core() && CanFree(s, x, l) && s1 == Freed(s, x, l)
  }

  /** A held region is on a live run of a chunk there is. */
  lemma HeldHandle(s: Arena, x: nat)
    requires s.Inv() && x in s.held
    ensures s.held[x].chunk in s.chunks
    ensures s.held[x].handle.ToRun() in s.chunks[s.held[x].chunk].layout.live
    ensures s.held[x].handle.runOffset < 0x4000 && s.held[x].handle.pages < 0x8000
  {
    hide Arena.SubsOk, Arena.Exclusive, Arena.NoLeak, Arena.PoolsOk, Arena.PoolsComplete, Arena.QueuesOk,
      Arena.ListsShape, Arena.ListsBounds, Arena.OneIdle, Arena.LiveRegion, Layout.Valid, Conserved;
    assert s.LiveRegion(s.held[x]);
    ArenaSafety.WithinRun(s, s.held[x]);
    assert s.ChunkOk(s.chunks[s.held[x].chunk].layout);
    RunFits(s.chunks[s.held[x].chunk].layout, s.held[x].handle.ToRun(), s.maxOrder);
  }

  lemma RunFits(l: Layout, r: Run, maxOrder: nat)
    requires l.Valid() && r in l.live && l.total == Pow2(maxOrder) && maxOrder <= 13
    ensures r.offset < 0x4000 && r.pages < 0x8000
  {
    assert r in l.free + l.live;
    Pow2Monotone(maxOrder, 13);
    assert Pow2(13) == 0x2000;
  }

  lemma FreedKept(s: Arena, x: nat, l: Layout, s1: Arena)
    requires FreedElem(s, x, true, s1)
    ensures IsFreed(s, x, l, s1)
  {
    hide Arena.Core, Releases, ReturnElem;
  }

  lemma FreedWithRun(s: Arena, x: nat, s1: Arena, l: Layout, s2: Arena)
    requires FreedElem(s, x, false, s1) && GaveBack(s1, s.held[x].chunk, s.held[x].handle, l, s2)
    ensures IsFreed(s, x, l, s2)
  {
    hide Arena.SubsOk, Arena.Exclusive, Arena.NoLeak, Arena.PoolsOk, Arena.PoolsComplete, Arena.QueuesOk,
      Arena.ChunksOk, Arena.ListsShape, Arena.ListsBounds, Arena.OneIdle, Releases, Give;
    ElemIsLive(s, x);
    assert s.LiveRegion(s.held[x]);
  }

  lemma FreedRun(s: Arena, x: nat, s1: Arena, l: Layout, s2: Arena)
    requires s.Inv() && ArenaOwners.Live(s, x) && !s.held[x].handle.subpage
    requires GaveBack(s, s.held[x].chunk, s.held[x].handle, l, s1) && s2 == Forgotten(s1, x)
    ensures IsFreed(s, x, l, s2)
  {
    hide Arena.SubsOk, Arena.HeldOk, Arena.Exclusive, Arena.NoLeak, Arena.PoolsOk, Arena.PoolsComplete, Arena.QueuesOk,
      Arena.ChunksOk, Arena.ListsShape, Arena.ListsBounds, Arena.OneIdle;
  }

  lemma FreedSettled(s: Arena, x: nat, l: Layout, s1: Arena, s': Arena)
    requires s.Inv() && IsFreed(s, x, l, s1) && SettledDown(s1, s.held[x].chunk, s')
    ensures s'.Inv() && ArenaOwners.Operation(s, {}, {x}, s')
  {
    hide Arena.SubsOk, Arena.HeldOk, Arena.Exclusive, Arena.NoLeak, Arena.PoolsOk, Arena.PoolsComplete, Arena.QueuesOk,
      Arena.ChunksOk, Arena.ListsShape, Arena.ListsBounds, Arena.OneIdle, Freed, SettleDown, ArenaOwners.Operation;
    ReleaseInv(s, x, l, s');
    ArenaOwners.StepIsOperation(s, ArenaRuns.Returned(x, l), s');
  }

  ghost predicate Popped(s: Arena, k: nat, x: nat, s1: Arena) {
    k < |s.queues| && s.queues[k] != [] && x == s.queues[k][0] && s1 == Dequeue(s, k)
  }

  /** What the cache gives has the capacity of its class. */
  lemma PoppedEntry(s: Arena, k: nat, x: nat, s1: Arena)
    requires s.Inv() && Popped(s, k, x, s1)
    ensures s1.Inv() && ArenaOwners.Live(s1, x) && Granted(s, k, x, s1)
  {
    hide Arena.SubsOk, Arena.HeldOk, Arena.Exclusive, Arena.NoLeak, Arena.PoolsOk, Arena.PoolsComplete,
      Arena.ChunksOk, Arena.ListsShape, Arena.ListsBounds, Arena.OneIdle, ArenaOwners.SameRegion;
    assert x in s.queues[k];
    ArenaOwners.StepIsOperation(s, ArenaRuns.FromCache(k), s1);
    assert x in {x};
  }

  /** Two operations that give and take nothing make one. */
  lemma Quietly(s: Arena, s1: Arena, s2: Arena)
    requires ArenaOwners.Operation(s, {}, {}, s1) && ArenaOwners.Operation(s1, {}, {}, s2)
    ensures ArenaOwners.Operation(s, {}, {}, s2)
  {
    hide ArenaOwners.Operation;
    var none: set<nat> := {};
    ArenaOwners.Chain(s, none, none, s1, none, none, s2);
    assert (none - none) + none == none && none + none - none == none;
  }

  lemma PopThenFree(s: Arena, x: nat, s1: Arena, s2: Arena)
    requires ArenaOwners.Operation(s, {x}, {}, s1) && ArenaOwners.Operation(s1, {}, {x}, s2)
    ensures ArenaOwners.Operation(s, {}, {}, s2)
  {
    hide ArenaOwners.Operation;
    var none: set<nat> := {};
    ArenaOwners.Chain(s, {x}, none, s1, none, {x}, s2);
    assert ({x} - {x}) + none == none && none + {x} - {x} == none;
  }

  lemma CapacityKept(s: Arena, s': Arena, x: nat)
    requires ArenaOwners.SameRegion(s, s', x)
    ensures s'.NormCapacity(s'.held[x]) == s.NormCapacity(s.held[x])
  {
  }

  lemma GrantedBefore(s: Arena, k: nat, x: nat, s1: Arena, s2: Arena)
    requires Granted(s, k, x, s1) && ArenaOwners.Operation(s1, {}, {}, s2)
    ensures Granted(s, k, x, s2)
  {
    hide Arena.Inv, Arena.NormCapacity, ArenaOwners.SameRegion, Arena.Cached;
    var none: set<nat> := {};
    assert x in {x} && ArenaOwners.Live(s1, x) && x !in none;
    assert ArenaOwners.SameRegion(s1, s2, x);
    CapacityKept(s1, s2, x);
    ArenaOwners.Chain(s, {x}, none, s1, none, none, s2);
    assert ({x} - none) + none == {x} && none + none - {x} == none;
    assert ArenaOwners.Live(s2, x);
  }

  /** The pool's first member can serve. */
  lemma PoolHead(s: Arena, k: nat)
    requires s.Inv() && k < |s.pools| && s.pools[k] != []
    ensures s.pools[k][0] in s.subs && NextAvail(s.subs[s.pools[k][0]]) < 0x8000_0000
  {
    hide Arena.HeldOk, Arena.Exclusive, Arena.NoLeak, Arena.PoolsComplete, Arena.QueuesOk,
      Arena.ListsShape, Arena.ListsBounds, Arena.OneIdle, Layout.Valid, Conserved;
    var p := s.pools[k][0];
    assert p in s.pools[k];
    var sub := s.subs[p];
    TakeIsFresh(sub);
    assert s.SubOk(sub) && s.ChunkOk(s.chunks[p.chunk].layout);
    ElementsBounded(s.chunks[p.chunk].layout, sub, s.pageShifts, s.maxOrder);
  }

  lemma ElementsBounded(l: Layout, sub: Subpage, p: nat, o: nat)
    requires l.Valid() && l.total == Pow2(o) && sub.run in l.live && ChunkSizeOk(Shl(Pow2(o), p))
    requires sub.maxElems * sub.elemSize == Shl(sub.run.pages, p) && 0 < sub.elemSize
    ensures sub.maxElems <= 0x4000_0000
  {
    assert sub.run in l.free + l.live;
    ShlOrder(sub.run.pages, Pow2(o), p);
    ScaleOrder(1, sub.elemSize, sub.maxElems);
  }

  lemma PooledGranted(s: Arena, k: nat, x: nat, s': Arena)
    requires s.Inv() && x !in s.held && k < |s.pools| && s.pools[k] != []
    requires TookElem(s, k, x, s')
    ensures s'.Inv() && Granted(s, k, x, s')
  {
    hide Arena.HeldOk, Arena.Exclusive, Arena.NoLeak, Arena.PoolsComplete, Arena.QueuesOk,
      Arena.ChunksOk, Arena.ListsShape, Arena.ListsBounds, Arena.OneIdle, Take, ArenaOwners.Operation;
    var p := s.pools[k][0];
    assert p in s.pools[k] && s.SubOk(s.subs[p]);
    TakeElemCapacity(s, p.chunk, s.subs[p].run, k, x, s');
    AllocPooledInv(s, k, x, s');
    ArenaOwners.StepIsOperation(s, ArenaRuns.Pooled(k, x), s');
  }

  ghost predicate OfClass(s: Arena, x: nat, k: nat) {
    x in s.held && s.NormCapacity(s.held[x]) == SizeOf(k)
  }

  /** The region joins the queue of its class. */
  ghost predicate CachedAgain(s: Arena, x: nat, k: nat, s': Arena) {
    k < |s.queues| && s' == Enqueue(s, k, x)
  }

  /** The capacity of a held region is the size of exactly one class. */
  lemma CapacityClass(s: Arena, x: nat)
    requires s.Inv() && x in s.held
    ensures s.held[x].handle.subpage ==> s.held[x].At() in s.subs
    ensures 0 <= s.NormCapacity(s.held[x])
    ensures SizeOf(LeastClass(QUANTUM, s.NormCapacity(s.held[x]))) == s.NormCapacity(s.held[x])
    ensures forall k: nat | OfClass(s, x, k) :: k == LeastClass(QUANTUM, s.NormCapacity(s.held[x]))
  {
    forall k: nat | OfClass(s, x, k) ensures k == LeastClass(QUANTUM, s.NormCapacity(s.held[x])) {
      LeastClassOfClass(QUANTUM, k);
    }
    hide Arena.Exclusive, Arena.NoLeak, Arena.PoolsComplete, Arena.PoolsOk, Arena.QueuesOk,
      Arena.ChunksOk, Arena.ListsShape, Arena.ListsBounds, Arena.OneIdle;
    var r := s.held[x];
    assert s.LiveRegion(r);
    if r.handle.subpage {
      assert s.SubOk(s.subs[r.At()]);
    }
  }

  lemma CachedOperation(s: Arena, k: nat, x: nat, s': Arena)
    requires s.Inv() && ArenaOwners.Live(s, x) && k < |s.queues| && s.NormCapacity(s.held[x]) == SizeOf(k)
    requires s' == Enqueue(s, k, x)
    ensures s'.Inv() && ArenaOwners.Operation(s, {}, {x}, s')
  {
    hide Arena.Inv, ArenaOwners.Operation, Arena.NormCapacity;
    ArenaRuns.StepInv(s, ArenaRuns.ToCache(k, x), s');
    ArenaOwners.StepIsOperation(s, ArenaRuns.ToCache(k, x), s');
  }

  lemma GrantedIs(s: Arena, k: nat, y: nat, s1: Arena)
    requires Granted(s, k, y, s1)
    ensures ArenaOwners.Operation(s, {y}, {}, s1) && OfClass(s1, y, k) && ArenaOwners.Live(s1, y)
  {
    hide Arena.Inv, ArenaOwners.SameRegion, Arena.Cached, Arena.NormCapacity;
    assert y in {y};
  }

  lemma StillLive(s: Arena, k: nat, y: nat, s1: Arena, x: nat)
    requires Granted(s, k, y, s1) && ArenaOwners.Live(s, x)
    ensures ArenaOwners.Live(s1, x) && x != y && ArenaOwners.Operation(s, {y}, {}, s1)
  {
    hide Arena.Inv, ArenaOwners.SameRegion, Arena.Cached, Arena.NormCapacity;
    assert y in {y};
  }

  /** Giving up another region leaves the granted one its capacity. */
  lemma GrantedKept(s: Arena, k: nat, y: nat, s1: Arena, x: nat, s2: Arena)
    requires Granted(s, k, y, s1) && ArenaOwners.Operation(s1, {}, {x}, s2) && x != y
    ensures OfClass(s2, y, k)
  {
    hide Arena.Inv, Arena.NormCapacity, ArenaOwners.SameRegion, Arena.Cached;
    assert y in {y} && ArenaOwners.Live(s1, y) && y !in {x};
    assert ArenaOwners.SameRegion(s1, s2, y);
    CapacityKept(s1, s2, y);
    assert ArenaOwners.Live(s2, y);
  }

  lemma Exchanged(s: Arena, y: nat, s1: Arena, x: nat, s2: Arena)
    requires ArenaOwners.Operation(s, {y}, {}, s1) && ArenaOwners.Operation(s1, {}, {x}, s2) && x != y
    ensures ArenaOwners.Operation(s, {y}, {x}, s2)
  {
    hide ArenaOwners.Operation;
    var none: set<nat> := {};
    ArenaOwners.Chain(s, {y}, none, s1, none, {x}, s2);
    assert ({y} - {x}) + none == {y} && none + {x} - {y} == {x};
  }

  ghost predicate TookElem(s: Arena, k: nat, x: nat, s': Arena) {
    k < |s.pools| && s.pools[k] != [] && s.pools[k][0] in s.subs && s' == TakeElem(s, k, x)
  }

  /** What a caller of `allocate` gets: room for the request, less than a quarter of it wasted above
      the first group of classes, and no byte in common with any region still held. */
  lemma GrantedRoom(s: Arena, size: nat, x: nat, s': Arena, y: nat)
    requires Granted(s, LeastClass(QUANTUM, size), x, s') && y in s'.held && y != x
    ensures var b := ArenaSafety.RegionBytes(s', s'.held[x]);
      && size <= b.end - b.start
      && (64 < size ==> 4 * (b.end - b.start - size) < size)
      && 0 <= b.start && b.end <= s'.ChunkSize()
      && (s'.held[y].chunk == s'.held[x].chunk ==>
            ArenaSafety.DisjointBytes(b, ArenaSafety.RegionBytes(s', s'.held[y])))
  {
    GrantedSize(s, LeastClass(QUANTUM, size), x, s');
    if 64 < size {
      assert Pow2(4) == 16;
      WasteBelowQuarter(QUANTUM, size);
    }
    hide ArenaSafety.RegionBytes, LeastClass, SizeOf;
    GrantedApart(s', x, y);
  }

  lemma GrantedSize(s: Arena, k: nat, x: nat, s': Arena)
    requires Granted(s, k, x, s')
    ensures s'.held[x].handle.subpage ==> s'.held[x].At() in s'.subs
    ensures var b := ArenaSafety.RegionBytes(s', s'.held[x]); b.end - b.start == SizeOf(k)
  {
    hide Arena.SubsOk, Arena.Exclusive, Arena.NoLeak, Arena.PoolsOk, Arena.PoolsComplete, Arena.QueuesOk,
      Arena.ChunksOk, Arena.ListsShape, Arena.ListsBounds, Arena.OneIdle, ArenaOwners.SameRegion;
    assert s'.LiveRegion(s'.held[x]);
  }

  lemma GrantedApart(s': Arena, x: nat, y: nat)
    requires s'.Inv() && x in s'.held && y in s'.held && y != x
    ensures s'.held[x].handle.subpage ==> s'.held[x].At() in s'.subs
    ensures s'.held[y].handle.subpage ==> s'.held[y].At() in s'.subs
    ensures var b := ArenaSafety.RegionBytes(s', s'.held[x]); 0 <= b.start && b.end <= s'.ChunkSize()
    ensures s'.held[y].chunk == s'.held[x].chunk ==>
      ArenaSafety.DisjointBytes(ArenaSafety.RegionBytes(s', s'.held[x]), ArenaSafety.RegionBytes(s', s'.held[y]))
  {
    hide Arena.SubsOk, Arena.Exclusive, Arena.NoLeak, Arena.PoolsOk, Arena.PoolsComplete, Arena.QueuesOk,
      Arena.ChunksOk, Arena.ListsShape, Arena.ListsBounds, Arena.OneIdle, ArenaSafety.RegionBytes;
    assert s'.LiveRegion(s'.held[x]) && s'.LiveRegion(s'.held[y]);
    ArenaSafety.HeldRegionInChunk(s', x);
    if s'.held[y].chunk == s'.held[x].chunk {
      ArenaSafety.HeldRegionsDisjoint(s', x, y);
    }
  }
}
