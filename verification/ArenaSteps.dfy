/** The moves an arena operation is made of, each shown to keep the invariant. */
module ArenaSteps {
  import opened Powers
  import opened ClassMath
  import opened PageClasses
  import opened Runs
  import opened RunSizing
  import opened Handles
  import opened Subpages
  import opened ChunkLists
  import opened ArenaState

  function WithLayout(s: Arena, c: nat, l: Layout): Arena
    requires c in s.chunks
  {
    s.(chunks := s.chunks[c := s.chunks[c].(layout := l)])
  }

  // ---------------------------------------------------------------- the moves

  /** `tcacheAllocateSmall` from a pool: the first member gives an element. */
  function TakeElem(s: Arena, k: nat, x: nat): Arena
    requires k < |s.pools| && s.pools[k] != [] && s.pools[k][0] in s.subs
  {
    var p := s.pools[k][0];
    var sub := s.subs[p];
    s.(subs := s.subs[p := Take(sub)],
       pools := if Take(sub).NumAvail() == 0 then s.pools[k := s.pools[k][1..]] else s.pools,
       held := s.held[x := Region(p.chunk, Handle(sub.run.offset, sub.run.pages, true, true, NextAvail(sub)))])
  }

  /** `allocateSubpage`: a run the chunk has just carved becomes a subpage of class `k`. */
  function AddSub(s: Arena, c: nat, l: Layout, run: Run, k: nat, elems: nat): Arena
    requires c in s.chunks && k < |s.pools|
  {
    var p := Place(c, run.offset);
    var sub := New(run, SizeOf(k), elems);
    WithLayout(s, c, l).(subs := s.subs[p := sub], pools := s.pools[k := [p] + s.pools[k]])
  }

  /** `allocate` of a normal size: the run goes to the buffer whole. */
  function TakeRun(s: Arena, c: nat, l: Layout, h: Handle, x: nat): Arena
    requires c in s.chunks
  {
    WithLayout(s, c, l).(held := s.held[x := Region(c, h)])
  }

  /** `PoolSubpage::free`: the element is clear; a full subpage is back in its pool. */
  function ReturnElem(s: Arena, x: nat): Arena
    requires x in s.held && s.held[x].At() in s.subs && ClassOf(s.subs[s.held[x].At()]) < |s.pools|
  {
    var r := s.held[x];
    var sub := s.subs[r.At()];
    var k := ClassOf(sub);
    s.(subs := s.subs[r.At() := Give(sub, r.handle.bitmapIdx)],
       pools := if sub.NumAvail() == 0 then s.pools[k := [r.At()] + s.pools[k]] else s.pools,
       held := s.held - {x})
  }

  function Without<T(==)>(q: seq<T>, x: T): seq<T> {
    if q == [] then [] else if q[0] == x then q[1..] else [q[0]] + Without(q[1..], x)
  }

  /** The subpage is released: out of its pool and off its run, which the chunk takes back. */
  function DropSub(s: Arena, p: Place, l: Layout): Arena
    requires p in s.subs && p.chunk in s.chunks && ClassOf(s.subs[p]) < |s.pools|
  {
    var k := ClassOf(s.subs[p]);
    WithLayout(s, p.chunk, l).(subs := s.subs - {p}, pools := s.pools[k := Without(s.pools[k], p)])
  }

  /** `free` of a whole run. */
  function ReturnRun(s: Arena, x: nat, l: Layout): Arena
    requires x in s.held && s.held[x].chunk in s.chunks
  {
    WithLayout(s, s.held[x].chunk, l).(held := s.held - {x})
  }

  /** `remove` from one list and `add0` at the front of another. */
  function Relist(s: Arena, c: nat, band: nat): Arena
    requires c in s.chunks && s.chunks[c].parent < |s.lists| && band < |s.lists|
  {
    var from := s.chunks[c].parent;
    var cut := s.lists[from := Without(s.lists[from], c)];
    s.(chunks := s.chunks[c := s.chunks[c].(parent := band)], lists := cut[band := [c] + cut[band]])
  }

  /** `newChunk` into qInit. */
  function AddChunk(s: Arena, c: nat): Arena
    requires |s.lists| == BANDS
  {
    s.(chunks := s.chunks[c := Chunk(Fresh(Pow2(s.maxOrder)), Q_INIT)],
       lists := s.lists[Q_INIT := [c] + s.lists[Q_INIT]])
  }

  /** `remove` and `destroyChunk`. */
  function Destroy(s: Arena, c: nat): Arena
    requires c in s.chunks && s.chunks[c].parent < |s.lists|
  {
    var from := s.chunks[c].parent;
    s.(chunks := s.chunks - {c}, lists := s.lists[from := Without(s.lists[from], c)])
  }

  /** `MemoryRegionCache::add` and the pop of `allocate` and `free`. */
  function Enqueue(s: Arena, k: nat, x: nat): Arena
    requires k < |s.queues|
  {
    s.(queues := s.queues[k := s.queues[k] + [x]])
  }

  function Dequeue(s: Arena, k: nat): Arena
    requires k < |s.queues| && s.queues[k] != []
  {
    s.(queues := s.queues[k := s.queues[k][1..]])
  }

  // ---------------------------------------------------------------- sequences without repetition

  ghost predicate Distinct<T>(q: seq<T>) {
    forall i, j | 0 <= i < j < |q| :: q[i] != q[j]
  }

  lemma {:induction false} WithoutIs<T>(q: seq<T>, x: T)
    requires Distinct(q)
    ensures Distinct(Without(q, x))
    ensures forall y :: y in Without(q, x) <==> y in q && y != x
  {
    if q != [] && q[0] != x {
      WithoutIs(q[1..], x);
      PrependDistinct(Without(q[1..], x), q[0]);
    }
  }

  lemma PrependDistinct<T>(q: seq<T>, x: T)
    requires Distinct(q) && x !in q
    ensures Distinct([x] + q)
  {
  }

  // ---------------------------------------------------------------- TakeElem

  ghost predicate CanTakeElem(s: Arena, k: nat, x: nat) {
    k < |s.pools| && s.pools[k] != [] && x !in s.held
  }

  lemma TakeElemCore(s: Arena, k: nat, x: nat)
    requires s.Core() && CanTakeElem(s, k, x)
    ensures s.pools[k][0] in s.subs && TakeElem(s, k, x).Core()
  {
    hide Arena.SubsOk, Arena.HeldOk, Arena.Exclusive, Arena.NoLeak, Arena.PoolsOk, Arena.PoolsComplete, Arena.QueuesOk,
      Arena.ChunksOk, Arena.ListsShape;
    TakeElemSubs(s, k, x);
    TakeElemHeld(s, k, x);
    TakeElemNoLeak(s, k, x);
    TakeElemPools(s, k, x);
    TakeElemQueues(s, k, x);
    SameChunks(s, TakeElem(s, k, x));
  }

  lemma SameChunks(s: Arena, s': Arena)
    requires s'.pageShifts == s.pageShifts && s'.maxOrder == s.maxOrder && s'.chunks == s.chunks && s'.lists == s.lists
    ensures s.ChunksOk() ==> s'.ChunksOk()
    ensures s.ListsShape() ==> s'.ListsShape()
    ensures s.ListsBounds() ==> s'.ListsBounds()
  {
    forall c | c in s.chunks && s.ChunksOk() ensures s'.ChunkOk(s'.chunks[c].layout) {
      assert s.ChunkOk(s.chunks[c].layout);
    }
    forall c | c in s.chunks && s.ListsBounds() ensures s'.Banded(c) {
      assert s.Banded(c);
    }
  }

  lemma TakeElemSubs(s: Arena, k: nat, x: nat)
    requires s.Configured() && s.SubsOk() && s.PoolsOk() && CanTakeElem(s, k, x)
    ensures s.pools[k][0] in s.subs && TakeElem(s, k, x).SubsOk()
  {
    var p := s.pools[k][0];
    assert p in s.pools[k];
    TakeIsFresh(s.subs[p]);
    var s' := TakeElem(s, k, x);
    forall q | q in s'.subs ensures s'.SubOk(s'.subs[q]) {
      assert s.SubOk(s.subs[q]);
    }
  }

  lemma TakeElemHeld(s: Arena, k: nat, x: nat)
    requires s.SubsOk() && s.PoolsOk() && s.HeldOk() && s.Exclusive() && CanTakeElem(s, k, x)
    ensures s.pools[k][0] in s.subs && TakeElem(s, k, x).HeldOk() && TakeElem(s, k, x).Exclusive()
  {
    var p := s.pools[k][0];
    assert p in s.pools[k];
    TakeIsFresh(s.subs[p]);
    var s' := TakeElem(s, k, x);
    forall y | y in s'.held
      ensures s'.LiveRegion(s'.held[y]) && (y != x ==> s'.held[y].ToUnit() != s'.held[x].ToUnit())
    {
      if y != x { assert s.LiveRegion(s.held[y]); }
    }
  }

  lemma TakeElemNoLeak(s: Arena, k: nat, x: nat)
    requires s.SubsOk() && s.PoolsOk() && s.NoLeak() && CanTakeElem(s, k, x)
    ensures s.pools[k][0] in s.subs && TakeElem(s, k, x).NoLeak()
  {
    hide Arena.SubOk, Arena.HeldUnit, ClassOf, NextAvail;
    var p := s.pools[k][0];
    assert p in s.pools[k];
    var s' := TakeElem(s, k, x);
    StillHeld(s, s', x);
    assert s'.held[x].ToUnit() == Unit(p, NextAvail(s.subs[p]));
  }

  lemma StillHeld(s: Arena, s': Arena, x: nat)
    requires x !in s.held && s'.held.Keys == s.held.Keys + {x} && forall y | y in s.held :: s'.held[y] == s.held[y]
    ensures forall u | s.HeldUnit(u) :: s'.HeldUnit(u)
    ensures s'.HeldUnit(s'.held[x].ToUnit())
  {
    forall u | s.HeldUnit(u) ensures s'.HeldUnit(u) {
      var y :| y in s.held && s.held[y].ToUnit() == u;
      assert s'.held[y].ToUnit() == u;
    }
  }

  lemma ValidIn(s: Arena, p: Place)
    requires s.SubsOk() && p in s.subs
    ensures s.subs[p].Valid()
  {
  }

  lemma TakeElemPools(s: Arena, k: nat, x: nat)
    requires s.SubsOk() && s.PoolsOk() && s.PoolsComplete() && CanTakeElem(s, k, x)
    ensures s.pools[k][0] in s.subs && TakeElem(s, k, x).PoolsOk() && TakeElem(s, k, x).PoolsComplete()
  {
    hide Arena.SubOk, LeastClass, NextAvail;
    var p := s.pools[k][0];
    assert p in s.pools[k];
    ValidIn(s, p);
    TakeIsFresh(s.subs[p]);
    var s' := TakeElem(s, k, x);
    forall j, q | 0 <= j < |s'.pools| && q in s'.pools[j]
      ensures q in s'.subs && ClassOf(s'.subs[q]) == j && 0 < s'.subs[q].NumAvail()
    {
      assert q in s.pools[j];
    }
  }

  lemma TakeElemQueues(s: Arena, k: nat, x: nat)
    requires s.SubsOk() && s.PoolsOk() && s.QueuesOk() && CanTakeElem(s, k, x)
    ensures s.pools[k][0] in s.subs && TakeElem(s, k, x).QueuesOk()
  {
    assert s.pools[k][0] in s.pools[k];
  }

  // ---------------------------------------------------------------- a run more, a run less

  /** Chunk `c` may go to layout `l`, one live run richer. */
  ghost predicate Grows(s: Arena, c: nat, l: Layout, run: Run) {
    && c in s.chunks && s.ChunkOk(l)
    && run !in s.chunks[c].layout.live && l.live == s.chunks[c].layout.live + {run}
  }

  ghost predicate Shrinks(s: Arena, c: nat, l: Layout, run: Run) {
    && c in s.chunks && s.ChunkOk(l)
    && run in s.chunks[c].layout.live && l.live == s.chunks[c].layout.live - {run}
  }

  lemma OffsetsDiffer(l: Layout, a: Run, b: Run)
    requires l.Tiled() && a in l.live && b in l.live && a != b
    ensures a.offset != b.offset
  {
    assert !a.Overlaps(b);
  }

  lemma NewPlace(s: Arena, c: nat, l: Layout, run: Run)
    requires s.SubsOk() && Grows(s, c, l, run)
    ensures Place(c, run.offset) !in s.subs
    ensures forall r | r in s.chunks[c].layout.live :: r.offset != run.offset
  {
    forall r | r in s.chunks[c].layout.live ensures r.offset != run.offset {
      OffsetsDiffer(l, r, run);
    }
  }

  lemma OthersElsewhere(s: Arena, c: nat, l: Layout, run: Run)
    requires s.ChunksOk() && Shrinks(s, c, l, run)
    ensures forall r | r in l.live :: r.offset != run.offset
  {
    forall r | r in l.live ensures r.offset != run.offset {
      assert s.ChunkOk(s.chunks[c].layout);
      OffsetsDiffer(s.chunks[c].layout, r, run);
    }
  }

  lemma NewLayoutChunks(s: Arena, c: nat, l: Layout)
    requires s.ChunksOk() && s.ListsShape() && c in s.chunks && s.ChunkOk(l)
    ensures WithLayout(s, c, l).ChunksOk() && WithLayout(s, c, l).ListsShape()
  {
    hide Layout.Valid, Conserved;
    var s' := WithLayout(s, c, l);
    assert s'.ListsShape();
    forall d | d in s'.chunks ensures s'.ChunkOk(s'.chunks[d].layout) {
      assert s.ChunkOk(s'.chunks[d].layout);
    }
  }

  // ---------------------------------------------------------------- TakeRun

  ghost predicate CanTakeRun(s: Arena, c: nat, l: Layout, h: Handle, x: nat) {
    Grows(s, c, l, h.ToRun()) && !h.subpage && s.NormalRun(h.pages) && x !in s.held
  }

  lemma TakeRunHeld(s: Arena, c: nat, l: Layout, h: Handle, x: nat)
    requires s.SubsOk() && s.HeldOk() && s.Exclusive() && CanTakeRun(s, c, l, h, x)
    ensures TakeRun(s, c, l, h, x).HeldOk() && TakeRun(s, c, l, h, x).Exclusive()
  {
    NewPlace(s, c, l, h.ToRun());
    var s' := TakeRun(s, c, l, h, x);
    assert s'.NormalRun(h.pages);
    forall y | y in s'.held
      ensures s'.LiveRegion(s'.held[y]) && (y != x ==> s'.held[y].ToUnit() != s'.held[x].ToUnit())
    {
      if y != x {
        assert s.LiveRegion(s.held[y]);
      }
    }
  }

  lemma TakeRunSubs(s: Arena, c: nat, l: Layout, h: Handle, x: nat)
    requires s.Configured() && s.SubsOk() && CanTakeRun(s, c, l, h, x)
    ensures TakeRun(s, c, l, h, x).SubsOk()
  {
    var s' := TakeRun(s, c, l, h, x);
    forall q | q in s'.subs ensures s'.SubOk(s'.subs[q]) {
      assert s.SubOk(s.subs[q]);
    }
  }

  lemma TakeRunNoLeak(s: Arena, c: nat, l: Layout, h: Handle, x: nat)
    requires s.NoLeak() && CanTakeRun(s, c, l, h, x)
    ensures TakeRun(s, c, l, h, x).NoLeak()
  {
    StillHeld(s, TakeRun(s, c, l, h, x), x);
  }

  lemma SamePools(s: Arena, s': Arena)
    requires s.PoolsOk() && s.PoolsComplete() && s'.subs == s.subs && s'.pools == s.pools
    ensures s'.PoolsOk() && s'.PoolsComplete()
  {
  }

  lemma TakeRunCore(s: Arena, c: nat, l: Layout, h: Handle, x: nat)
    requires s.Core() && CanTakeRun(s, c, l, h, x)
    ensures TakeRun(s, c, l, h, x).Core()
  {
    hide Arena.SubsOk, Arena.HeldOk, Arena.Exclusive, Arena.NoLeak, Arena.ChunksOk, Arena.ListsShape,
      Arena.NormalRun, Arena.PoolsOk, Arena.PoolsComplete;
    SamePools(s, TakeRun(s, c, l, h, x));
    TakeRunHeld(s, c, l, h, x);
    TakeRunSubs(s, c, l, h, x);
    TakeRunNoLeak(s, c, l, h, x);
    NewLayoutChunks(s, c, l);
    SameChunks(WithLayout(s, c, l), TakeRun(s, c, l, h, x));
  }

  // ---------------------------------------------------------------- AddSub

  ghost predicate CanAddSub(s: Arena, c: nat, l: Layout, run: Run, k: nat, elems: nat) {
    && Grows(s, c, l, run) && k < |s.pools| && NeedsPages(s.pageShifts, k, run.pages)
    && 0 < elems && elems * SizeOf(k) == Shl(run.pages, s.pageShifts)
  }

  lemma AddSubSubs(s: Arena, c: nat, l: Layout, run: Run, k: nat, elems: nat)
    requires s.Configured() && s.SubsOk() && CanAddSub(s, c, l, run, k, elems)
    ensures AddSub(s, c, l, run, k, elems).SubsOk()
  {
    hide Arena.ChunkOk, NeedsPages, Shl, LeastClass;
    var s' := AddSub(s, c, l, run, k, elems);
    LeastClassOfClass(QUANTUM, k);
    forall q | q in s'.subs ensures s'.SubOk(s'.subs[q]) {
      if q != Place(c, run.offset) { assert s.SubOk(s.subs[q]); }
    }
  }

  lemma AddSubHeld(s: Arena, c: nat, l: Layout, run: Run, k: nat, elems: nat)
    requires s.SubsOk() && s.HeldOk() && s.Exclusive() && CanAddSub(s, c, l, run, k, elems)
    ensures AddSub(s, c, l, run, k, elems).HeldOk() && AddSub(s, c, l, run, k, elems).Exclusive()
  {
    NewPlace(s, c, l, run);
    var s' := AddSub(s, c, l, run, k, elems);
    forall y | y in s'.held ensures s'.LiveRegion(s'.held[y]) {
      assert s.LiveRegion(s.held[y]);
      if !s.held[y].handle.subpage { assert s.held[y].handle.ToRun() in s.chunks[s.held[y].chunk].layout.live; }
    }
  }

  lemma AddSubNoLeak(s: Arena, c: nat, l: Layout, run: Run, k: nat, elems: nat)
    requires s.SubsOk() && s.NoLeak() && CanAddSub(s, c, l, run, k, elems)
    ensures AddSub(s, c, l, run, k, elems).NoLeak()
  {
    hide Arena.SubOk, Arena.ChunkOk, NeedsPages;
    NewPlace(s, c, l, run);
    var s' := AddSub(s, c, l, run, k, elems);
    forall u | s.HeldUnit(u) ensures s'.HeldUnit(u) {
      var y :| y in s.held && s.held[y].ToUnit() == u;
      assert s'.held[y].ToUnit() == u;
    }
  }

  lemma AddSubPools(s: Arena, c: nat, l: Layout, run: Run, k: nat, elems: nat)
    requires s.SubsOk() && s.PoolsOk() && s.PoolsComplete() && CanAddSub(s, c, l, run, k, elems)
    ensures AddSub(s, c, l, run, k, elems).PoolsOk() && AddSub(s, c, l, run, k, elems).PoolsComplete()
  {
    NewPlace(s, c, l, run);
    LeastClassOfClass(QUANTUM, k);
    var s' := AddSub(s, c, l, run, k, elems);
    var p := Place(c, run.offset);
    forall j, q | 0 <= j < |s'.pools| && q in s'.pools[j]
      ensures q in s'.subs && ClassOf(s'.subs[q]) == j && 0 < s'.subs[q].NumAvail()
    {
      assert (q == p && j == k) || q in s.pools[j];
    }
    PrependDistinct(s.pools[k], p);
  }

  lemma AddSubQueues(s: Arena, c: nat, l: Layout, run: Run, k: nat, elems: nat)
    requires s.SubsOk() && s.HeldOk() && s.QueuesOk() && CanAddSub(s, c, l, run, k, elems)
    ensures AddSub(s, c, l, run, k, elems).QueuesOk()
  {
    NewPlace(s, c, l, run);
    forall j, x | 0 <= j < |s.queues| && x in s.queues[j] ensures s.LiveRegion(s.held[x]) {
    }
  }

  lemma AddSubCore(s: Arena, c: nat, l: Layout, run: Run, k: nat, elems: nat)
    requires s.Core() && CanAddSub(s, c, l, run, k, elems)
    ensures AddSub(s, c, l, run, k, elems).Core()
  {
    hide Arena.SubsOk, Arena.HeldOk, Arena.Exclusive, Arena.NoLeak, Arena.PoolsOk, Arena.PoolsComplete, Arena.QueuesOk,
      Arena.ChunksOk, Arena.ListsShape;
    AddSubSubs(s, c, l, run, k, elems);
    AddSubHeld(s, c, l, run, k, elems);
    AddSubNoLeak(s, c, l, run, k, elems);
    AddSubPools(s, c, l, run, k, elems);
    AddSubQueues(s, c, l, run, k, elems);
    NewLayoutChunks(s, c, l);
    SameChunks(WithLayout(s, c, l), AddSub(s, c, l, run, k, elems));
  }

  // ---------------------------------------------------------------- ReturnElem

  ghost predicate CanReturnElem(s: Arena, x: nat) {
    x in s.held && s.held[x].handle.subpage && !s.Cached(x)
  }

  lemma ElemIsLive(s: Arena, x: nat)
    requires s.Configured() && s.SubsOk() && s.HeldOk() && CanReturnElem(s, x)
    ensures var r := s.held[x];
      && r.At() in s.subs && s.SubOk(s.subs[r.At()]) && r.handle.bitmapIdx in s.subs[r.At()].used
      && ClassOf(s.subs[r.At()]) < |s.pools|
  {
    assert s.LiveRegion(s.held[x]);
  }

  lemma ReturnElemSubs(s: Arena, x: nat)
    requires s.Configured() && s.SubsOk() && s.HeldOk() && CanReturnElem(s, x)
    ensures s.held[x].At() in s.subs && ClassOf(s.subs[s.held[x].At()]) < |s.pools| && ReturnElem(s, x).SubsOk()
  {
    ElemIsLive(s, x);
    var r := s.held[x];
    GiveIsValid(s.subs[r.At()], r.handle.bitmapIdx);
    var s' := ReturnElem(s, x);
    forall q | q in s'.subs ensures s'.SubOk(s'.subs[q]) {
      assert s.SubOk(s.subs[q]);
    }
  }

  lemma ReturnElemHeld(s: Arena, x: nat)
    requires s.Configured() && s.SubsOk() && s.HeldOk() && s.Exclusive() && CanReturnElem(s, x)
    ensures s.held[x].At() in s.subs && ClassOf(s.subs[s.held[x].At()]) < |s.pools|
    ensures ReturnElem(s, x).HeldOk() && ReturnElem(s, x).Exclusive()
  {
    ElemIsLive(s, x);
    var s' := ReturnElem(s, x);
    forall y | y in s'.held ensures s'.LiveRegion(s'.held[y]) {
      assert s.LiveRegion(s.held[y]) && s.held[y].ToUnit() != s.held[x].ToUnit();
    }
  }

  lemma ReturnElemNoLeak(s: Arena, x: nat)
    requires s.Configured() && s.SubsOk() && s.HeldOk() && s.Exclusive() && s.NoLeak() && CanReturnElem(s, x)
    ensures s.held[x].At() in s.subs && ClassOf(s.subs[s.held[x].At()]) < |s.pools| && ReturnElem(s, x).NoLeak()
  {
    hide Arena.SubOk, Arena.HeldUnit, ClassOf, Subpage.NumAvail;
    ElemIsLive(s, x);
    OthersHeld(s, ReturnElem(s, x), x);
  }

  lemma OthersHeld(s: Arena, s': Arena, x: nat)
    requires x in s.held && s'.held == s.held - {x}
    ensures forall u | s.HeldUnit(u) && u != s.held[x].ToUnit() :: s'.HeldUnit(u)
  {
    forall u | s.HeldUnit(u) && u != s.held[x].ToUnit() ensures s'.HeldUnit(u) {
      var y :| y in s.held && s.held[y].ToUnit() == u;
      assert s'.held[y].ToUnit() == u;
    }
  }

  lemma ReturnElemPools(s: Arena, x: nat)
    requires s.Configured() && s.SubsOk() && s.HeldOk() && s.PoolsOk() && s.PoolsComplete() && CanReturnElem(s, x)
    ensures s.held[x].At() in s.subs && ClassOf(s.subs[s.held[x].At()]) < |s.pools|
    ensures ReturnElem(s, x).PoolsOk() && ReturnElem(s, x).PoolsComplete()
  {
    ElemIsLive(s, x);
    var p := s.held[x].At();
    var k := ClassOf(s.subs[p]);
    GiveIsValid(s.subs[p], s.held[x].handle.bitmapIdx);
    var s' := ReturnElem(s, x);
    forall j, q | 0 <= j < |s'.pools| && q in s'.pools[j]
      ensures q in s'.subs && ClassOf(s'.subs[q]) == j && 0 < s'.subs[q].NumAvail()
    {
      assert (q == p && j == k) || q in s.pools[j];
    }
    if s.subs[p].NumAvail() == 0 { PrependDistinct(s.pools[k], p); }
  }

  lemma ReturnElemQueues(s: Arena, x: nat)
    requires s.Configured() && s.SubsOk() && s.HeldOk() && s.QueuesOk() && CanReturnElem(s, x)
    ensures s.held[x].At() in s.subs && ClassOf(s.subs[s.held[x].At()]) < |s.pools| && ReturnElem(s, x).QueuesOk()
  {
    ElemIsLive(s, x);
  }

  lemma ReturnElemCore(s: Arena, x: nat)
    requires s.Core() && CanReturnElem(s, x)
    ensures s.held[x].At() in s.subs && ClassOf(s.subs[s.held[x].At()]) < |s.pools| && ReturnElem(s, x).Core()
  {
    hide Arena.SubsOk, Arena.HeldOk, Arena.Exclusive, Arena.NoLeak, Arena.PoolsOk, Arena.PoolsComplete, Arena.QueuesOk,
      Arena.ChunksOk, Arena.ListsShape;
    ReturnElemSubs(s, x);
    ReturnElemHeld(s, x);
    ReturnElemNoLeak(s, x);
    ReturnElemPools(s, x);
    ReturnElemQueues(s, x);
    SameChunks(s, ReturnElem(s, x));
  }

  // ---------------------------------------------------------------- DropSub

  ghost predicate CanDropSub(s: Arena, p: Place, l: Layout) {
    p in s.subs && s.subs[p].used == {} && ClassOf(s.subs[p]) < |s.pools| && Shrinks(s, p.chunk, l, s.subs[p].run)
  }

  lemma DropSubSubs(s: Arena, p: Place, l: Layout)
    requires s.Configured() && s.ChunksOk() && s.SubsOk() && CanDropSub(s, p, l)
    ensures DropSub(s, p, l).SubsOk()
  {
    hide Arena.ChunksOk, Arena.ChunkOk, Without;
    var s' := DropSub(s, p, l);
    forall q | q in s'.subs ensures s'.SubOk(s'.subs[q]) && (q.chunk == p.chunk ==> s.subs[q].run != s.subs[p].run) {
      assert s.SubOk(s.subs[q]);
    }
  }

  lemma DropSubHeld(s: Arena, p: Place, l: Layout)
    requires s.SubsOk() && s.HeldOk() && s.Exclusive() && CanDropSub(s, p, l)
    ensures DropSub(s, p, l).HeldOk() && DropSub(s, p, l).Exclusive()
  {
    var s' := DropSub(s, p, l);
    forall y | y in s'.held ensures s'.LiveRegion(s'.held[y]) {
      assert s.LiveRegion(s.held[y]);
      assert s.held[y].At() != p;
    }
  }

  lemma DropSubNoLeak(s: Arena, p: Place, l: Layout)
    requires s.ChunksOk() && s.SubsOk() && s.NoLeak() && CanDropSub(s, p, l)
    ensures DropSub(s, p, l).NoLeak()
  {
    hide Arena.ChunksOk, Arena.ChunkOk;
    var s' := DropSub(s, p, l);
    forall u | s.HeldUnit(u) ensures s'.HeldUnit(u) {
      var y :| y in s.held && s.held[y].ToUnit() == u;
      assert s'.held[y].ToUnit() == u;
    }
    OthersElsewhere(s, p.chunk, l, s.subs[p].run);
  }

  lemma DropSubPools(s: Arena, p: Place, l: Layout)
    requires s.Configured() && s.SubsOk() && s.PoolsOk() && s.PoolsComplete() && CanDropSub(s, p, l)
    ensures DropSub(s, p, l).PoolsOk() && DropSub(s, p, l).PoolsComplete()
  {
    hide Arena.SubOk, ClassOf, Shrinks, Without, Subpage.NumAvail;
    var k := ClassOf(s.subs[p]);
    WithoutIs(s.pools[k], p);
    var s' := DropSub(s, p, l);
    forall j, q | 0 <= j < |s'.pools| && q in s'.pools[j]
      ensures q in s'.subs && ClassOf(s'.subs[q]) == j && 0 < s'.subs[q].NumAvail()
    {
      assert q in s.pools[j] && q != p;
    }
  }

  lemma DropSubQueues(s: Arena, p: Place, l: Layout)
    requires s.HeldOk() && s.QueuesOk() && CanDropSub(s, p, l)
    ensures DropSub(s, p, l).QueuesOk()
  {
    forall k, x | 0 <= k < |s.queues| && x in s.queues[k] ensures s.held[x].handle.subpage ==> s.held[x].At() != p {
      assert s.LiveRegion(s.held[x]);
    }
  }

  lemma DropSubCore(s: Arena, p: Place, l: Layout)
    requires s.Core() && CanDropSub(s, p, l)
    ensures DropSub(s, p, l).Core()
  {
    hide Arena.SubsOk, Arena.HeldOk, Arena.Exclusive, Arena.NoLeak, Arena.PoolsOk, Arena.PoolsComplete, Arena.QueuesOk,
      Arena.ChunksOk, Arena.ListsShape;
    DropSubSubs(s, p, l);
    DropSubHeld(s, p, l);
    DropSubNoLeak(s, p, l);
    DropSubPools(s, p, l);
    DropSubQueues(s, p, l);
    NewLayoutChunks(s, p.chunk, l);
    SameChunks(WithLayout(s, p.chunk, l), DropSub(s, p, l));
  }

  // ---------------------------------------------------------------- ReturnRun

  ghost predicate CanReturnRun(s: Arena, x: nat, l: Layout) {
    x in s.held && !s.held[x].handle.subpage && !s.Cached(x) && Shrinks(s, s.held[x].chunk, l, s.held[x].handle.ToRun())
  }

  lemma ReturnRunSubs(s: Arena, x: nat, l: Layout)
    requires s.Configured() && s.SubsOk() && s.HeldOk() && CanReturnRun(s, x, l)
    ensures ReturnRun(s, x, l).SubsOk()
  {
    assert s.LiveRegion(s.held[x]);
    var s' := ReturnRun(s, x, l);
    forall q | q in s'.subs ensures s'.SubOk(s'.subs[q]) && q != s.held[x].At() {
      assert s.SubOk(s.subs[q]);
    }
  }

  lemma ReturnRunHeld(s: Arena, x: nat, l: Layout)
    requires s.SubsOk() && s.HeldOk() && s.Exclusive() && CanReturnRun(s, x, l)
    ensures ReturnRun(s, x, l).HeldOk() && ReturnRun(s, x, l).Exclusive()
  {
    assert s.LiveRegion(s.held[x]);
    var s' := ReturnRun(s, x, l);
    forall y | y in s'.held ensures s'.LiveRegion(s'.held[y]) {
      assert s.LiveRegion(s.held[y]) && s.held[y].ToUnit() != s.held[x].ToUnit();
    }
  }

  lemma ReturnRunNoLeak(s: Arena, x: nat, l: Layout)
    requires s.ChunksOk() && s.HeldOk() && s.NoLeak() && CanReturnRun(s, x, l)
    ensures ReturnRun(s, x, l).NoLeak()
  {
    hide Arena.ChunksOk, Arena.ChunkOk;
    assert s.LiveRegion(s.held[x]);
    OthersHeld(s, ReturnRun(s, x, l), x);
    OthersElsewhere(s, s.held[x].chunk, l, s.held[x].handle.ToRun());
  }

  lemma ReturnRunCore(s: Arena, x: nat, l: Layout)
    requires s.Core() && CanReturnRun(s, x, l)
    ensures ReturnRun(s, x, l).Core()
  {
    hide Arena.SubsOk, Arena.HeldOk, Arena.Exclusive, Arena.NoLeak, Arena.ChunksOk, Arena.ListsShape;
    ReturnRunSubs(s, x, l);
    ReturnRunHeld(s, x, l);
    ReturnRunNoLeak(s, x, l);
    NewLayoutChunks(s, s.held[x].chunk, l);
    SameChunks(WithLayout(s, s.held[x].chunk, l), ReturnRun(s, x, l));
  }

  // ---------------------------------------------------------------- lists and chunks

  lemma RelistShape(s: Arena, c: nat, band: nat)
    requires s.ListsShape() && c in s.chunks && band < |s.lists|
    ensures Relist(s, c, band).ListsShape()
  {
    var from := s.chunks[c].parent;
    WithoutIs(s.lists[from], c);
    var cut := s.lists[from := Without(s.lists[from], c)];
    assert c !in cut[band];
    PrependDistinct(cut[band], c);
    var s' := Relist(s, c, band);
    forall b, d | 0 <= b < |s'.lists| && d in s'.lists[b] ensures d in s'.chunks && s'.chunks[d].parent == b {
      assert (d == c && b == band) || d in cut[b];
    }
  }

  /** The same regions over chunks that differ only in where they are listed, or are new and empty. */
  ghost predicate SameMemory(s: Arena, s': Arena) {
    && s'.pageShifts == s.pageShifts && s'.maxOrder == s.maxOrder
    && s'.subs == s.subs && s'.held == s.held && s'.pools == s.pools
    && (forall c | c in s.chunks :: c in s'.chunks && s'.chunks[c].layout == s.chunks[c].layout)
    && (forall c | c in s'.chunks && c !in s.chunks :: s'.chunks[c].layout.live == {})
  }

  lemma SameMemoryRegions(s: Arena, s': Arena)
    requires s.SubsOk() && s.HeldOk() && SameMemory(s, s')
    ensures s'.SubsOk() && s'.HeldOk()
  {
    forall q | q in s'.subs ensures s'.SubOk(s'.subs[q]) {
      assert s.SubOk(s.subs[q]);
    }
    forall y | y in s'.held ensures s'.LiveRegion(s'.held[y]) {
      assert s.LiveRegion(s.held[y]);
    }
  }

  lemma SameMemoryNoLeak(s: Arena, s': Arena)
    requires s.NoLeak() && SameMemory(s, s')
    ensures s'.NoLeak()
  {
    forall u | s.HeldUnit(u) ensures s'.HeldUnit(u) {
      var y :| y in s.held && s.held[y].ToUnit() == u;
      assert s'.held[y].ToUnit() == u;
    }
  }

  lemma SameMemoryCore(s: Arena, s': Arena)
    requires s.Core() && SameMemory(s, s') && s'.ChunksOk() && s'.ListsShape() && |s'.lists| == BANDS
    requires s'.queues == s.queues || s'.QueuesOk()
    ensures s'.Core()
  {
    hide Arena.SubsOk, Arena.HeldOk, Arena.NoLeak, Arena.ChunksOk, Arena.ListsShape;
    SameMemoryRegions(s, s');
    SameMemoryNoLeak(s, s');
  }

  /** Moving a chunk between lists changes nothing else. */
  lemma RelistCore(s: Arena, c: nat, band: nat)
    requires s.Core() && c in s.chunks && band < |s.lists|
    ensures s.chunks[c].parent < |s.lists| && Relist(s, c, band).Core()
  {
    hide Arena.SubsOk, Arena.HeldOk, Arena.NoLeak, Arena.Exclusive, Arena.PoolsOk, Arena.PoolsComplete,
      Arena.QueuesOk, Arena.ChunksOk, Without;
    RelistShape(s, c, band);
    RelistChunks(s, c, band);
    SameMemoryCore(s, Relist(s, c, band));
  }

  lemma RelistChunks(s: Arena, c: nat, band: nat)
    requires s.ChunksOk() && c in s.chunks && s.chunks[c].parent < |s.lists| && band < |s.lists|
    ensures Relist(s, c, band).ChunksOk()
  {
    hide Layout.Valid, Conserved, Without;
    var s' := Relist(s, c, band);
    forall d | d in s'.chunks ensures s'.ChunkOk(s'.chunks[d].layout) {
      assert s.ChunkOk(s.chunks[d].layout);
    }
  }

  lemma AddChunkShape(s: Arena, c: nat)
    requires s.Configured() && s.ListsShape() && c !in s.chunks
    ensures AddChunk(s, c).ListsShape()
  {
    var s' := AddChunk(s, c);
    assert c !in s.lists[Q_INIT];
    PrependDistinct(s.lists[Q_INIT], c);
    forall b, d | 0 <= b < |s'.lists| && d in s'.lists[b] ensures d in s'.chunks && s'.chunks[d].parent == b {
      assert (d == c && b == Q_INIT) || d in s.lists[b];
    }
  }

  lemma AddChunkChunks(s: Arena, c: nat)
    requires s.Configured() && s.ChunksOk() && c !in s.chunks
    ensures AddChunk(s, c).ChunksOk()
  {
    FreshIsValid(Pow2(s.maxOrder));
    FreshIsConserved(Pow2(s.maxOrder));
    hide Layout.Valid, Conserved, Fresh;
    var s' := AddChunk(s, c);
    forall d | d in s'.chunks ensures s'.ChunkOk(s'.chunks[d].layout) {
      assert d != c ==> s.ChunkOk(s.chunks[d].layout);
      FreshTotal(Pow2(s.maxOrder));
    }
  }

  lemma FreshTotal(total: nat)
    ensures Fresh(total).total == total && Fresh(total).live == {}
  {
  }

  lemma AddChunkCore(s: Arena, c: nat)
    requires s.Core() && c !in s.chunks
    ensures AddChunk(s, c).Core()
  {
    hide Arena.SubsOk, Arena.HeldOk, Arena.NoLeak, Arena.ChunksOk, Arena.ListsShape, Fresh;
    FreshTotal(Pow2(s.maxOrder));
    AddChunkShape(s, c);
    AddChunkChunks(s, c);
    SameMemoryCore(s, AddChunk(s, c));
  }

  /** Only a chunk without live runs may go; then nothing held or carved refers to it. */
  ghost predicate CanDestroy(s: Arena, c: nat) {
    c in s.chunks && s.chunks[c].layout.live == {}
  }

  lemma DestroyShape(s: Arena, c: nat)
    requires s.ListsShape() && CanDestroy(s, c)
    ensures Destroy(s, c).ListsShape()
  {
    var from := s.chunks[c].parent;
    WithoutIs(s.lists[from], c);
    var s' := Destroy(s, c);
    forall b, d | 0 <= b < |s'.lists| && d in s'.lists[b] ensures d in s'.chunks && s'.chunks[d].parent == b {
      assert d in s.lists[b] && d != c;
    }
  }

  lemma DestroyOthers(s: Arena, c: nat)
    requires s.Configured() && s.ListsShape() && s.ChunksOk() && s.SubsOk() && s.HeldOk() && CanDestroy(s, c)
    ensures var s' := Destroy(s, c); s'.ChunksOk() && s'.SubsOk() && s'.HeldOk()
    ensures forall x | x in s.held :: s.held[x].chunk != c
  {
    hide Layout.Valid, Conserved, Without;
    var s' := Destroy(s, c);
    forall d | d in s'.chunks ensures s'.ChunkOk(s'.chunks[d].layout) {
      assert s.ChunkOk(s.chunks[d].layout);
    }
    forall q | q in s'.subs ensures s'.SubOk(s'.subs[q]) {
      assert s.SubOk(s.subs[q]);
    }
    forall y | y in s'.held ensures s'.LiveRegion(s'.held[y]) && s.held[y].chunk != c {
      assert s.LiveRegion(s.held[y]);
    }
  }

  lemma DestroyNoLeak(s: Arena, c: nat)
    requires s.NoLeak() && s.ListsShape() && CanDestroy(s, c)
    ensures s.chunks[c].parent < |s.lists| && Destroy(s, c).NoLeak()
  {
    hide Without;
    var s' := Destroy(s, c);
    forall u | s.HeldUnit(u) ensures s'.HeldUnit(u) {
      var y :| y in s.held && s.held[y].ToUnit() == u;
      assert s'.held[y].ToUnit() == u;
    }
  }

  lemma DestroyCore(s: Arena, c: nat)
    requires s.Core() && CanDestroy(s, c)
    ensures s.chunks[c].parent < |s.lists| && Destroy(s, c).Core()
  {
    hide Arena.SubsOk, Arena.HeldOk, Arena.NoLeak, Arena.ChunksOk;
    DestroyShape(s, c);
    DestroyOthers(s, c);
    DestroyNoLeak(s, c);
  }

  // ---------------------------------------------------------------- the cache queues

  ghost predicate CanEnqueue(s: Arena, k: nat, x: nat) {
    k < |s.queues| && x in s.held && !s.Cached(x) && s.NormCapacity(s.held[x]) == SizeOf(k)
  }

  lemma EnqueueCore(s: Arena, k: nat, x: nat)
    requires s.Core() && CanEnqueue(s, k, x)
    ensures Enqueue(s, k, x).Core()
  {
    hide Arena.ChunksOk, Arena.SubsOk, Arena.HeldOk, Arena.Exclusive, Arena.NoLeak, Arena.PoolsOk,
      Arena.PoolsComplete, Arena.ListsShape;
    var s' := Enqueue(s, k, x);
    assert x !in s.queues[k];
    assert s'.QueuesOk();
    SameChunks(s, s');
    SameMemoryCore(s, s');
  }

  /** A popped entry is in no queue any more: it belongs to whoever popped it. */
  lemma DequeueCore(s: Arena, k: nat)
    requires s.Core() && k < |s.queues| && s.queues[k] != []
    ensures Dequeue(s, k).Core()
    ensures s.queues[k][0] in s.held && !Dequeue(s, k).Cached(s.queues[k][0])
  {
    hide Arena.ChunksOk, Arena.SubsOk, Arena.HeldOk, Arena.Exclusive, Arena.NoLeak, Arena.PoolsOk,
      Arena.PoolsComplete, Arena.ListsShape;
    DequeueQueues(s, k);
    SameChunks(s, Dequeue(s, k));
    SameMemoryCore(s, Dequeue(s, k));
  }

  lemma DequeueQueues(s: Arena, k: nat)
    requires s.QueuesOk() && k < |s.queues| && s.queues[k] != []
    ensures Dequeue(s, k).QueuesOk()
    ensures s.queues[k][0] in s.held && !Dequeue(s, k).Cached(s.queues[k][0])
  {
    hide SizeOf;
    var s' := Dequeue(s, k);
    var x := s.queues[k][0];
    assert x in s.queues[k];
    assert forall i | 0 <= i < |s'.queues[k]| :: s'.queues[k][i] == s.queues[k][i + 1];
    assert forall j, y | 0 <= j < |s'.queues| && y in s'.queues[j] :: y in s.queues[j];
    forall j | 0 <= j < |s'.queues| ensures x !in s'.queues[j] {
      if j != k {
        SizesDiffer(j, k);
        assert s.NormCapacity(s.held[x]) == SizeOf(k);
      } else {
        assert forall i | 0 < i < |s.queues[k]| :: s.queues[k][i] != x;
      }
    }
  }

  lemma SizesDiffer(j: nat, k: nat)
    requires j != k
    ensures SizeOf(j) != SizeOf(k)
  {
    if j < k { ClassMonotone(QUANTUM, j, k); } else { ClassMonotone(QUANTUM, k, j); }
  }

  // ---------------------------------------------------------------- last in, first out

  /** An element given back to a subpage that was full, or that is first in its pool, is the next one
      its class is served: what it is given back as is what is handed out. */
  lemma FreedServesNext(s: Arena, x: nat, y: nat)
    requires s.Configured() && s.SubsOk() && s.HeldOk() && CanReturnElem(s, x) && y !in s.held - {x}
    requires s.held[x].At() in s.subs && ClassOf(s.subs[s.held[x].At()]) < |s.pools|
    requires var k := ClassOf(s.subs[s.held[x].At()]);
      s.subs[s.held[x].At()].NumAvail() == 0 || (s.pools[k] != [] && s.pools[k][0] == s.held[x].At())
    ensures var k, s1 := ClassOf(s.subs[s.held[x].At()]), ReturnElem(s, x);
      && s1.pools[k] != [] && s1.pools[k][0] in s1.subs
      && var r := TakeElem(s1, k, y).held[y];
         r.chunk == s.held[x].chunk && r.handle.ToRun() == s.held[x].handle.ToRun() && r.handle.subpage
         && r.handle.bitmapIdx == s.held[x].handle.bitmapIdx
  {
    hide Arena.ChunksOk, NeedsPages, Subpage.NumAvail, NextAvail, Give, Take;
    ElemIsLive(s, x);
    assert s.LiveRegion(s.held[x]);
    var sub := s.subs[s.held[x].At()];
    GiveThenTake(sub, s.held[x].handle.bitmapIdx);
    GiveKeepsRun(sub, s.held[x].handle.bitmapIdx);
  }

  lemma GiveKeepsRun(sub: Subpage, i: nat)
    ensures Give(sub, i).run == sub.run && Give(sub, i).elemSize == sub.elemSize
  {
  }
}
