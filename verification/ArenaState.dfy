/** The state of one `PoolArena` with its thread cache, as a value: chunks and their layouts, the
    subpages carved into them, the pools, the usage lists, the cached regions, and who holds what.

    A token stands for a region from the moment a chunk hands it out until the chunk takes it back.
    In between it is a live buffer or, after `deallocate` into the cache, a queued entry. */
module ArenaState {
  import opened Powers
  import opened ClassMath
  import opened PageClasses
  import opened Runs
  import opened RunSizing
  import opened Handles
  import opened Subpages
  import opened ChunkLists

  datatype Place = Place(chunk: nat, offset: nat)

  datatype Region = Region(chunk: nat, handle: Handle) {
    function At(): Place {
      Place(chunk, handle.runOffset)
    }

    /** What the region occupies: a whole run (-1) or one element of the subpage on it. */
    function ToUnit(): Unit {
      Unit(At(), if handle.subpage then handle.bitmapIdx else -1)
    }
  }

  datatype Unit = Unit(place: Place, idx: int)

  datatype Chunk = Chunk(layout: Layout, parent: nat)

  datatype Arena = Arena(
    pageShifts: nat,
    maxOrder: nat,
    chunks: map<nat, Chunk>,
    subs: map<Place, Subpage>,
    pools: seq<seq<Place>>,
    lists: seq<seq<nat>>,
    queues: seq<seq<nat>>,
    held: map<nat, Region>)
  {
    function ChunkSize(): nat {
      Shl(Pow2(maxOrder), pageShifts)
    }

    ghost predicate Configured() {
      && ValidConfig(pageShifts, maxOrder)
      && ChunkSizeOk(ChunkSize())
      && |pools| == SmallMaxSizeIdx(pageShifts) + 1
      && |lists| == BANDS
    }

    ghost function FreeBytes(c: nat): nat
      requires c in chunks
    {
      Shl(Pages(chunks[c].layout.free), pageShifts)
    }

    // ---------------------------------------------------------------- chunks and subpages

    ghost predicate ChunksOk() {
      forall c | c in chunks :: ChunkOk(chunks[c].layout)
    }

    ghost predicate ChunkOk(l: Layout) {
      l.Valid() && Conserved(l) && l.total == Pow2(maxOrder)
    }

    /** The run is the one its class needs, and the elements tile it without remainder. */
    ghost predicate SubOk(sub: Subpage) {
      && sub.Valid() && NeedsPages(pageShifts, ClassOf(sub), sub.run.pages)
      && SizeOf(ClassOf(sub)) == sub.elemSize && ClassOf(sub) < |pools|
      && sub.maxElems * sub.elemSize == Shl(sub.run.pages, pageShifts)
    }

    ghost predicate SubsOk() {
      forall p | p in subs ::
        && p.chunk in chunks && p.offset == subs[p].run.offset
        && subs[p].run in chunks[p.chunk].layout.live && SubOk(subs[p])
    }

    // ---------------------------------------------------------------- holders

    /** A whole run handed out for a normal size class. */
    ghost predicate NormalRun(pages: nat) {
      var k := LeastClass(QUANTUM, Shl(pages, pageShifts));
      |pools| <= k && SizeOf(k) == Shl(pages, pageShifts)
    }

    ghost predicate LiveRegion(r: Region) {
      && r.chunk in chunks
      && if r.handle.subpage then
           r.At() in subs && subs[r.At()].run == r.handle.ToRun() && r.handle.bitmapIdx in subs[r.At()].used
         else
           r.handle.ToRun() in chunks[r.chunk].layout.live && r.At() !in subs && NormalRun(r.handle.pages)
    }

    ghost predicate HeldOk() {
      forall x | x in held :: LiveRegion(held[x])
    }

    /** No two tokens, live or cached, stand for the same run or element. */
    ghost predicate Exclusive() {
      forall x, y | x in held && y in held && x != y :: held[x].ToUnit() != held[y].ToUnit()
    }

    ghost predicate HeldUnit(u: Unit) {
      exists x :: x in held && held[x].ToUnit() == u
    }

    /** Every live run is behind a subpage or held, and every taken element is held. */
    ghost predicate NoLeak() {
      && (forall c, r | c in chunks && r in chunks[c].layout.live ::
            Place(c, r.offset) in subs || HeldUnit(Unit(Place(c, r.offset), -1)))
      && (forall p, i | p in subs && i in subs[p].used :: HeldUnit(Unit(p, i)))
    }

    // ---------------------------------------------------------------- pools

    /** Pool members have room and belong to the pool's class. */
    ghost predicate PoolsOk() {
      && (forall k, i, j | 0 <= k < |pools| && 0 <= i < j < |pools[k]| :: pools[k][i] != pools[k][j])
      && (forall k, p | 0 <= k < |pools| && p in pools[k] ::
            p in subs && ClassOf(subs[p]) == k && 0 < subs[p].NumAvail())
    }

    /** Every subpage with room is in its pool. */
    ghost predicate PoolsComplete() {
      forall p | p in subs && ClassOf(subs[p]) < |pools| && 0 < subs[p].NumAvail() :: p in pools[ClassOf(subs[p])]
    }

    /** Of the subpages with two or more elements, a class has at most one wholly free. */
    ghost predicate OneIdle() {
      forall p, q | p in subs && q in subs && p != q && ClassOf(subs[p]) == ClassOf(subs[q])
                    && 1 < subs[p].maxElems && 1 < subs[q].maxElems ::
        subs[p].used != {} || subs[q].used != {}
    }

    // ---------------------------------------------------------------- usage lists

    /** Every chunk is in exactly one list, once: the one its parent names. */
    ghost predicate ListsShape() {
      && (forall c | c in chunks :: chunks[c].parent < |lists| && c in lists[chunks[c].parent])
      && (forall b, c | 0 <= b < |lists| && c in lists[b] :: c in chunks && chunks[c].parent == b)
      && (forall b, i, j | 0 <= b < |lists| && 0 <= i < j < |lists[b]| :: lists[b][i] != lists[b][j])
    }

    ghost predicate Banded(c: nat)
      requires c in chunks
    {
      InBand(ChunkSize(), chunks[c].parent, FreeBytes(c))
    }

    ghost predicate ListsBounds() {
      forall c | c in chunks :: Banded(c)
    }

    // ---------------------------------------------------------------- the thread cache

    ghost function NormCapacity(r: Region): int {
      if r.handle.subpage then (if r.At() in subs then subs[r.At()].elemSize else 0)
      else Shl(r.handle.pages, pageShifts)
    }

    ghost predicate QueuesOk() {
      && (forall k, i, j | 0 <= k < |queues| && 0 <= i < j < |queues[k]| :: queues[k][i] != queues[k][j])
      && (forall k, x | 0 <= k < |queues| && x in queues[k] ::
            x in held && NormCapacity(held[x]) == SizeOf(k))
    }

    ghost predicate Cached(x: nat) {
      exists k :: 0 <= k < |queues| && x in queues[k]
    }

    // ---------------------------------------------------------------- the invariant

    /** Kept by every single move. */
    ghost predicate Core() {
      && Configured() && ChunksOk() && SubsOk() && HeldOk() && Exclusive() && NoLeak()
      && PoolsOk() && PoolsComplete() && ListsShape() && QueuesOk()
    }

    /** Kept between operations. */
    ghost predicate Inv() {
      Core() && OneIdle() && ListsBounds()
    }
  }

  function ClassOf(sub: Subpage): nat {
    LeastClass(QUANTUM, sub.elemSize)
  }

  /** A new arena holds nothing. */
  function Empty(pageShifts: nat, maxOrder: nat, nQueues: nat): Arena
    requires ValidConfig(pageShifts, maxOrder)
  {
    Arena(pageShifts, maxOrder, map[], map[], seq(SmallMaxSizeIdx(pageShifts) + 1, _ => []),
          seq(BANDS, _ => []), seq(nQueues, _ => []), map[])
  }

  lemma EmptyInv(pageShifts: nat, maxOrder: nat, nQueues: nat)
    requires ValidConfig(pageShifts, maxOrder) && ChunkSizeOk(Shl(Pow2(maxOrder), pageShifts))
    ensures Empty(pageShifts, maxOrder, nQueues).Inv()
  {
  }
}
