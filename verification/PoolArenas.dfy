/** `PoolArena` with its chunks as objects: the control flow of allocation and release, tied move by
    move to the arena model. */
module PoolArenas {
  import opened Basics
  import opened Powers
  import opened ClassMath
  import opened PageClasses
  import opened Runs
  import opened Handles
  import opened Subpages
  import opened ChunkLists
  import opened PoolChunks
  import opened RunSizing
  import opened RequestSizes
  import opened ArenaSearch
  import opened ArenaState
  import opened ArenaSteps
  import opened ArenaOps
  import ArenaRuns
  import ArenaOwners
  import ArenaSafety
  import opened ArenaLinks

  class PoolArena {
    const pageShifts: nat
    const maxOrder: nat
    const cacheSizes: seq<nat>      // m_size of each region cache, by size index; 0 where there is none
    const sweepThreshold: nat       // m_freeSweepAllocationThreshold
    var allocations: nat            // m_allocations of the thread cache
    var cacheAllocations: seq<nat>  // m_allocations of each region cache
    var chunks: map<nat, PoolChunk>
    var parents: map<nat, nat>      // m_parent of each chunk
    var subs: map<Place, Subpage>   // m_subpages of each chunk
    var pools: seq<seq<Place>>      // m_smallSubpagePools, without their heads
    var lists: seq<seq<nat>>        // qInit, q00, q25, q50, q75, q100
    var queues: seq<seq<nat>>       // the region caches, by size index
    var held: map<nat, Region>      // what each buffer or cached entry refers to
    var nextChunk: nat
    var nextToken: nat

    const chunkSize: nat := Shl(Pow2(maxOrder), pageShifts)

    ghost function Objects(): set<PoolChunk>
      reads this`chunks
    {
      chunks.Values
    }

    ghost predicate ChunksWired()
      reads this`chunks, this`parents, this`nextChunk, Objects()
    {
      && chunks.Keys == parents.Keys
      && (forall c | c in chunks ::
            c < nextChunk && chunks[c].Valid() && chunks[c].pageShifts == pageShifts && chunks[c].maxOrder == maxOrder)
      && (forall c, d | c in chunks && d in chunks && c != d :: chunks[c] != chunks[d])
    }

    ghost predicate Wired()
      reads this`chunks, this`parents, this`nextChunk, this`held, this`nextToken, this`queues, this`cacheAllocations
      reads Objects()
    {
      && ChunksWired() && |queues| == |cacheSizes| == |cacheAllocations|
      && forall x | x in held :: x < nextToken && held[x].handle.bitmapIdx < 0x8000_0000
    }

    /** The chunks as values. */
    ghost function Boxes(): map<nat, Chunk>
      reads this`chunks, this`parents, Objects()
    {
      map c | c in chunks :: Chunk(chunks[c].layout, if c in parents then parents[c] else 0)
    }

    ghost function State(): Arena
      reads this, Objects()
    {
      Arena(pageShifts, maxOrder, Boxes(), subs, pools, lists, queues, held)
    }

    ghost predicate Valid()
      reads this, Objects()
    {
      Wired() && State().Inv()
    }

    constructor (pageShifts: nat, maxOrder: nat, cacheSizes: seq<nat>, sweepThreshold: nat)
      requires ValidConfig(pageShifts, maxOrder) && ChunkSizeOk(Shl(Pow2(maxOrder), pageShifts))
      ensures Valid() && State() == Empty(pageShifts, maxOrder, |cacheSizes|)
      ensures this.cacheSizes == cacheSizes && this.sweepThreshold == sweepThreshold
      ensures allocations == 0 && cacheAllocations == seq(|cacheSizes|, _ => 0)
    {
      this.pageShifts, this.maxOrder := pageShifts, maxOrder;
      this.cacheSizes, this.sweepThreshold := cacheSizes, sweepThreshold;
      allocations, cacheAllocations := 0, seq(|cacheSizes|, _ => 0);
      chunks, parents, subs, held := map[], map[], map[], map[];
      pools := seq(SmallMaxSizeIdx(pageShifts) + 1, _ => []);
      lists := seq(BANDS, _ => []);
      queues := seq(|cacheSizes|, _ => []);
      nextChunk, nextToken := 0, 0;
      new;
      EmptyInv(pageShifts, maxOrder, |cacheSizes|);
      assert State() == Empty(pageShifts, maxOrder, |cacheSizes|);
    }

    // ---------------------------------------------------------------- lists

    method Relist(c: nat, band: nat)
      requires Wired() && c in chunks && parents[c] < |lists| && band < |lists|
      modifies this`parents, this`lists
      ensures Wired() && State() == ArenaSteps.Relist(old(State()), c, band)
    {
      hide PoolChunk.Valid, Without;
      var from := parents[c];
      lists := lists[from := Without(lists[from], c)];
      parents := parents[c := band];
      lists := lists[band := [c] + lists[band]];
      assert Boxes() == old(Boxes())[c := Chunk(chunks[c].layout, band)];
    }

    /** After an allocation: `remove` and `add` to the next list when the chunk is too full. */
    method SettleUp(c: nat)
      requires Wired() && c in chunks && parents[c] < |lists| == BANDS
      modifies this`parents, this`lists
      ensures Wired() && SettledUp(old(State()), c, State())
    {
      var band := parents[c];
      assert chunks[c].freeBytes == State().FreeBytes(c);
      if chunks[c].freeBytes <= FreeMin(chunkSize, band) {
        Relist(c, AddTo(chunkSize, band, chunks[c].freeBytes));
      }
    }

    method DestroyChunk(c: nat)
      requires Wired() && c in chunks && parents[c] < |lists|
      modifies this`parents, this`lists, this`chunks
      ensures Wired() && State() == ArenaSteps.Destroy(old(State()), c) && Among(chunks, old(chunks))
    {
      hide PoolChunk.Valid;
      var band := parents[c];
      lists := lists[band := Without(lists[band], c)];
      chunks := chunks - {c};
      parents := parents - {c};
    }

    /** After a release: `remove`, `move0` and `move` when the chunk is too empty; from q00 it is destroyed. */
    method SettleDown(c: nat)
      requires Wired() && c in chunks && parents[c] < |lists| == BANDS
      modifies this`parents, this`lists, this`chunks
      ensures Wired() && SettledDown(old(State()), c, State())
      ensures Among(chunks, old(chunks))
    {
      FreeBytesOf(c);
      var band := parents[c];
      if band != Q_INIT && chunks[c].freeBytes > FreeMax(chunkSize, band) {
        MoveHome(c, MoveFrom(chunkSize, band, chunks[c].freeBytes));
      }
    }

    method MoveHome(c: nat, home: Home)
      requires Wired() && c in chunks && parents[c] < |lists| == BANDS
      requires home.Band? ==> home.band < BANDS
      modifies this`parents, this`lists, this`chunks
      ensures Wired() && Homed(old(State()), c, home, State())
      ensures Among(chunks, old(chunks))
    {
      if home.Band? {
        Relist(c, home.band);
        return;
      }
      DestroyChunk(c);
    }

    /** `newChunk`, listed in qInit at once; the source lists it after its first allocation, from
        qInit on, which leaves it in the same place. */
    method NewChunk() returns (c: nat)
      requires Wired() && |lists| == BANDS && ValidConfig(pageShifts, maxOrder)
      modifies this`chunks, this`parents, this`lists, this`nextChunk
      ensures Wired() && c == old(nextChunk) && AddedChunk(old(State()), c, State())
      ensures c in chunks && fresh(chunks[c]) && fresh(chunks[c].memory) && chunks[c].layout == Fresh(Pow2(maxOrder))
      ensures fresh(Objects() - old(Objects()))
      ensures OneMore(chunks, old(chunks), c)
    {
      hide PoolChunk.Valid, Fresh, Pow2;
      var chunk := MakeChunk();
      c := Adopt(chunk);
      ListFirst(c, Q_INIT);
    }

    method MakeChunk() returns (chunk: PoolChunk)
      requires ValidConfig(pageShifts, maxOrder)
      ensures fresh(chunk) && fresh(chunk.memory) && chunk.Valid()
      ensures chunk.pageShifts == pageShifts && chunk.maxOrder == maxOrder && chunk.layout == Fresh(Pow2(maxOrder))
    {
      var memory := new Byte[chunkSize];
      chunk := new PoolChunk(memory, pageShifts, maxOrder);
    }

    method Adopt(chunk: PoolChunk) returns (c: nat)
      requires Wired() && chunk !in Objects()
      requires chunk.Valid() && chunk.pageShifts == pageShifts && chunk.maxOrder == maxOrder
      requires chunk.layout == Fresh(Pow2(maxOrder))
      modifies this`chunks, this`parents, this`nextChunk
      ensures Wired() && c == old(nextChunk) && chunks == old(chunks)[c := chunk]
      ensures State() == WithChunk(old(State()), c, Chunk(Fresh(Pow2(maxOrder)), Q_INIT))
    {
      hide PoolChunk.Valid, Fresh;
      c := nextChunk;
      nextChunk := nextChunk + 1;
      chunks := chunks[c := chunk];
      parents := parents[c := Q_INIT];
      assert Boxes() == old(Boxes())[c := Chunk(Fresh(Pow2(maxOrder)), Q_INIT)];
    }

    /** `add0`. */
    method ListFirst(c: nat, band: nat)
      requires Wired() && band < |lists|
      modifies this`lists
      ensures Wired() && |old(State()).lists| == |old(lists)| && State() == Listed(old(State()), c, band)
    {
      hide PoolChunk.Valid;
      lists := lists[band := [c] + lists[band]];
    }

    // ---------------------------------------------------------------- tokens, subpages and queues

    /** The buffer takes hold of what `h` says: `initBuf` and `initBufWithSubpage`. */
    method HandOut(c: nat, h: Handle) returns (x: nat)
      requires Wired() && h.bitmapIdx < 0x8000_0000
      modifies this`held, this`nextToken
      ensures Wired() && x == old(nextToken) && x !in old(held)
      ensures State() == Held(old(State()), c, h, x)
    {
      hide PoolChunk.Valid;
      x := nextToken;
      nextToken := nextToken + 1;
      held := held[x := Region(c, h)];
    }

    /** `allocateSubpage`, once it has its run. */
    method AddSubpage(c: nat, run: Run, k: nat, elems: nat)
      requires Wired() && c in chunks && k < |pools|
      modifies this`subs, this`pools
      ensures Wired() && AddedSub(old(State()), c, run, k, elems, State())
    {
      hide PoolChunk.Valid;
      var p := Place(c, run.offset);
      subs := subs[p := New(run, SizeOf(k), elems)];
      pools := pools[k := [p] + pools[k]];
    }

    /** `PoolSubpage::allocate` of the first pool member, full ones leaving the pool. */
    method TakeElement(k: nat) returns (x: nat)
      requires Wired() && k < |pools| && pools[k] != [] && pools[k][0] in subs
      requires NextAvail(subs[pools[k][0]]) < 0x8000_0000
      modifies this`subs, this`pools, this`held, this`nextToken
      ensures Wired() && x !in old(held) && TookElem(old(State()), k, x, State())
    {
      hide PoolChunk.Valid, Take, NextAvail, Subpage.NumAvail;
      var p := pools[k][0];
      var sub := subs[p];
      subs := subs[p := Take(sub)];
      if Take(sub).NumAvail() == 0 {
        pools := pools[k := pools[k][1..]];
      }
      x, nextToken := nextToken, nextToken + 1;
      held := held[x := Region(p.chunk, Handle(sub.run.offset, sub.run.pages, true, true, NextAvail(sub)))];
    }

    lemma FreeBytesOf(c: nat)
      requires Wired() && c in chunks
      ensures c in State().chunks && State().chunks[c].parent == parents[c]
      ensures chunks[c].freeBytes == State().FreeBytes(c)
      ensures State().ChunkSize() == chunkSize && |State().lists| == |lists|
    {
    }

    // ---------------------------------------------------------------- allocation from one chunk

    /** When only chunk `c` has changed, only its layout has. */
    twostate lemma OnlyTouched(c: nat)
      requires old(Wired()) && unchanged(this) && c in chunks && chunks[c].Valid()
      requires forall d | d in chunks && d != c :: unchanged(chunks[d])
      ensures Wired() && State() == WithLayout(old(State()), c, chunks[c].layout)
    {
      hide PoolChunk.Consistent;
      forall d | d in chunks ensures chunks[d].Valid() {
      }
      assert Boxes() == old(Boxes())[c := Chunk(chunks[c].layout, parents[c])];
    }

    lemma LayoutOf(c: nat)
      requires ChunksWired() && c in chunks
      ensures c in State().chunks && State().chunks[c].layout == chunks[c].layout
    {
    }

    lemma ParentIn(c: nat)
      requires Valid() && c in chunks
      ensures c in State().chunks && c in parents && parents[c] < |lists| == BANDS
    {
      hide Arena.Inv;
      ParentInRange(State(), c);
    }

    lemma DistinctChunks(c: nat)
      requires Wired()
      ensures forall d | d in chunks && c in chunks && d != c :: chunks[d] != chunks[c]
    {
    }

    /** `allocateRun` of chunk `c`, seen from the arena. */
    method TakeRunFrom(c: nat, runSize: nat) returns (r: Option<Handle>)
      requires Valid() && c in chunks
      requires ExactPages(Shr(runSize, pageShifts)) && Shr(runSize, pageShifts) <= Pow2(maxOrder)
      modifies chunks[c]
      ensures Wired()
      ensures r.None? ==>
        State() == old(State()) && forall g | g in chunks[c].layout.free :: g.pages < Shr(runSize, pageShifts)
      ensures r.Some? ==>
        && State() == WithLayout(old(State()), c, chunks[c].layout)
        && Grows(old(State()), c, chunks[c].layout, r.value.ToRun())
        && r.value.pages == Shr(runSize, pageShifts) && !r.value.subpage && r.value.Fits()
    {
      hide PoolChunk.Consistent, Arena.Inv, Served, Grows, Handle.Fits, Handle.ToRun, Boxes;
      DistinctChunks(c);
      ghost var s := State();
      ghost var f;
      LayoutOf(c);
      r, f := chunks[c].AllocateRun(runSize);
      if r.Some? {
        ServedByChunk(s, c, Shr(runSize, pageShifts), f, chunks[c].layout, r.value);
      }
      OnlyTouched(c);
      SameLayout(s, c);
    }

    /** `PoolChunk::allocate` of a normal size from chunk `c`, and the list it belongs in afterwards. */
    method AllocateNormalFrom(c: nat, k: nat) returns (r: Option<nat>, ghost m: ArenaRuns.Move)
      requires Valid() && c in chunks && SmallMaxSizeIdx(pageShifts) < k < NSizes(pageShifts, maxOrder)
      modifies this, chunks[c]
      ensures Valid() && chunks == old(chunks) && nextChunk == old(nextChunk)
      ensures r.None? ==> State() == old(State()) && NoRoom(State(), c, k)
      ensures r.Some? ==> Got(old(State()), c, k, r.value, m, State()) && !NoRoom(old(State()), c, k)
    {
      hide Wired, NoRoom, Arena.Inv, Got, SettledUp, Grows;
      ParentIn(c);
      ghost var s := State();
      var h, l := NormalRunOf(c, k);
      m := ArenaRuns.FromCache(0);
      if h.None? {
        return None, m;
      }
      var x := HandOutRun(c, h.value);
      m := ArenaRuns.Normal(c, l, h.value, x);
      NormalAllocated(s, c, k, l, h.value, x, State());
      NormalHadRoom(s, c, k, l, h.value.ToRun());
      r := Some(x);
    }

    /** The run to the buffer, the chunk to its list. */
    method HandOutRun(c: nat, h: Handle) returns (x: nat)
      requires Wired() && c in chunks && parents[c] < |lists| == BANDS && h.bitmapIdx < 0x8000_0000
      modifies this`held, this`nextToken, this`parents, this`lists
      ensures Wired() && x !in old(held) && SettledUp(Held(old(State()), c, h, x), c, State())
    {
      hide PoolChunk.Valid, SettledUp;
      x := HandOut(c, h);
      SettleUp(c);
    }

    method NormalRunOf(c: nat, k: nat) returns (h: Option<Handle>, ghost l: Layout)
      requires Valid() && c in chunks && SmallMaxSizeIdx(pageShifts) < k < NSizes(pageShifts, maxOrder)
      modifies chunks[c]
      ensures Wired()
      ensures h.None? ==> State() == old(State()) && NoRoom(State(), c, k)
      ensures h.Some? ==> GotRun(old(State()), c, SizeOf(k), l, h.value, State())
    {
      hide Pow2, SizeOf, NSizes, PoolChunk.Valid, ExactPages, Grows, Arena.Inv, WithLayout, NoRoom;
      ShapeOf();
      NormalRequest(pageShifts, maxOrder, k);
      h, l := RunOf(c, SizeOf(k));
      if h.None? {
        LayoutOf(c);
        NormalNoRoom(State(), c, k);
      }
    }

    /** `allocateRun` of chunk `c`, seen from the arena. */
    method RunOf(c: nat, runSize: nat) returns (h: Option<Handle>, ghost l: Layout)
      requires Valid() && c in chunks
      requires ExactPages(Shr(runSize, pageShifts)) && Shr(runSize, pageShifts) <= Pow2(maxOrder)
      modifies chunks[c]
      ensures Wired()
      ensures h.None? ==>
        State() == old(State()) && forall g | g in chunks[c].layout.free :: g.pages < Shr(runSize, pageShifts)
      ensures h.Some? ==> GotRun(old(State()), c, runSize, l, h.value, State())
    {
      h := TakeRunFrom(c, runSize);
      l := chunks[c].layout;
    }

    /** `PoolChunk::allocate` of a small size whose pool is empty. */
    method AllocateSmallFrom(c: nat, k: nat) returns (r: Option<nat>, ghost m: ArenaRuns.Move)
      requires Valid() && c in chunks && k < |pools| && pools[k] == []
      modifies this, chunks[c]
      ensures Valid() && chunks == old(chunks) && nextChunk == old(nextChunk)
      ensures r.None? ==> State() == old(State()) && NoRoom(State(), c, k)
      ensures r.Some? ==> Got(old(State()), c, k, r.value, m, State()) && !NoRoom(old(State()), c, k)
    {
      hide Wired, NoRoom, Arena.Inv, Got, SettledUp, AddedSub, TookElem, GotSubRun;
      ParentIn(c);
      ghost var s := State();
      var h, elems, l := SmallRunOf(c, k);
      m := ArenaRuns.FromCache(0);
      if h.None? {
        return None, m;
      }
      ghost var s0 := State();
      var x, s1, s2 := CarveSubpage(c, h.value.ToRun(), k, elems);
      m := ArenaRuns.Carved(c, l, h.value.ToRun(), k, elems, x);
      SmallAllocated(s, c, k, l, h.value, elems, x, s0, s1, s2, State());
      SubRunHadRoom(s, c, k, elems, l, h.value, s0);
      r := Some(x);
    }

    /** The subpage on its run, its first element taken, the chunk in its list. */
    method CarveSubpage(c: nat, run: Run, k: nat, elems: nat) returns (x: nat, ghost s1: Arena, ghost s2: Arena)
      requires Wired() && c in chunks && k < |pools| && parents[c] < |lists| == BANDS
      modifies this`subs, this`pools, this`held, this`nextToken, this`parents, this`lists
      ensures Wired() && x !in old(held)
      ensures AddedSub(old(State()), c, run, k, elems, s1) && TookElem(s1, k, x, s2) && SettledUp(s2, c, State())
    {
      hide PoolChunk.Valid, TookElem, SettledUp;
      AddSubpage(c, run, k, elems);
      s1 := State();
      x := TakeElement(k);
      s2 := State();
      SettleUp(c);
    }

    method SmallRunOf(c: nat, k: nat) returns (h: Option<Handle>, elems: nat, ghost l: Layout)
      requires Valid() && c in chunks && k < |pools|
      modifies chunks[c]
      ensures Wired()
      ensures h.None? ==> State() == old(State()) && NoRoom(State(), c, k)
      ensures h.Some? ==> GotSubRun(old(State()), c, k, elems, l, h.value, State())
    {
      hide NeedsPages, NoRoom, Pow2, SizeOf, PoolChunk.Valid, ExactPages, Grows, Arena.Inv, WithLayout;
      ghost var s := State();
      ghost var pages;
      var runSize: nat;
      ShapeOf();
      runSize, pages := CalculateRunSize(pageShifts, k);
      RunSizeIsNeeded(pageShifts, k, pages, runSize);
      SubpageRun(pageShifts, maxOrder, k, runSize, pages);
      assert State() == s;
      elems := runSize / SizeOf(k);
      h, l := RunOf(c, runSize);
      if h.None? {
        LayoutOf(c);
        SmallNoRoom(State(), c, k, pages);
      }
    }

    static lemma SubRunHadRoom(s: Arena, c: nat, k: nat, elems: nat, l: Layout, h: Handle, s0: Arena)
      requires s.Inv() && GotSubRun(s, c, k, elems, l, h, s0)
      ensures !NoRoom(s, c, k)
    {
      hide Arena.Inv, Grows, NeedsPages, NoRoom;
      SmallHadRoom(s, c, k, l, h.ToRun());
    }

    /** `PoolChunk::allocate`, then `PoolChunkList::allocate`'s check of the list. */
    method AllocateFrom(c: nat, k: nat) returns (r: Option<nat>)
      requires Valid() && c in chunks && k < NSizes(pageShifts, maxOrder) && (k < |pools| ==> pools[k] == [])
      modifies this, chunks[c]
      ensures Valid() && chunks == old(chunks) && nextChunk == old(nextChunk)
      ensures r.None? ==> State() == old(State()) && NoRoom(State(), c, k)
      ensures r.Some? ==> Granted(old(State()), k, r.value, State()) && InChunk(State(), r.value, c)
      ensures r.Some? ==> !NoRoom(old(State()), c, k)
    {
      hide NoRoom, InChunk, Arena.Inv, Got, Granted, PoolChunk.Valid;
      ghost var s := State();
      ghost var m;
      ShapeOf();
      if k <= SmallMaxSizeIdx(pageShifts) {
        r, m := AllocateSmallFrom(c, k);
      } else {
        r, m := AllocateNormalFrom(c, k);
      }
      if r.Some? {
        GotIsGranted(s, c, k, r.value, m, State());
      }
    }

    lemma ShapeOf()
      requires Valid()
      ensures |pools| == SmallMaxSizeIdx(pageShifts) + 1 && ValidConfig(pageShifts, maxOrder) && |lists| == BANDS
    {
    }

    /** `PoolChunkList::allocate`: the first chunk of the list with room, if there is one.  The limit on
        the request turns no such chunk away. */
    method AllocateInList(band: nat, k: nat) returns (r: Option<nat>, ghost c: nat)
      requires Valid() && band < |lists| == BANDS
      requires k < NSizes(pageShifts, maxOrder) && (k < |pools| ==> pools[k] == [])
      modifies this, Objects()
      ensures Valid() && chunks == old(chunks) && nextChunk == old(nextChunk)
      ensures r.None? ==> State() == old(State()) && Exhausted(State(), band, k)
      ensures r.Some? ==> Granted(old(State()), k, r.value, State())
      ensures r.Some? ==> InChunk(State(), r.value, c) && FirstWithRoom(old(State()), band, k, c)
    {
      hide Arena.Inv, Granted, InChunk, NoRoom, FirstWithRoom, PoolChunk.Valid, SizeOf;
      c := 0;
      ghost var s := State();
      if SizeOf(k) > MaxCapacity(chunkSize, band) {
        RefusedIsExhausted(s, band, k);
        return None, c;
      }
      var i := 0;
      while i < |lists[band]|
        invariant Valid() && chunks == old(chunks) && nextChunk == old(nextChunk) && State() == s && i <= |lists[band]|
        invariant forall j | 0 <= j < i :: NoRoom(s, lists[band][j], k)
      {
        ListedInChunks(State(), band, i);
        c := lists[band][i];
        r := AllocateFrom(lists[band][i], k);
        if r.Some? {
          ServedByList(s, band, k, c, i);
          return;
        }
        i := i + 1;
      }
      r := None;
    }

    /** The `n`-th list, those before it being exhausted. */
    method AllocateNext(band: nat, k: nat, ghost n: nat) returns (r: Option<nat>, ghost c: nat)
      requires Valid() && |lists| == BANDS && n < |ORDER| && band == ORDER[n]
      requires k < NSizes(pageShifts, maxOrder) && (k < |pools| ==> pools[k] == [])
      requires ExhaustedBefore(State(), k, n)
      modifies this, Objects()
      ensures Valid() && chunks == old(chunks) && nextChunk == old(nextChunk)
      ensures Asked(old(State()), k, n + 1, r, c, State())
    {
      hide Arena.Inv, Granted, InChunk, Exhausted, ExhaustedBefore, FirstWithRoom, Preferred, PoolChunk.Valid;
      ghost var s := State();
      r, c := AllocateInList(band, k);
      if r.None? {
        OneMoreExhausted(s, k, n);
      } else {
        ServedInOrder(s, k, c, n);
      }
    }

    /** The lists `allocateNormal` tries, in its order; q100 is not one of them. */
    method AllocateListed(k: nat) returns (r: Option<nat>, ghost c: nat)
      requires Valid() && k < NSizes(pageShifts, maxOrder) && (k < |pools| ==> pools[k] == [])
      modifies this, Objects()
      ensures Valid() && chunks == old(chunks) && nextChunk == old(nextChunk)
      ensures Asked(old(State()), k, |ORDER|, r, c, State())
    {
      ShapeOf();
      hide Arena.Inv, Granted, InChunk, Exhausted, Preferred, PoolChunk.Valid;
      assert ExhaustedBefore(State(), k, 0);
      hide ExhaustedBefore;
      r, c := AllocateNext(Q50, k, 0);
      if r.Some? {
        return;
      }
      r, c := AllocateNext(Q25, k, 1);
      if r.Some? {
        return;
      }
      r, c := AllocateNext(Q00, k, 2);
      if r.Some? {
        return;
      }
      r, c := AllocateNext(Q_INIT, k, 3);
      if r.Some? {
        return;
      }
      r, c := AllocateNext(Q75, k, 4);
    }

    lemma NothingListed(k: nat)
      requires Valid() && ExhaustedBefore(State(), k, |ORDER|)
      ensures forall d | d in chunks :: NoRoom(State(), d, k)
    {
      hide PoolChunk.Valid, Arena.Inv, NoRoom, ExhaustedBefore;
      NoChunkHasRoom(State(), k);
    }

    /** A new chunk always serves. */
    method AllocateFresh(k: nat) returns (x: nat, ghost c: nat)
      requires Valid() && k < NSizes(pageShifts, maxOrder) && (k < |pools| ==> pools[k] == [])
      modifies this
      ensures Valid() && fresh(Objects() - old(Objects()))
      ensures OneMore(chunks, old(chunks), old(nextChunk))
      ensures forall d | d in chunks && d !in old(chunks) :: fresh(chunks[d].memory)
      ensures Granted(old(State()), k, x, State()) && InChunk(State(), x, c) && c !in old(chunks)
    {
      ShapeOf();
      hide Arena.Inv, Granted, InChunk, AddedChunk, NoRoom, PoolChunk.Valid, Fresh;
      ghost var s := State();
      var chunk := NewChunk();
      c := chunk;
      ghost var s1 := State();
      NewChunkOperation(s, chunk, s1);
      NewChunkHasRoom(s1, chunk, k);
      var r := AllocateFrom(chunk, k);
      assert r.Some?;
      x := r.value;
      GrantedAfter(s, s1, k, x, State());
    }

    /** `allocateNormal`: the first chunk with room in the order of the lists, and a new chunk only when
        there is none. */
    method AllocateNormal(k: nat) returns (x: nat, ghost c: nat)
      requires Valid() && k < NSizes(pageShifts, maxOrder) && (k < |pools| ==> pools[k] == [])
      modifies this, Objects()
      ensures Valid() && fresh(Objects() - old(Objects()))
      ensures OneMore(chunks, old(chunks), old(nextChunk))
      ensures forall d | d in chunks && d !in old(chunks) :: fresh(chunks[d].memory)
      ensures Granted(old(State()), k, x, State()) && InChunk(State(), x, c)
      ensures c in old(chunks) ==> FirstChoice(old(State()), k, c) && !NoRoom(old(State()), c, k)
      ensures c !in old(chunks) ==> forall d | d in old(chunks) :: NoRoom(old(State()), d, k)
    {
      hide Arena.Inv, Granted, InChunk, Preferred, ExhaustedBefore, FirstWithRoom, PoolChunk.Valid;
      ghost var s := State();
      var r;
      r, c := AllocateListed(k);
      if r.Some? {
        x := r.value;
        PreferredInChunks(s, k, c);
        PreferredIs(s, k, c);
      } else {
        NothingListed(k);
        x, c := AllocateFresh(k);
      }
    }

    // ---------------------------------------------------------------- release

    /** `PoolChunk::free` of a run, seen from the arena. */
    method ReturnRunTo(c: nat, h: Handle) returns (ghost l: Layout)
      requires Wired() && c in chunks && h.Fits() && h.ToRun() in chunks[c].layout.live
      modifies chunks[c]
      ensures Wired() && GaveBack(old(State()), c, h, l, State())
    {
      hide PoolChunk.Consistent, Boxes, Layout.Valid, Conserved;
      DistinctChunks(c);
      LayoutOf(c);
      chunks[c].FreeRun(h);
      l := chunks[c].layout;
      OnlyTouched(c);
      LayoutOk(c);
    }

    lemma LayoutOk(c: nat)
      requires ChunksWired() && c in chunks
      ensures chunks[c].layout.Valid() && Conserved(chunks[c].layout) && chunks[c].layout.total == Pow2(maxOrder)
    {
    }

    /** The bit is clear and the hint set; a full subpage is back in its pool. */
    method GiveElement(x: nat)
      requires Wired() && x in held && held[x].handle.subpage && held[x].At() in subs
      requires ClassOf(subs[held[x].At()]) < |pools|
      modifies this`subs, this`pools, this`held
      ensures Wired() && GaveElem(old(State()), x, State())
    {
      hide PoolChunk.Valid, Give, ClassOf, Subpage.NumAvail;
      var p := held[x].At();
      var sub := subs[p];
      var k := ClassOf(sub);
      subs := subs[p := Give(sub, held[x].handle.bitmapIdx)];
      if sub.NumAvail() == 0 {
        pools := pools[k := [p] + pools[k]];
      }
      held := held - {x};
    }

    method DropSubpage(p: Place)
      requires Wired() && p in subs && ClassOf(subs[p]) < |pools|
      modifies this`subs, this`pools
      ensures Wired() && State() == Dropped(old(State()), p)
    {
      hide PoolChunk.Valid;
      var k := ClassOf(subs[p]);
      pools := pools[k := Without(pools[k], p)];
      subs := subs - {p};
    }

    /** `PoolSubpage::free`: false when the subpage goes. */
    method FreeElement(x: nat) returns (kept: bool)
      requires Valid() && ArenaOwners.Live(State(), x) && held[x].handle.subpage
      modifies this`subs, this`pools, this`held
      ensures Wired() && FreedElem(old(State()), x, kept, State())
    {
      hide PoolChunk.Valid, Arena.Core, ReturnElem, Give, Dropped, Releases;
      ghost var s := State();
      ElementOf(s, x);
      var p := held[x].At();
      var sub, i := subs[p], held[x].handle.bitmapIdx;
      GiveElement(x);
      ElementKept(s, x, State());
      kept := sub.NumAvail() == 0 || Give(sub, i).NumAvail() != sub.maxElems || |pools[ClassOf(sub)]| == 1;
      if !kept {
        DropSubpage(p);
      }
    }

    method Forget(x: nat)
      requires Wired()
      modifies this`held
      ensures Wired() && State() == Forgotten(old(State()), x)
    {
      hide PoolChunk.Valid;
      held := held - {x};
    }

    /** `PoolChunk::free`. */
    method TakeBack(x: nat) returns (ghost l: Layout)
      requires Valid() && ArenaOwners.Live(State(), x) && held[x].chunk in chunks
      modifies this`subs, this`pools, this`held, chunks[held[x].chunk]
      ensures Wired() && IsFreed(old(State()), x, l, State())
      ensures old(held)[x].chunk in chunks && parents[old(held)[x].chunk] < |lists| == BANDS
    {
      hide PoolChunk.Valid, Arena.Inv, GaveBack, FreedElem, IsFreed, Forgotten;
      ghost var s := State();
      var c, h := held[x].chunk, held[x].handle;
      HeldHandle(s, x);
      ParentInRange(s, c);
      if h.subpage {
        var kept := FreeElement(x);
        ghost var s1 := State();
        if kept {
          l := chunks[c].layout;
          FreedKept(s, x, l, s1);
        } else {
          l := ReturnRunTo(c, h);
          FreedWithRun(s, x, s1, l, State());
        }
      } else {
        l := ReturnRunTo(c, h);
        ghost var s1 := State();
        Forget(x);
        FreedRun(s, x, s1, l, State());
      }
    }

    lemma HeldIn(x: nat)
      requires Valid() && ArenaOwners.Live(State(), x)
      ensures x in held && held[x].chunk in chunks
    {
      hide Arena.Inv;
      HeldHandle(State(), x);
    }

    /** `freeChunk`: the region goes back to its chunk, the chunk to its list or away. */
    method FreeChunk(x: nat)
      requires Valid() && ArenaOwners.Live(State(), x)
      modifies this, Objects()
      ensures Valid() && Among(chunks, old(chunks)) && nextChunk == old(nextChunk)
      ensures queues == old(queues) && cacheAllocations == old(cacheAllocations) && allocations == old(allocations)
      ensures ArenaOwners.Operation(old(State()), {}, {x}, State())
    {
      hide Wired, Arena.Inv, IsFreed, SettledDown, ArenaOwners.Operation;
      HeldIn(x);
      assert chunks[held[x].chunk] in Objects();
      ghost var s := State();
      var c := held[x].chunk;
      ghost var l := TakeBack(x);
      ghost var s1 := State();
      SettleDown(c);
      FreedSettled(s, x, l, s1, State());
    }

    // ---------------------------------------------------------------- the thread cache

    method Pop(k: nat) returns (x: nat)
      requires Wired() && k < |queues| && queues[k] != []
      modifies this`queues
      ensures Wired() && Popped(old(State()), k, x, State())
    {
      hide PoolChunk.Valid;
      x := queues[k][0];
      queues := queues[k := queues[k][1..]];
    }

    method Push(k: nat, x: nat)
      requires Wired() && k < |queues|
      modifies this`queues
      ensures Wired() && k < |old(State()).queues| && State() == Enqueue(old(State()), k, x)
    {
      hide PoolChunk.Valid;
      queues := queues[k := queues[k] + [x]];
    }

    /** A queue after its `n` oldest entries have gone, or all if there are fewer. */
    static function WithoutFirst(q: seq<nat>, n: int): seq<nat> {
      if n <= 0 then q else if n < |q| then q[n..] else []
    }

    /** What trimming leaves of a queue: its cache gives up as many entries as it was not asked for. */
    static function Trimmed(q: seq<nat>, size: nat, reused: nat): seq<nat> {
      WithoutFirst(q, size as int - reused as int)
    }

    /** What is left of a queue is its youngest entries: all of them if as many came back as it holds,
        else as many fewer as it was not asked for. */
    static lemma TrimmedIs(q: seq<nat>, size: nat, reused: nat)
      ensures var r := Trimmed(q, size, reused);
        && |r| <= |q| && r == q[|q| - |r|..]
        && (size <= reused ==> r == q)
        && (reused < size ==> |r| == if size - reused <= |q| then |q| - (size - reused) else 0)
    {
    }

    /** `freeEntry` of the oldest entry. */
    method FreeEntry(k: nat)
      requires Valid() && k < |queues| && queues[k] != []
      modifies this, Objects()
      ensures Valid() && Among(chunks, old(chunks)) && nextChunk == old(nextChunk)
      ensures queues == old(queues)[k := old(queues)[k][1..]]
      ensures cacheAllocations == old(cacheAllocations) && allocations == old(allocations)
      ensures ArenaOwners.Operation(old(State()), {}, {}, State())
    {
      hide PoolChunk.Valid, Arena.Inv, ArenaOwners.Operation;
      ghost var s := State();
      var x := Pop(k);
      ghost var s1 := State();
      PoppedEntry(s, k, x, s1);
      FreeChunk(x);
      PopThenFree(s, x, s1, State());
    }

    /** `MemoryRegionCache::free`. */
    method FreeEntries(k: nat, freeNum: nat)
      requires Valid() && k < |queues|
      modifies this, Objects()
      ensures Valid() && Among(chunks, old(chunks)) && nextChunk == old(nextChunk)
      ensures queues == old(queues)[k := WithoutFirst(old(queues)[k], freeNum)]
      ensures cacheAllocations == old(cacheAllocations) && allocations == old(allocations)
      ensures ArenaOwners.Operation(old(State()), {}, {}, State())
    {
      hide PoolChunk.Valid, Arena.Inv, ArenaOwners.Operation;
      ghost var s := State();
      ArenaOwners.Nothing(s);
      var numFreed := 0;
      while queues[k] != [] && numFreed < freeNum
        invariant Valid() && k < |queues| && Among(chunks, old(chunks)) && nextChunk == old(nextChunk)
        invariant ArenaOwners.Operation(s, {}, {}, State())
        invariant numFreed <= freeNum && numFreed <= |old(queues)[k]|
        invariant queues == old(queues)[k := old(queues)[k][numFreed..]]
        invariant cacheAllocations == old(cacheAllocations) && allocations == old(allocations)
        decreases freeNum - numFreed
      {
        ghost var s1 := State();
        FreeEntry(k);
        Quietly(s, s1, State());
        numFreed := numFreed + 1;
      }
    }

    /** `MemoryRegionCache::trim`. */
    method TrimQueue(k: nat)
      requires Valid() && k < |queues|
      modifies this, Objects()
      ensures Valid() && Among(chunks, old(chunks)) && nextChunk == old(nextChunk)
      ensures queues == old(queues)[k := Trimmed(old(queues)[k], cacheSizes[k], old(cacheAllocations)[k])]
      ensures cacheAllocations == old(cacheAllocations)[k := 0] && allocations == old(allocations)
      ensures ArenaOwners.Operation(old(State()), {}, {}, State())
    {
      hide PoolChunk.Valid, Arena.Inv, ArenaOwners.Operation;
      ghost var s := State();
      ArenaOwners.Nothing(s);
      var toFreeNum := cacheSizes[k] as int - cacheAllocations[k] as int;
      cacheAllocations := cacheAllocations[k := 0];
      assert State() == s;
      if toFreeNum > 0 {
        FreeEntries(k, toFreeNum);
      }
    }

    /** `PoolThreadCache::trim`. */
    method Trim()
      requires Valid()
      modifies this, Objects()
      ensures Valid() && Among(chunks, old(chunks)) && nextChunk == old(nextChunk)
      ensures forall k | 0 <= k < |queues| :: cacheAllocations[k] == 0
      ensures forall k | 0 <= k < |queues| ::
                queues[k] == Trimmed(old(queues)[k], cacheSizes[k], old(cacheAllocations)[k])
      ensures allocations == old(allocations)
      ensures ArenaOwners.Operation(old(State()), {}, {}, State())
    {
      hide PoolChunk.Valid, Arena.Inv, ArenaOwners.Operation;
      ghost var s := State();
      ArenaOwners.Nothing(s);
      var k := 0;
      while k < |cacheSizes|
        invariant Valid() && Among(chunks, old(chunks)) && nextChunk == old(nextChunk)
        invariant allocations == old(allocations)
        invariant k <= |cacheSizes| && forall j | 0 <= j < k :: cacheAllocations[j] == 0
        invariant forall j | 0 <= j < k :: queues[j] == Trimmed(old(queues)[j], cacheSizes[j], old(cacheAllocations)[j])
        invariant forall j | k <= j < |queues| :: queues[j] == old(queues)[j]
        invariant forall j | k <= j < |queues| :: cacheAllocations[j] == old(cacheAllocations)[j]
        invariant ArenaOwners.Operation(s, {}, {}, State())
      {
        ghost var s1 := State();
        TrimQueue(k);
        Quietly(s, s1, State());
        k := k + 1;
      }
    }

    /** The queues after a cache of class `k` was asked: its oldest entry, if any, has gone ... */
    function Reused(k: nat): seq<seq<nat>>
      requires k < |queues|
      reads this`queues
    {
      if queues[k] == [] then queues else queues[k := queues[k][1..]]
    }

    /** ... and is counted as a hit. */
    function Counted(k: nat): seq<nat>
      requires k < |queues| == |cacheAllocations|
      reads this`queues, this`cacheAllocations
    {
      if queues[k] == [] then cacheAllocations else cacheAllocations[k := cacheAllocations[k] + 1]
    }

    /** `MemoryRegionCache::allocate`. */
    method Reuse(k: nat) returns (r: Option<nat>)
      requires Valid() && k < |queues|
      modifies this`queues, this`cacheAllocations
      ensures Valid()
      ensures r.None? <==> old(queues[k]) == []
      ensures queues == old(Reused(k)) && cacheAllocations == old(Counted(k))
      ensures r.None? ==> State() == old(State())
      ensures r.Some? ==> r.value == old(queues[k])[0]
      ensures r.Some? ==> Granted(old(State()), k, r.value, State())
    {
      hide PoolChunk.Valid, Arena.Inv, Granted;
      if queues[k] == [] {
        return None;
      }
      ghost var s := State();
      var x := Pop(k);
      PoppedEntry(s, k, x, State());
      CountReuse(k);
      r := Some(x);
    }

    method CountReuse(k: nat)
      requires Wired() && k < |cacheAllocations|
      modifies this`cacheAllocations
      ensures Wired() && State() == old(State())
      ensures cacheAllocations == old(cacheAllocations)[k := old(cacheAllocations)[k] + 1]
    {
      hide PoolChunk.Valid;
      cacheAllocations := cacheAllocations[k := cacheAllocations[k] + 1];
    }

    /** There is a region cache for class `k`. */
    predicate Caches(k: nat) {
      k < |cacheSizes| && cacheSizes[k] != 0
    }

    /** A region of class `k` waits in it. */
    predicate HasCached(k: nat)
      reads this`queues
    {
      Caches(k) && k < |queues| && queues[k] != []
    }

    /** `PoolThreadCache::allocate`: reuse the oldest region of the class, and sweep now and then. */
    method CacheAllocate(k: nat) returns (r: Option<nat>)
      requires Valid()
      modifies this, Objects()
      ensures Valid() && Among(chunks, old(chunks)) && nextChunk == old(nextChunk)
      ensures r.Some? <==> old(HasCached(k))
      ensures !Caches(k) ==>
        queues == old(queues) && cacheAllocations == old(cacheAllocations) && allocations == old(allocations)
      ensures Caches(k) && old(allocations) + 1 < sweepThreshold ==>
        queues == old(Reused(k)) && cacheAllocations == old(Counted(k)) && allocations == old(allocations) + 1
      ensures Caches(k) && sweepThreshold <= old(allocations) + 1 ==>
        allocations == 0 && Swept(old(Reused(k)), old(Counted(k)))
      ensures r.Some? ==> r.value == old(queues[k][0])
      ensures r.Some? && old(allocations) + 1 < sweepThreshold ==>
        && queues == old(queues[k := queues[k][1..]])
        && cacheAllocations == old(cacheAllocations[k := cacheAllocations[k] + 1])
      ensures r.None? && old(allocations) + 1 < sweepThreshold ==>
        queues == old(queues) && cacheAllocations == old(cacheAllocations)
      ensures r.None? ==> ArenaOwners.Operation(old(State()), {}, {}, State())
      ensures r.Some? ==> Granted(old(State()), k, r.value, State())
    {
      hide PoolChunk.Valid, Arena.Inv, Granted, ArenaOwners.Operation;
      ghost var s := State();
      ArenaOwners.Nothing(s);
      if !Caches(k) {
        return None;
      }
      r := Reuse(k);
      ghost var s1 := State();
      Sweep();
      if r.Some? {
        GrantedBefore(s, k, r.value, s1, State());
      }
    }

    /** Every cache is trimmed and starts counting again. */
    predicate Swept(was: seq<seq<nat>>, reused: seq<nat>)
      reads this`queues, this`cacheAllocations
    {
      && |was| == |queues| == |reused| == |cacheSizes| == |cacheAllocations|
      && (forall k | 0 <= k < |queues| :: queues[k] == Trimmed(was[k], cacheSizes[k], reused[k]))
      && (forall k | 0 <= k < |queues| :: cacheAllocations[k] == 0)
    }

    method Sweep()
      requires Valid()
      modifies this, Objects()
      ensures Valid() && Among(chunks, old(chunks)) && nextChunk == old(nextChunk)
      ensures old(allocations) + 1 < sweepThreshold ==>
        queues == old(queues) && cacheAllocations == old(cacheAllocations) && allocations == old(allocations) + 1
      ensures sweepThreshold <= old(allocations) + 1 ==> allocations == 0 && Swept(old(queues), old(cacheAllocations))
      ensures ArenaOwners.Operation(old(State()), {}, {}, State())
    {
      hide PoolChunk.Valid, Arena.Inv, ArenaOwners.Operation;
      ghost var s := State();
      ArenaOwners.Nothing(s);
      allocations := allocations + 1;
      assert State() == s;
      if allocations >= sweepThreshold {
        allocations := 0;
        assert State() == s;
        Trim();
      }
    }

    // ---------------------------------------------------------------- the arena's own operations

    /** An element of the first pool member. */
    method AllocatePooled(k: nat) returns (x: nat)
      requires Valid() && k < |pools| && pools[k] != []
      modifies this`subs, this`pools, this`held, this`nextToken
      ensures Valid() && Granted(old(State()), k, x, State())
    {
      hide PoolChunk.Valid, Arena.Inv, Granted, TookElem, NextAvail;
      ghost var s := State();
      PoolHead(s, k);
      x := TakeElement(k);
      PooledGranted(s, k, x, State());
    }

    lemma IdsBelow()
      requires Valid()
      ensures forall d | d in chunks :: d < nextChunk
    {
    }

    /** `tcacheAllocateSmall` past the cache: from the pool, else from a chunk. */
    method PoolOrChunk(k: nat) returns (x: nat)
      requires Valid() && k < |pools| && k < NSizes(pageShifts, maxOrder)
      modifies this, Objects()
      ensures Valid() && fresh(Objects() - old(Objects()))
      ensures OneMore(chunks, old(chunks), old(nextChunk))
      ensures forall d | d in chunks && d !in old(chunks) :: fresh(chunks[d].memory)
      ensures Granted(old(State()), k, x, State())
    {
      hide PoolChunk.Valid, Arena.Inv, Granted, Preferred, ExhaustedBefore, InChunk;
      if pools[k] != [] {
        x := AllocatePooled(k);
      } else {
        ghost var c;
        x, c := AllocateNormal(k);
      }
    }

    /** `tcacheAllocateSmall`: the cache, else the pool, else a chunk. */
    method AllocateSmall(k: nat) returns (x: nat)
      requires Valid() && k < |pools| && k < NSizes(pageShifts, maxOrder)
      modifies this, Objects()
      ensures Valid() && fresh(Objects() - old(Objects()))
      ensures OneMore(chunks, old(chunks), old(nextChunk))
      ensures forall d | d in chunks && d !in old(chunks) :: fresh(chunks[d].memory)
      ensures old(HasCached(k)) ==> x == old(queues[k][0])
      ensures Granted(old(State()), k, x, State())
    {
      ghost var s, was, next := State(), chunks, nextChunk;
      ShapeOf();
      IdsBelow();
      hide Valid, OneMore, Reused, Counted, Swept, Granted, ArenaOwners.Operation;
      var r := CacheAllocate(k);
      OnlyFewer(chunks, was, next);
      if r.Some? {
        return r.value;
      }
      ghost var s1, mid := State(), chunks;
      ShapeOf();
      x := PoolOrChunk(k);
      GrantedAfter(s, s1, k, x, State());
      MoreAfterFewer(chunks, mid, was, next);
    }

    /** `tcacheAllocateNormal`: the cache, else a chunk. */
    method AllocateLarge(k: nat) returns (x: nat)
      requires Valid() && |pools| <= k < NSizes(pageShifts, maxOrder)
      modifies this, Objects()
      ensures Valid() && fresh(Objects() - old(Objects()))
      ensures OneMore(chunks, old(chunks), old(nextChunk))
      ensures forall d | d in chunks && d !in old(chunks) :: fresh(chunks[d].memory)
      ensures old(HasCached(k)) ==> x == old(queues[k][0])
      ensures Granted(old(State()), k, x, State())
    {
      ghost var s, was, next := State(), chunks, nextChunk;
      ShapeOf();
      IdsBelow();
      hide Valid, OneMore, Reused, Counted, Swept, Granted, ArenaOwners.Operation, Preferred, ExhaustedBefore, InChunk;
      var r := CacheAllocate(k);
      OnlyFewer(chunks, was, next);
      if r.Some? {
        return r.value;
      }
      ghost var s1, mid, c := State(), chunks, 0;
      ShapeOf();
      x, c := AllocateNormal(k);
      GrantedAfter(s, s1, k, x, State());
      MoreAfterFewer(chunks, mid, was, next);
    }

    /** `PoolArena::allocate`.  Every request up to the chunk size gets a region of the least class that
        holds it, apart from every other live buffer's; larger requests are not pooled. */
    method Allocate(reqCapacity: nat) returns (r: Option<nat>)
      requires Valid()
      modifies this, Objects()
      ensures Valid() && fresh(Objects() - old(Objects()))
      ensures OneMore(chunks, old(chunks), old(nextChunk))
      ensures forall d | d in chunks && d !in old(chunks) :: fresh(chunks[d].memory)
      ensures r.None? <==> chunkSize < reqCapacity
      ensures r.None? ==> State() == old(State())
      ensures r.Some? && old(HasCached(LeastClass(QUANTUM, reqCapacity))) ==>
        r.value == old(queues[LeastClass(QUANTUM, reqCapacity)][0])
      ensures r.Some? ==> Granted(old(State()), LeastClass(QUANTUM, reqCapacity), r.value, State())
    {
      hide PoolChunk.Valid, Arena.Inv, Granted, LeastClass;
      ShapeOf();
      RequestClass(pageShifts, maxOrder, reqCapacity);
      var sizeIdx := LeastClass(QUANTUM, reqCapacity);
      if sizeIdx <= SmallMaxSizeIdx(pageShifts) {
        var x := AllocateSmall(sizeIdx);
        r := Some(x);
      } else if sizeIdx < NSizes(pageShifts, maxOrder) {
        var x := AllocateLarge(sizeIdx);
        r := Some(x);
      } else {
        r := None;
      }
    }

    /** What a buffer's `m_maxLength` says. */
    function MaxLength(x: nat): nat
      requires x in held && (held[x].handle.subpage ==> held[x].At() in subs)
      reads this`held, this`subs
    {
      if held[x].handle.subpage then subs[held[x].At()].elemSize else Shl(held[x].handle.pages, pageShifts)
    }

    /** Where in its chunk a buffer's region begins: the offset of `initBuf` and `initBufWithSubpage`. */
    function Offset(x: nat): nat
      requires x in held && (held[x].handle.subpage ==> held[x].At() in subs)
      reads this`held, this`subs
    {
      Shl(held[x].handle.runOffset, pageShifts)
      + if held[x].handle.subpage then held[x].handle.bitmapIdx * subs[held[x].At()].elemSize else 0
    }

    lemma RegionIs(x: nat)
      requires Valid() && x in held
      ensures State().LiveRegion(held[x]) && held[x].chunk in chunks
      ensures held[x].handle.subpage ==> held[x].At() in subs
      ensures ArenaSafety.RegionBytes(State(), held[x]) == ArenaSafety.Bytes(Offset(x), Offset(x) + MaxLength(x))
    {
      hide PoolChunk.Valid, Arena.SubsOk, Arena.Exclusive, Arena.NoLeak, Arena.PoolsOk, Arena.PoolsComplete,
        Arena.QueuesOk, Arena.ChunksOk, Arena.ListsShape, Arena.ListsBounds, Arena.OneIdle;
      assert State().LiveRegion(held[x]);
    }

    /** Each chunk has the memory its size calls for. */
    lemma MemoryFits()
      requires ChunksWired()
      ensures State().chunks.Keys == chunks.Keys && State().ChunkSize() == chunkSize
      ensures forall c | c in chunks :: chunks[c].memory.Length == chunkSize
    {
    }

    /** `PoolArena::free`: into the cache of its class if there is one, else back to its chunk. */
    method Free(x: nat)
      requires Valid() && ArenaOwners.Live(State(), x)
      modifies this, Objects()
      ensures Valid() && Among(chunks, old(chunks)) && nextChunk == old(nextChunk)
      ensures forall k: nat | Caches(k) && OfClass(old(State()), x, k) ::
                CachedAgain(old(State()), x, k, State()) && queues == old(queues)[k := old(queues)[k] + [x]]
      ensures (forall k: nat | Caches(k) :: !OfClass(old(State()), x, k)) ==> queues == old(queues)
      ensures ArenaOwners.Operation(old(State()), {}, {x}, State())
    {
      hide PoolChunk.Valid, Arena.Inv, ArenaOwners.Operation;
      ghost var s := State();
      CapacityClass(s, x);
      var sizeIdx := LeastClass(QUANTUM, MaxLength(x));
      if Caches(sizeIdx) {
        Push(sizeIdx, x);
        CachedOperation(s, sizeIdx, x, State());
      } else {
        FreeChunk(x);
      }
    }

    /** `PoolArena::reallocate`, less the copy of the bytes: a region of the new size for the old one.
        The old region is not given up before the new one is there. */
    method Reallocate(x: nat, oldCapacity: nat, newCapacity: nat) returns (y: Option<nat>)
      requires Valid() && ArenaOwners.Live(State(), x)
      modifies this, Objects()
      ensures Valid() && fresh(Objects() - old(Objects()))
      ensures OneMore(chunks, old(chunks), old(nextChunk))
      ensures forall d | d in chunks && d !in old(chunks) :: fresh(chunks[d].memory)
      ensures oldCapacity == newCapacity ==> y == Some(x) && State() == old(State())
      ensures oldCapacity != newCapacity ==> (y.None? <==> chunkSize < newCapacity)
      ensures y.None? ==> ArenaOwners.Operation(old(State()), {}, {x}, State()) && queues == old(queues)
      ensures y.Some? && oldCapacity != newCapacity ==> OfClass(State(), y.value, LeastClass(QUANTUM, newCapacity))
      ensures y.Some? && oldCapacity != newCapacity ==>
        y.value != x && ArenaOwners.Operation(old(State()), {y.value}, {x}, State())
    {
      if oldCapacity == newCapacity {
        return Some(x);
      }
      y := Exchange(x, newCapacity);
    }

    method Exchange(x: nat, newCapacity: nat) returns (y: Option<nat>)
      requires Valid() && ArenaOwners.Live(State(), x)
      modifies this, Objects()
      ensures Valid() && fresh(Objects() - old(Objects()))
      ensures OneMore(chunks, old(chunks), old(nextChunk))
      ensures forall d | d in chunks && d !in old(chunks) :: fresh(chunks[d].memory)
      ensures y.None? <==> chunkSize < newCapacity
      ensures y.None? ==> ArenaOwners.Operation(old(State()), {}, {x}, State()) && queues == old(queues)
      ensures y.Some? ==> OfClass(State(), y.value, LeastClass(QUANTUM, newCapacity))
      ensures y.Some? ==> y.value != x && ArenaOwners.Operation(old(State()), {y.value}, {x}, State())
    {
      hide OfClass, PoolChunk.Valid, Arena.Inv, ArenaOwners.Operation, ArenaOwners.Live, LeastClass;
      ghost var s := State();
      y := Allocate(newCapacity);
      ghost var s1 := State();
      if y.Some? {
        StillLive(s, LeastClass(QUANTUM, newCapacity), y.value, s1, x);
        Free(x);
        Exchanged(s, y.value, s1, x, State());
        GrantedKept(s, LeastClass(QUANTUM, newCapacity), y.value, s1, x, State());
      } else {
        // a buffer with memory of its own has no cache to give to
        FreeChunk(x);
      }
    }
  }
}
