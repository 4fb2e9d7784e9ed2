/** What the arena invariant means for memory: held regions never share a byte. */
module ArenaSafety {
  import opened Powers
  import opened Runs
  import opened ArenaState

  /** Bytes [start, end) of a chunk. */
  datatype Bytes = Bytes(start: int, end: int)

  predicate DisjointBytes(a: Bytes, b: Bytes) {
    a.end <= b.start || b.end <= a.start
  }

  function RunBytes(pageShifts: nat, r: Run): Bytes {
    Bytes(Shl(r.offset, pageShifts), Shl(r.End(), pageShifts))
  }

  /** The offset and capacity `initBuf` and `initBufWithSubpage` give a buffer. */
  function RegionBytes(s: Arena, r: Region): Bytes
    requires r.handle.subpage ==> r.At() in s.subs
  {
    var start := Shl(r.handle.runOffset, s.pageShifts);
    if r.handle.subpage then
      var elemSize := s.subs[r.At()].elemSize;
      Bytes(start + r.handle.bitmapIdx * elemSize, start + r.handle.bitmapIdx * elemSize + elemSize)
    else
      Bytes(start, start + Shl(r.handle.pages, s.pageShifts))
  }

  lemma RunsApart(pageShifts: nat, a: Run, b: Run)
    requires !a.Overlaps(b) && 0 < a.pages && 0 < b.pages
    ensures DisjointBytes(RunBytes(pageShifts, a), RunBytes(pageShifts, b))
  {
    ShlOrder(a.End(), b.offset, pageShifts);
    ShlOrder(b.End(), a.offset, pageShifts);
  }

  /** An element lies within its run. */
  lemma WithinRun(s: Arena, r: Region)
    requires s.SubsOk() && s.LiveRegion(r)
    ensures RunBytes(s.pageShifts, r.handle.ToRun()).start <= RegionBytes(s, r).start
    ensures RegionBytes(s, r).end <= RunBytes(s.pageShifts, r.handle.ToRun()).end
    ensures r.chunk in s.chunks && r.handle.ToRun() in s.chunks[r.chunk].layout.live
  {
    ShlAdd(r.handle.runOffset, r.handle.pages, s.pageShifts);
    if r.handle.subpage {
      var sub := s.subs[r.At()];
      assert s.SubOk(sub);
      Fits(r.handle.bitmapIdx, sub.maxElems, sub.elemSize);
    }
  }

  lemma Fits(i: nat, n: nat, size: nat)
    requires i < n
    ensures 0 <= i * size && i * size + size <= n * size
  {
    ScaleOrder(i + 1, n, size);
    assert (i + 1) * size == i * size + size;
  }

  lemma ElementsApart(i: nat, j: nat, size: nat)
    requires i != j
    ensures i * size + size <= j * size || j * size + size <= i * size
  {
    if i < j { Fits(i, j, size); } else { Fits(j, i, size); }
  }

  /** Any two tokens of a chunk, live or cached, whole runs or elements, occupy disjoint bytes. */
  lemma HeldRegionsDisjoint(s: Arena, x: nat, y: nat)
    requires s.Core() && x in s.held && y in s.held && x != y && s.held[x].chunk == s.held[y].chunk
    ensures DisjointBytes(RegionBytes(s, s.held[x]), RegionBytes(s, s.held[y]))
  {
    var a, b := s.held[x], s.held[y];
    WithinRun(s, a);
    WithinRun(s, b);
    if a.handle.ToRun() == b.handle.ToRun() {
      SameRun(s, a, b);
    } else {
      LiveRunsApart(s.chunks[a.chunk].layout, a.handle.ToRun(), b.handle.ToRun());
      RunsApart(s.pageShifts, a.handle.ToRun(), b.handle.ToRun());
    }
  }

  lemma LiveRunsApart(l: Layout, a: Run, b: Run)
    requires l.Tiled() && a in l.live && b in l.live && a != b
    ensures !a.Overlaps(b) && 0 < a.pages && 0 < b.pages
  {
  }

  lemma SameRun(s: Arena, a: Region, b: Region)
    requires s.LiveRegion(a) && s.LiveRegion(b) && a.chunk == b.chunk && a.handle.ToRun() == b.handle.ToRun()
    requires a.ToUnit() != b.ToUnit()
    ensures DisjointBytes(RegionBytes(s, a), RegionBytes(s, b))
  {
    assert a.At() == b.At();
    ElementsApart(a.handle.bitmapIdx, b.handle.bitmapIdx, s.subs[a.At()].elemSize);
  }

  /** ... and inside the chunk. */
  lemma HeldRegionInChunk(s: Arena, x: nat)
    requires s.Core() && x in s.held
    ensures 0 <= RegionBytes(s, s.held[x]).start <= RegionBytes(s, s.held[x]).end <= s.ChunkSize()
  {
    var a := s.held[x];
    WithinRun(s, a);
    var r, l := a.handle.ToRun(), s.chunks[a.chunk].layout;
    assert s.ChunkOk(l) && r in l.free + l.live;
    ShlOrder(0, r.offset, s.pageShifts);
    ShlOrder(r.End(), l.total, s.pageShifts);
    ShlZero(s.pageShifts);
    ShlOrder(0, a.handle.pages, s.pageShifts);
  }

  lemma {:induction false} ShlZero(k: nat)
    ensures Shl(0, k) == 0
  {
    if k > 0 { ShlZero(k - 1); }
  }

  /** A chunk that a token points into is not wholly free, so it is never the one destroyed. */
  lemma HeldChunkInUse(s: Arena, x: nat)
    requires s.Core() && x in s.held
    ensures s.held[x].chunk in s.chunks && s.chunks[s.held[x].chunk].layout.live != {}
    ensures s.FreeBytes(s.held[x].chunk) < s.ChunkSize()
  {
    WithinRun(s, s.held[x]);
    LiveCosts(s, s.held[x].chunk);
  }

  lemma LiveCosts(s: Arena, c: nat)
    requires s.ChunksOk() && c in s.chunks
    ensures s.chunks[c].layout.live != {} <==> s.FreeBytes(c) < s.ChunkSize()
    ensures 0 <= s.FreeBytes(c) <= s.ChunkSize()
  {
    var l := s.chunks[c].layout;
    assert s.ChunkOk(l);
    assert forall r | r in l.live :: r in l.free + l.live;
    ShlOrder(Pages(l.free), l.total, s.pageShifts);
    ShlOrder(l.total, Pages(l.free), s.pageShifts);
    ShlOrder(0, Pages(l.free), s.pageShifts);
    ShlZero(s.pageShifts);
    assert Pages({}) == 0;
  }
}
