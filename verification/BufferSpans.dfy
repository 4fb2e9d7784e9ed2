/** The regions of the arena as stretches of the chunks' memory. */
module BufferSpans {
  import opened Basics
  import opened ArenaState
  import opened ArenaSafety
  import opened ArenaOwners

  /** The memory of each chunk. */
  type Memory = map<nat, array<Byte>>

  datatype Span = Span(memory: array<Byte>, offset: int, maxLength: int) {
    predicate Fits() {
      0 <= offset && 0 <= maxLength && offset + maxLength <= memory.Length
    }
  }

  /** No byte in common. */
  predicate Separate(a: Span, b: Span) {
    a.memory != b.memory || a.offset + a.maxLength <= b.offset || b.offset + b.maxLength <= a.offset
  }

  /** Every chunk has its own memory, as large as the chunk. */
  ghost predicate Backed(s: Arena, mem: Memory) {
    && mem.Keys == s.chunks.Keys
    && (forall c | c in mem :: mem[c].Length == s.ChunkSize())
    && (forall c, d | c in mem && d in mem && c != d :: mem[c] != mem[d])
  }

  /** A chunk keeps its memory. */
  ghost predicate MemKept(mem: Memory, mem': Memory) {
    forall c | c in mem && c in mem' :: mem'[c] == mem[c]
  }

  /** The stretch of memory that token `x` stands for. */
  ghost predicate IsSpan(s: Arena, mem: Memory, x: nat, a: Span) {
    && x in s.held && s.LiveRegion(s.held[x]) && s.held[x].chunk in mem
    && a.memory == mem[s.held[x].chunk]
    && a.offset == RegionBytes(s, s.held[x]).start
    && a.offset + a.maxLength == RegionBytes(s, s.held[x]).end
  }

  ghost predicate OfSize(s: Arena, x: nat, size: int) {
    x in s.held && s.NormCapacity(s.held[x]) == size
  }

  lemma SpanSize(s: Arena, mem: Memory, x: nat, a: Span)
    requires IsSpan(s, mem, x, a)
    ensures OfSize(s, x, a.maxLength)
  {
  }

  lemma SpansSeparate(s: Arena, mem: Memory, x: nat, a: Span, y: nat, b: Span)
    requires s.Inv() && Backed(s, mem) && x != y && IsSpan(s, mem, x, a) && IsSpan(s, mem, y, b)
    ensures Separate(a, b)
  {
    hide Arena.SubsOk, Arena.HeldOk, Arena.Exclusive, Arena.NoLeak, Arena.PoolsOk, Arena.PoolsComplete, Arena.QueuesOk,
      Arena.ChunksOk, Arena.ListsShape, Arena.ListsBounds, Arena.OneIdle, RegionBytes;
    if s.held[x].chunk == s.held[y].chunk {
      HeldRegionsDisjoint(s, x, y);
    }
  }

  lemma SpanFits(s: Arena, mem: Memory, x: nat, a: Span)
    requires s.Inv() && Backed(s, mem) && IsSpan(s, mem, x, a)
    ensures a.Fits()
  {
    hide Arena.SubsOk, Arena.HeldOk, Arena.Exclusive, Arena.NoLeak, Arena.PoolsOk, Arena.PoolsComplete, Arena.QueuesOk,
      Arena.ChunksOk, Arena.ListsShape, Arena.ListsBounds, Arena.OneIdle, RegionBytes;
    HeldRegionInChunk(s, x);
  }

  /** A region that is kept is the same stretch of the same memory. */
  lemma SpanKept(s: Arena, mem: Memory, s': Arena, mem': Memory, x: nat, a: Span)
    requires IsSpan(s, mem, x, a) && SameRegion(s, s', x) && Backed(s', mem') && s'.Inv()
    requires MemKept(mem, mem')
    ensures IsSpan(s', mem', x, a)
  {
    hide Arena.SubsOk, Arena.HeldOk, Arena.Exclusive, Arena.NoLeak, Arena.PoolsOk, Arena.PoolsComplete, Arena.QueuesOk,
      Arena.ChunksOk, Arena.ListsShape, Arena.ListsBounds, Arena.OneIdle, RegionBytes, SameRegion;
    KeptChunk(s, s', x);
  }

  lemma KeptChunk(s: Arena, s': Arena, x: nat)
    requires SameRegion(s, s', x)
    ensures x in s'.held && s'.LiveRegion(s'.held[x]) && s'.held[x].chunk in s'.chunks && s'.held[x] == s.held[x]
    ensures s.held[x].handle.subpage ==> s.held[x].At() in s.subs
    ensures s'.held[x].handle.subpage ==> s'.held[x].At() in s'.subs
    ensures RegionBytes(s', s'.held[x]) == RegionBytes(s, s.held[x])
  {
  }

  /** New chunks come with new memory. */
  lemma StillBacked(s: Arena, mem: Memory, s': Arena, mem': Memory)
    requires Backed(s, mem) && mem'.Keys == s'.chunks.Keys && forall c | c in mem' :: mem'[c].Length == s'.ChunkSize()
    requires MemKept(mem, mem')
    requires forall c, d | c in mem' && d in mem' && c !in mem && d !in mem :: c == d
    requires forall c, d | c in mem' && c !in mem && d in mem :: mem'[c] != mem[d]
    ensures Backed(s', mem')
  {
    forall c, d | c in mem' && d in mem' && c != d ensures mem'[c] != mem'[d] {
      assert c in mem || d in mem;
    }
  }
}
