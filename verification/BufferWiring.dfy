/** Buffers and the regions behind them: which buffer stands on which token of the arena. */
module BufferWiring {
  import opened Powers
  import opened PageClasses
  import opened ChunkLists
  import opened ArenaState
  import opened ArenaOwners
  import opened BufferSpans
  import opened PoolByteBufs

  ghost function SpanOf(b: PoolByteBuf): Span
    reads b
  {
    Span(b.memory, b.offset, b.maxLength)
  }

  ghost predicate Owned(tokens: map<PoolByteBuf, nat>, x: nat) {
    exists b :: b in tokens && tokens[b] == x
  }

  /** A pooled buffer lies on the region of its token. */
  ghost predicate OnRegion(s: Arena, mem: Memory, b: PoolByteBuf, x: nat)
    reads b
  {
    b.Valid() && Live(s, x) && IsSpan(s, mem, x, SpanOf(b))
  }

  /** An unpooled buffer has memory of its own. */
  ghost predicate OnItsOwn(mem: Memory, b: PoolByteBuf)
    reads b
  {
    b.Valid() && forall c | c in mem :: mem[c] != b.memory
  }

  /** Pooled buffers lie on the regions of different live tokens, unpooled ones have memory of their
      own, and every live token but the loose ones belongs to a buffer. */
  ghost predicate Wiring(s: Arena, mem: Memory, tokens: map<PoolByteBuf, nat>, unpooled: set<PoolByteBuf>,
                         loose: set<nat>)
    reads tokens.Keys, unpooled
  {
    && s.Inv() && Backed(s, mem) && tokens.Keys !! unpooled
    && (forall b | b in tokens :: OnRegion(s, mem, b, tokens[b]) && tokens[b] !in loose)
    && (forall a, b | a in tokens && b in tokens && a != b :: tokens[a] != tokens[b])
    && (forall b | b in unpooled :: OnItsOwn(mem, b))
    && (forall a, b | a in unpooled && b in unpooled && a != b :: a.memory != b.memory)
    && (forall x | Live(s, x) :: x in loose || Owned(tokens, x))
  }

  lemma WiringIs(s: Arena, mem: Memory, tokens: map<PoolByteBuf, nat>, unpooled: set<PoolByteBuf>, loose: set<nat>)
    requires Wiring(s, mem, tokens, unpooled, loose)
    ensures s.Inv() && Backed(s, mem)
    ensures forall b, c | b in unpooled && c in mem :: mem[c] != b.memory
  {
    hide Arena.Inv, Backed, OnRegion, Live;
  }

  lemma EmptyWiring(pageShifts: nat, maxOrder: nat, caches: nat)
    requires ValidConfig(pageShifts, maxOrder) && ChunkSizeOk(Shl(Pow2(maxOrder), pageShifts))
    ensures Wiring(Empty(pageShifts, maxOrder, caches), map[], map[], {}, {})
  {
    hide Arena.Inv;
    EmptyInv(pageShifts, maxOrder, caches);
  }

  /** No two buffers share a byte. */
  lemma BuffersSeparate(s: Arena, mem: Memory, tokens: map<PoolByteBuf, nat>, unpooled: set<PoolByteBuf>,
                        loose: set<nat>, a: PoolByteBuf, b: PoolByteBuf)
    requires Wiring(s, mem, tokens, unpooled, loose)
    requires a in tokens.Keys + unpooled && b in tokens.Keys + unpooled && a != b
    ensures Separate(SpanOf(a), SpanOf(b))
  {
    hide Arena.Inv, Live, Backed;
    if a in tokens && b in tokens {
      SpansSeparate(s, mem, tokens[a], SpanOf(a), tokens[b], SpanOf(b));
    } else {
      OwnMemoryApart(s, mem, tokens, unpooled, loose, a, b);
    }
  }

  lemma OwnMemoryApart(s: Arena, mem: Memory, tokens: map<PoolByteBuf, nat>, unpooled: set<PoolByteBuf>,
                       loose: set<nat>, a: PoolByteBuf, b: PoolByteBuf)
    requires Wiring(s, mem, tokens, unpooled, loose) && a != b
    requires a in tokens.Keys + unpooled && b in tokens.Keys + unpooled && (a in unpooled || b in unpooled)
    ensures a.memory != b.memory
  {
    hide Arena.Inv, Live, Backed;
  }

  /** A loose region shares no byte with any buffer. */
  lemma LooseSeparate(s: Arena, mem: Memory, tokens: map<PoolByteBuf, nat>, unpooled: set<PoolByteBuf>, loose: set<nat>,
                      y: nat, g: Span, b: PoolByteBuf)
    requires Wiring(s, mem, tokens, unpooled, loose) && y in loose && IsSpan(s, mem, y, g)
    requires b in tokens.Keys + unpooled
    ensures Separate(SpanOf(b), g)
  {
    hide Arena.Inv, Live, Backed;
    if b in tokens {
      SpansSeparate(s, mem, tokens[b], SpanOf(b), y, g);
    }
  }

  // ---------------------------------------------------------------- the tables change

  /** A buffer leaves the table; its token, if it has one, is loose. */
  lemma Unwire(s: Arena, mem: Memory, tokens: map<PoolByteBuf, nat>, unpooled: set<PoolByteBuf>, loose: set<nat>,
               b: PoolByteBuf)
    requires Wiring(s, mem, tokens, unpooled, loose) && b in tokens.Keys + unpooled
    ensures Wiring(s, mem, tokens - {b}, unpooled - {b}, loose + if b in tokens then {tokens[b]} else {})
  {
    hide Arena.Inv, Live, Backed, OnRegion, OnItsOwn;
    forall x | Live(s, x) && x !in loose && !(b in tokens && tokens[b] == x) ensures Owned(tokens - {b}, x) {
      var a :| a in tokens && tokens[a] == x;
      assert a in tokens - {b};
    }
  }

  /** A buffer takes a loose token's region. */
  lemma WirePooled(s: Arena, mem: Memory, tokens: map<PoolByteBuf, nat>, unpooled: set<PoolByteBuf>, loose: set<nat>,
                   b: PoolByteBuf, y: nat)
    requires Wiring(s, mem, tokens, unpooled, loose) && b !in tokens && b !in unpooled
    requires y in loose && OnRegion(s, mem, b, y)
    ensures Wiring(s, mem, tokens[b := y], unpooled, loose - {y})
  {
    hide Arena.Inv, Live, Backed, OnRegion, OnItsOwn;
    var t := tokens[b := y];
    forall x | Live(s, x) && x !in loose - {y} ensures Owned(t, x) {
      if x == y {
        assert b in t;
      } else {
        var a :| a in tokens && tokens[a] == x;
        assert a in t && t[a] == x;
      }
    }
  }

  /** A buffer gets memory that no chunk and no other buffer has. */
  lemma WireUnpooled(s: Arena, mem: Memory, tokens: map<PoolByteBuf, nat>, unpooled: set<PoolByteBuf>, loose: set<nat>,
                     b: PoolByteBuf)
    requires Wiring(s, mem, tokens, unpooled, loose) && b !in tokens && b !in unpooled && OnItsOwn(mem, b)
    requires forall a | a in unpooled :: a.memory != b.memory
    ensures Wiring(s, mem, tokens, unpooled + {b}, loose)
  {
    hide Arena.Inv, Live, Backed, OnRegion, OnItsOwn;
  }

  /** What a wired buffer is known to be. */
  lemma WiredBuffer(s: Arena, mem: Memory, tokens: map<PoolByteBuf, nat>, unpooled: set<PoolByteBuf>, loose: set<nat>,
              b: PoolByteBuf)
    requires Wiring(s, mem, tokens, unpooled, loose) && b in tokens.Keys + unpooled
    ensures b.Valid() && (b in tokens ==> Live(s, tokens[b]) && tokens[b] !in loose)
    ensures b in tokens ==> OfSize(s, tokens[b], b.maxLength)
  {
    hide Arena.Inv, Live, Backed, IsSpan, OfSize;
    if b in tokens { SpanSize(s, mem, tokens[b], SpanOf(b)); }
  }

  /** The contents are cut to a capacity, and the indices stay where they were if that is more than
      there was. */
  twostate predicate Resized(b: PoolByteBuf, newCapacity: nat)
    reads b, b.memory
  {
    && old(b.Valid()) && b.Valid() && newCapacity <= b.length
    && b.Contents() == PoolByteBuf.Cut(old(b.Contents()), old(b.readerIndex), newCapacity)
    && (newCapacity > old(b.length) ==> b.writerIndex == old(b.writerIndex) && b.readerIndex == old(b.readerIndex))
  }

  /** The readable bytes are the same. */
  twostate predicate SameContents(b: PoolByteBuf)
    reads b, b.memory
  {
    old(b.Valid()) && b.Valid() && b.Contents() == old(b.Contents())
  }

  // ---------------------------------------------------------------- the arena changes

  /** After an operation that takes only loose tokens, every buffer is where it was. */
  lemma WiringAfter(s: Arena, mem: Memory, tokens: map<PoolByteBuf, nat>, unpooled: set<PoolByteBuf>, loose: set<nat>,
                    given: set<nat>, taken: set<nat>, s': Arena, mem': Memory)
    requires Wiring(s, mem, tokens, unpooled, loose) && taken <= loose && Operation(s, given, taken, s')
    requires Backed(s', mem') && MemKept(mem, mem')
    requires forall c, b | c in mem' && c !in mem && b in unpooled :: mem'[c] != b.memory
    ensures Wiring(s', mem', tokens, unpooled, loose - taken + given)
  {
    hide Arena.Inv, Live, Backed, SameRegion, IsSpan;
    forall b | b in tokens ensures OnRegion(s', mem', b, tokens[b]) {
      assert Live(s, tokens[b]) && tokens[b] !in taken;
      SpanKept(s, mem, s', mem', tokens[b], SpanOf(b));
    }
    forall b | b in unpooled ensures OnItsOwn(mem', b) {
      assert OnItsOwn(mem, b);
    }
  }
}
