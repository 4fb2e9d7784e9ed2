/** `PoolByteBufAllocator` with its arena and the buffers it has handed out: what one buffer does with
    its bytes, down to the reallocation of its region, no other buffer sees. */
module BufferAllocators {
  import opened Basics
  import opened Powers
  import opened ClassMath
  import opened PageClasses
  import opened ChunkLists
  import opened ArenaState
  import opened ArenaSafety
  import opened ArenaOwners
  import opened ArenaLinks
  import opened BufferSpans
  import opened BufferWiring
  import opened PoolChunks
  import opened PoolArenas
  import opened Capacities
  import opened PoolByteBufs

  /** A shrink that moves the buffer into a region of the very size it had: where half of the smallest
      class is enough, and in the classes from 160 to 512 bytes where sixteen bytes or more are given up
      but less than the class below is away. */
  lemma ShrinkIntoSameClass(k: nat, newCapacity: nat)
    requires newCapacity < SizeOf(k)
    ensures PoolByteBuf.TooLarge(SizeOf(k), newCapacity) && LeastClass(QUANTUM, newCapacity) == k <==>
      (k == 0 && newCapacity <= 8)
      || (8 <= k <= 15 && SizeOf(k - 1) < newCapacity && newCapacity + 16 <= SizeOf(k))
  {
    SmallSizes();
    if LeastClass(QUANTUM, newCapacity) != k && (k == 0 || SizeOf(k - 1) < newCapacity) {
      LeastClassIs(QUANTUM, newCapacity, k);
    }
    if 16 <= k {
      ClassBelow(k);
      if k != 16 { ClassMonotone(QUANTUM, 16, k); }
    }
  }

  lemma SmallSizes()
    ensures SizeOf(0) == 16 && SizeOf(1) == 32 && SizeOf(2) == 48 && SizeOf(3) == 64
    ensures SizeOf(4) == 80 && SizeOf(5) == 96 && SizeOf(6) == 112 && SizeOf(7) == 128
    ensures SizeOf(8) == 160 && SizeOf(9) == 192 && SizeOf(10) == 224 && SizeOf(11) == 256
    ensures SizeOf(12) == 320 && SizeOf(13) == 384 && SizeOf(14) == 448 && SizeOf(15) == 512
    ensures SizeOf(16) == 640
  {
    assert Pow2(4) == 16;
  }

  /** Every class past the first is less than twice the one below. */
  lemma {:induction false} ClassBelow(k: nat)
    requires 2 <= k
    ensures SizeOf(k) < 2 * SizeOf(k - 1)
  {
    if 9 <= k { ClassBelow(k - 4); }
  }

  /** The tables stand for the chunk and handle that each buffer carries. */
  class PoolByteBufAllocator {
    const arena: PoolArena
    var tokens: map<PoolByteBuf, nat>   // pooled buffers, with the token of their region
    var unpooled: set<PoolByteBuf>      // buffers with memory of their own

    ghost function Memories(): Memory
      reads arena
    {
      map c | c in arena.chunks :: arena.chunks[c].memory
    }

    ghost function Arrays(): set<array<Byte>>
      reads arena
    {
      set c | c in arena.chunks :: arena.chunks[c].memory
    }

    ghost function Buffers(): set<PoolByteBuf>
      reads this
    {
      tokens.Keys + unpooled
    }

    ghost predicate Wired(loose: set<nat>)
      reads this, arena, arena.Objects(), tokens.Keys, unpooled
    {
      arena.Valid() && Wiring(arena.State(), Memories(), tokens, unpooled, loose)
    }

    ghost predicate Valid()
      reads this, arena, arena.Objects(), tokens.Keys, unpooled
    {
      Wired({})
    }

    constructor (pageShifts: nat, maxOrder: nat, cacheSizes: seq<nat>, sweepThreshold: nat)
      requires ValidConfig(pageShifts, maxOrder) && ChunkSizeOk(Shl(Pow2(maxOrder), pageShifts))
      ensures Valid() && Buffers() == {} && fresh(arena)
    {
      hide Arena.Inv, Wiring, ArenaState.Empty, PoolArena.Wired, PoolArena.Boxes;
      var empty := new PoolArena(pageShifts, maxOrder, cacheSizes, sweepThreshold);
      NoChunks(empty, pageShifts, maxOrder, |cacheSizes|);
      arena, tokens, unpooled := empty, map[], {};
      new;
      assert arena.Objects() == {} && Memories() == map[];
      EmptyWiring(pageShifts, maxOrder, |cacheSizes|);
    }

    static lemma NoChunks(empty: PoolArena, pageShifts: nat, maxOrder: nat, nCaches: nat)
      requires ValidConfig(pageShifts, maxOrder)
      requires empty.Valid() && empty.State() == Empty(pageShifts, maxOrder, nCaches)
      ensures empty.chunks == map[]
    {
      hide Arena.Inv, PoolChunk.Valid;
      empty.MemoryFits();
    }

    // ---------------------------------------------------------------- what stays as it was

    /** Every buffer there was and still is has the same bytes to read. */
    twostate predicate ReadsSame()
      reads this, Buffers(), set a | a in Buffers() :: a.memory
    {
      forall a | a in old(Buffers()) && a in Buffers() :: SameContents(a)
    }

    /** The same buffers, with the same bytes to read. */
    twostate predicate AllKept()
      reads this, Buffers(), set a | a in Buffers() :: a.memory
    {
      Buffers() == old(Buffers()) && ReadsSame()
    }

    /** What only the arena does is nothing to the buffers. */
    twostate lemma Untouched()
      requires unchanged(this) && forall a | a in Buffers() :: old(a.Valid()) && unchanged(a) && unchanged(a.memory)
      ensures AllKept()
    {
    }

    /** The others read what they read before. */
    twostate predicate OthersKept(b: PoolByteBuf)
      reads this, Buffers(), set a | a in Buffers() :: a.memory
    {
      Buffers() == old(Buffers()) && forall a | a in old(Buffers()) && a != b :: SameContents(a)
    }

    lemma AllValid(loose: set<nat>)
      requires Wired(loose)
      ensures forall a | a in Buffers() :: a.Valid()
    {
      hide PoolArena.Valid, PoolArena.State, Memories, Wiring, Live;
      forall a | a in Buffers() ensures a.Valid() {
        WiredBuffer(arena.State(), Memories(), tokens, unpooled, loose, a);
      }
    }

    // ---------------------------------------------------------------- regions

    /** What a buffer can use of a new region: as much as was asked for, or all of an unpooled one. */
    function Length(newCapacity: nat): (r: nat)
      ensures newCapacity <= r
    {
      if newCapacity <= arena.chunkSize then newCapacity else SizeOf(LeastClass(QUANTUM, newCapacity))
    }

    /** A region of the class of a request has room for it. */
    lemma RegionRoom(y: nat, newCapacity: nat)
      requires arena.Valid() && OfClass(arena.State(), y, LeastClass(QUANTUM, newCapacity))
      ensures y in arena.held && arena.held[y].chunk in arena.chunks
      ensures arena.held[y].handle.subpage ==> arena.held[y].At() in arena.subs
      ensures newCapacity <= arena.MaxLength(y)
    {
      hide PoolArena.Valid, PoolChunk.Valid, Arena.Inv;
      arena.RegionIs(y);
    }

    /** A held region is a stretch of its chunk's memory. */
    lemma RegionSpan(y: nat)
      requires arena.Valid() && Backed(arena.State(), Memories())
      requires y in arena.held && arena.held[y].chunk in arena.chunks
      requires arena.held[y].handle.subpage ==> arena.held[y].At() in arena.subs
      ensures var a := Span(arena.chunks[arena.held[y].chunk].memory, arena.Offset(y), arena.MaxLength(y));
              IsSpan(arena.State(), Memories(), y, a) && a.Fits()
    {
      hide PoolArena.Wired, PoolChunk.Valid, Arena.Inv, RegionBytes;
      arena.RegionIs(y);
      SpanFits(arena.State(), Memories(), y,
               Span(arena.chunks[arena.held[y].chunk].memory, arena.Offset(y), arena.MaxLength(y)));
    }

    /** `initBuf` and `initBufWithSubpage`: the region as a buffer sees it. */
    method GrantOf(y: nat, newCapacity: nat) returns (g: Grant)
      requires arena.Valid() && Backed(arena.State(), Memories())
      requires OfClass(arena.State(), y, LeastClass(QUANTUM, newCapacity))
      ensures g.Fits() && g.length == newCapacity && g.memory in Arrays()
      ensures IsSpan(arena.State(), Memories(), y, Span(g.memory, g.offset, g.maxLength))
    {
      hide PoolArena.Valid, PoolArena.State, PoolChunk.Valid, Arena.Inv, Backed, IsSpan, OfClass, LeastClass,
        Memories;
      RegionRoom(y, newCapacity);
      RegionSpan(y);
      g := Grant(arena.chunks[arena.held[y].chunk].memory, arena.Offset(y), newCapacity, arena.MaxLength(y));
    }

    /** `newUnpoolChunk`: memory of exactly the normalized capacity. */
    method OwnMemory(newCapacity: nat) returns (g: Grant)
      ensures g.Fits() && g.length == g.memory.Length == SizeOf(LeastClass(QUANTUM, newCapacity)) && fresh(g.memory)
    {
      var normCapacity := SizeOf(LeastClass(QUANTUM, newCapacity));
      var memory := new Byte[normCapacity];
      g := Grant(memory, 0, normCapacity, normCapacity);
    }

    /** The token of a region that was given, or given up. */
    static function GivenTo(y: Option<nat>): set<nat> {
      if y.Some? then {y.value} else {}
    }

    /** What the arena promises, in terms of the chunks' memory. */
    method AskArena(newCapacity: nat) returns (y: Option<nat>)
      requires arena.Valid() && Backed(arena.State(), Memories())
      modifies arena, arena.Objects()
      ensures fresh(arena.Objects() - old(arena.Objects())) && fresh(Arrays() - old(Arrays()))
      ensures arena.Valid() && Backed(arena.State(), Memories()) && MemKept(old(Memories()), Memories())
      ensures forall c | c in Memories() && c !in old(Memories()) :: fresh(Memories()[c])
      ensures Operation(old(arena.State()), GivenTo(y), {}, arena.State())
      ensures y.Some? <==> newCapacity <= arena.chunkSize
      ensures y.None? ==> arena.queues == old(arena.queues)
      ensures y.Some? ==>
        Live(arena.State(), y.value) && OfClass(arena.State(), y.value, LeastClass(QUANTUM, newCapacity))
    {
      ghost var s, mem := arena.State(), Memories();
      hide Arena.Inv, PoolChunk.Valid, Backed, Granted, OfClass, Operation, LeastClass;
      y := arena.Allocate(newCapacity);
      arena.MemoryFits();
      StillBacked(s, mem, arena.State(), Memories());
      if y.Some? {
        GrantedIs(s, LeastClass(QUANTUM, newCapacity), y.value, arena.State());
      } else {
        Nothing(s);
      }
    }

    method AllocateRegion(newCapacity: nat) returns (y: Option<nat>)
      requires Valid()
      modifies arena, arena.Objects()
      ensures fresh(arena.Objects() - old(arena.Objects())) && fresh(Arrays() - old(Arrays()))
      ensures Wired(GivenTo(y)) && Backed(arena.State(), Memories()) && AllKept()
      ensures y.Some? <==> newCapacity <= arena.chunkSize
      ensures y.None? ==> arena.queues == old(arena.queues)
      ensures y.Some? ==>
        Live(arena.State(), y.value) && OfClass(arena.State(), y.value, LeastClass(QUANTUM, newCapacity))
    {
      hide PoolArena.Valid, PoolArena.State, Memories, Arena.Inv, Backed, OfClass, Operation, LeastClass, GivenTo,
        AllKept;
      AllValid({});
      ghost var s, mem := arena.State(), Memories();
      WiringIs(s, mem, tokens, unpooled, {});
      y := AskArena(newCapacity);
      Untouched();
      assert Wiring(s, mem, tokens, unpooled, {});
      WiringAfter(s, mem, tokens, unpooled, {}, GivenTo(y), {}, arena.State(), Memories());
      assert {} - {} + GivenTo(y) == GivenTo(y);
    }

    /** The grant's memory is no chunk's and no buffer's. */
    ghost predicate IsNew(g: Grant)
      reads this, arena, tokens.Keys, unpooled
    {
      g.memory !in Arrays() && forall b | b in Buffers() :: b.memory != g.memory
    }

    /** The grant is the region of a live token. */
    ghost predicate OnGrant(y: nat, g: Grant)
      reads arena, arena.Objects()
    {
      Live(arena.State(), y) && IsSpan(arena.State(), Memories(), y, Span(g.memory, g.offset, g.maxLength))
    }

    /** `allocate` for a buffer: a region of the arena, or memory of its own past the chunk size. */
    method NewRegion(newCapacity: nat) returns (y: Option<nat>, g: Grant)
      requires Valid()
      modifies arena, arena.Objects()
      ensures fresh(arena.Objects() - old(arena.Objects())) && fresh(Arrays() - old(Arrays()))
      ensures g.Fits() && g.length == Length(newCapacity) && (y.Some? <==> newCapacity <= arena.chunkSize)
      ensures y.None? ==> arena.queues == old(arena.queues)
      ensures Wired(GivenTo(y)) && AllKept()
      ensures g.memory in Arrays() || fresh(g.memory)
      ensures if y.Some? then OnGrant(y.value, g) else IsNew(g)
    {
      hide PoolArena.Valid, PoolArena.State, Memories, Arena.Inv, Backed, Wiring, OfClass, Live, IsSpan, LeastClass,
        SizeOf, PoolChunk.Valid, PoolArena.Wired, PoolArena.Boxes;
      y := AllocateRegion(newCapacity);
      if y.Some? {
        g := GrantOf(y.value, newCapacity);
      } else {
        g := OwnMemory(newCapacity);
      }
    }

    // ---------------------------------------------------------------- moving

    /** The grant shares no byte with any buffer. */
    lemma GrantApart(y: Option<nat>, g: Grant, b: PoolByteBuf)
      requires Wired(GivenTo(y)) && if y.Some? then OnGrant(y.value, g) else IsNew(g)
      requires b in Buffers()
      ensures b.Valid() && Separate(SpanOf(b), Span(g.memory, g.offset, g.maxLength))
    {
      hide PoolArena.Valid, PoolArena.State, Arena.Inv, Wiring, IsSpan, Live, Memories;
      WiredBuffer(arena.State(), Memories(), tokens, unpooled, GivenTo(y), b);
      if y.Some? {
        LooseSeparate(arena.State(), Memories(), tokens, unpooled, GivenTo(y), y.value,
                      Span(g.memory, g.offset, g.maxLength), b);
      }
    }

    ghost function TokenOf(b: PoolByteBuf): set<nat>
      reads this
    {
      if b in tokens then {tokens[b]} else {}
    }

    /** A live token and the size of its region. */
    ghost predicate LiveOf(x: Option<nat>, size: int)
      reads arena, arena.Objects()
    {
      x.Some? ==> Live(arena.State(), x.value) && OfSize(arena.State(), x.value, size)
    }

    /** Every buffer but one is wired; that one's token is loose, and the size of its region known. */
    ghost predicate WiredBut(b: PoolByteBuf, loose: set<nat>, size: int)
      reads this, arena, arena.Objects(), tokens.Keys - {b}, unpooled - {b}
    {
      && arena.Valid() && Wiring(arena.State(), Memories(), tokens - {b}, unpooled - {b}, loose + TokenOf(b))
      && forall x | x in TokenOf(b) :: LiveOf(Some(x), size)
    }

    /** The buffer lies where it was granted to. */
    ghost predicate Landed(b: PoolByteBuf, y: Option<nat>)
      reads this, arena, arena.Objects(), tokens.Keys, unpooled, b
    {
      if y.Some? then OnRegion(arena.State(), Memories(), b, y.value) && y.value !in TokenOf(b)
      else OnItsOwn(Memories(), b) && forall a | a in Buffers() && a != b :: a.memory != b.memory
    }

    /** The buffer takes the region it was granted, and its contents with it. */
    method Move(b: PoolByteBuf, newCapacity: nat, ghost y: Option<nat>, g: Grant)
      requires Wired(GivenTo(y)) && if y.Some? then OnGrant(y.value, g) else IsNew(g)
      requires b in Buffers() && b.Valid() && newCapacity <= b.maxCapacity
      requires b.MustMove(newCapacity) && b.Suits(g, newCapacity)
      modifies b, g.memory
      ensures WiredBut(b, GivenTo(y), old(b.maxLength)) && Landed(b, y) && Resized(b, newCapacity)
      ensures SpanOf(b) == Span(g.memory, g.offset, g.maxLength) && b.length == g.length
      ensures forall i | 0 <= i < g.memory.Length && !b.Owns(g.memory, i) :: g.memory[i] == old(g.memory[i])
    {
      hide PoolArena.Wired, PoolArena.Boxes, Arena.Inv, Live, IsSpan, Wiring, PoolByteBuf.MustMove,
        PoolByteBuf.Contents, PoolByteBuf.Cut;
      WiredBuffer(arena.State(), Memories(), tokens, unpooled, GivenTo(y), b);
      Unwire(arena.State(), Memories(), tokens, unpooled, GivenTo(y), b);
      var moved := b.Capacity(newCapacity, g);
      assert unchanged(arena) && unchanged(arena.Objects());
    }

    /** The table follows the buffer. */
    method Rewire(b: PoolByteBuf, y: Option<nat>, ghost size: int) returns (x: Option<nat>)
      requires b in Buffers() && WiredBut(b, GivenTo(y), size) && Landed(b, y)
      modifies this
      ensures Wired(GivenTo(x)) && Buffers() == old(Buffers()) && LiveOf(x, size)
      ensures x == (if b in old(tokens) then Some(old(tokens[b])) else None) && (b in tokens <==> y.Some?)
    {
      hide PoolArena.Wired, PoolArena.Boxes, Arena.Inv, Live, Wiring, OnRegion, OnItsOwn;
      ghost var s, mem, t, u := arena.State(), Memories(), tokens - {b}, unpooled - {b};
      x := if b in tokens then Some(tokens[b]) else None;
      if y.Some? {
        WirePooled(s, mem, t, u, GivenTo(y) + GivenTo(x), b, y.value);
        tokens, unpooled := tokens[b := y.value], unpooled - {b};
        assert tokens == t[b := y.value] && GivenTo(y) + GivenTo(x) - {y.value} == GivenTo(x);
      } else {
        WireUnpooled(s, mem, t, u, GivenTo(y) + GivenTo(x), b);
        tokens, unpooled := tokens - {b}, unpooled + {b};
        assert unpooled == u + {b} && GivenTo(y) + GivenTo(x) == GivenTo(x);
      }
      assert unchanged(arena) && unchanged(arena.Objects());
    }

    /** The old region goes back to the arena, if the arena gave it: through the cache, or past it when
        the buffer has none. */
    method GiveBack(x: Option<nat>, cached: bool, ghost size: nat)
      requires Wired(GivenTo(x)) && LiveOf(x, size)
      modifies arena, arena.Objects()
      ensures Valid() && AllKept()
      ensures if x.Some? && cached then InQueue(old(arena.queues), size, x.value) else arena.queues == old(arena.queues)
      ensures fresh(arena.Objects() - old(arena.Objects())) && fresh(Arrays() - old(Arrays()))
    {
      hide PoolArena.Valid, PoolArena.State, Memories, Arena.Inv, Backed, Operation, Live, AllKept, OfSize, InQueue;
      AllValid(GivenTo(x));
      if x.Some? {
        ghost var s, mem := arena.State(), Memories();
        WiringIs(s, mem, tokens, unpooled, {x.value});
        AskFree(x.value, cached, size);
        WiringAfter(s, mem, tokens, unpooled, {x.value}, {}, {x.value}, arena.State(), Memories());
        assert {x.value} - {x.value} + {} == {};
      }
      Untouched();
    }

    /** A region of so many bytes is the youngest entry of the cache of its class, if there is one. */
    ghost predicate InQueue(was: seq<seq<nat>>, size: nat, x: nat)
      reads arena`queues
    {
      && (forall k: nat | arena.Caches(k) && SizeOf(k) == size ::
            k < |was| && arena.queues == was[k := was[k] + [x]])
      && ((forall k: nat | arena.Caches(k) :: SizeOf(k) != size) ==> arena.queues == was)
    }

    ghost predicate Youngest(size: nat, x: nat)
      reads arena`queues
    {
      forall k: nat | arena.Caches(k) && SizeOf(k) == size ::
        k < |arena.queues| && arena.queues[k] != [] && arena.queues[k][|arena.queues[k]| - 1] == x
    }

    lemma InQueueIsYoungest(was: seq<seq<nat>>, size: nat, x: nat)
      requires InQueue(was, size, x)
      ensures Youngest(size, x)
    {
      hide SizeOf;
    }

    method AskFree(x: nat, cached: bool, ghost size: nat)
      requires arena.Valid() && Backed(arena.State(), Memories()) && Live(arena.State(), x)
      requires OfSize(arena.State(), x, size)
      modifies arena, arena.Objects()
      ensures fresh(arena.Objects() - old(arena.Objects())) && fresh(Arrays() - old(Arrays()))
      ensures arena.Valid() && Backed(arena.State(), Memories()) && MemKept(old(Memories()), Memories())
      ensures Memories().Keys <= old(Memories()).Keys
      ensures Operation(old(arena.State()), {}, {x}, arena.State())
      ensures if cached then InQueue(old(arena.queues), size, x) else arena.queues == old(arena.queues)
    {
      ghost var s, mem := arena.State(), Memories();
      hide Arena.Inv, PoolChunk.Valid, Backed, Live, OfSize, Operation, InQueue;
      FreeRegion(x, cached, size);
      arena.MemoryFits();
      StillBacked(s, mem, arena.State(), Memories());
    }

    lemma ClassOfSize(s: Arena, x: nat, size: nat)
      requires OfSize(s, x, size)
      ensures forall k: nat :: OfClass(s, x, k) <==> SizeOf(k) == size
    {
    }

    method FreeRegion(x: nat, cached: bool, ghost size: nat)
      requires arena.Valid() && Live(arena.State(), x) && OfSize(arena.State(), x, size)
      modifies arena, arena.Objects()
      ensures arena.Valid() && Among(arena.chunks, old(arena.chunks))
      ensures Operation(old(arena.State()), {}, {x}, arena.State())
      ensures if cached then InQueue(old(arena.queues), size, x) else arena.queues == old(arena.queues)
    {
      hide PoolArena.Valid, Live, OfClass, OfSize, Operation, SizeOf, PoolArena.Caches;
      ClassOfSize(arena.State(), x, size);
      if cached {
        arena.Free(x);
      } else {
        arena.FreeChunk(x);
      }
    }

    // ---------------------------------------------------------------- writing

    /** A buffer that moves inside its region leaves everything wired. */
    twostate lemma StillWired(b: PoolByteBuf)
      requires old(Valid()) && unchanged(this) && unchanged(arena) && unchanged(arena.Objects()) && b in Buffers()
      requires b.Valid() && SpanOf(b) == old(SpanOf(b)) && forall a | a in Buffers() && a != b :: unchanged(a)
      ensures Valid()
    {
      hide PoolArena.Wired, PoolArena.Boxes, Arena.Inv, Live, IsSpan, Backed;
      forall a | a in tokens ensures OnRegion(arena.State(), Memories(), a, tokens[a]) {
        assert SpanOf(a) == old(SpanOf(a));
      }
    }

    /** A new capacity that the region can take. */
    method FitIn(b: PoolByteBuf, newCapacity: nat)
      requires Valid() && b in Buffers() && newCapacity <= b.maxCapacity && !b.MustMove(newCapacity)
      modifies b, b.memory
      ensures Valid() && Resized(b, newCapacity) && OthersKept(b) && b.memory == old(b.memory)
      ensures b.length == newCapacity
    {
      hide PoolArena.Wired, PoolArena.Boxes, Arena.Inv, Wiring, PoolByteBuf.MustMove, PoolByteBuf.Contents,
        PoolByteBuf.Cut;
      AllValid({});
      var moved := b.Capacity(newCapacity, Grant(b.memory, 0, 0, 0));
      assert unchanged(arena) && unchanged(arena.Objects());
      forall a | a in Buffers() && a != b ensures SameContents(a) {
        a.BytesKept();
      }
      StillWired(b);
    }

    /** The buffer moves to a granted region that nobody else has a byte of. */
    method Land(b: PoolByteBuf, newCapacity: nat, y: Option<nat>, g: Grant) returns (x: Option<nat>)
      requires Wired(GivenTo(y)) && if y.Some? then OnGrant(y.value, g) else IsNew(g)
      requires b in Buffers() && newCapacity <= b.maxCapacity
      requires b.MustMove(newCapacity) && g.Fits() && newCapacity <= g.length
      modifies this, b, g.memory
      ensures Wired(GivenTo(x)) && LiveOf(x, old(b.maxLength))
      ensures x == if b in old(tokens) then Some(old(tokens[b])) else None
      ensures Resized(b, newCapacity) && OthersKept(b) && b.memory == g.memory && b.length == g.length
      ensures b in tokens <==> y.Some?
    {
      hide Wired, IsNew, OnGrant, WiredBut, Landed, LiveOf, PoolByteBuf.MustMove;
      forall a | a in Buffers() ensures a.Valid() && Separate(SpanOf(a), Span(g.memory, g.offset, g.maxLength)) {
        GrantApart(y, g, a);
      }
      ghost var size := b.maxLength;
      Move(b, newCapacity, y, g);
      forall a | a in Buffers() && a != b ensures SameContents(a) {
        a.BytesKept();
      }
      x := Rewire(b, y, size);
    }

    /** `PoolArena::reallocate` up to the free: the new region is there before the old one goes. */
    method Outgrow(b: PoolByteBuf, newCapacity: nat) returns (x: Option<nat>)
      requires Valid() && b in Buffers() && newCapacity <= b.maxCapacity && b.MustMove(newCapacity)
      modifies this, arena, arena.Objects(), b, Arrays()
      ensures Wired(GivenTo(x)) && LiveOf(x, old(b.maxLength))
      ensures x == if b in old(tokens) then Some(old(tokens[b])) else None
      ensures newCapacity > arena.chunkSize ==> arena.queues == old(arena.queues)
      ensures Resized(b, newCapacity) && OthersKept(b) && (b.memory in old(Arrays()) || fresh(b.memory))
      ensures b.length == Length(newCapacity) && (b in tokens <==> newCapacity <= arena.chunkSize)
      ensures fresh(arena.Objects() - old(arena.Objects())) && fresh(Arrays() - old(Arrays()))
    {
      hide PoolArena.Valid, PoolArena.State, Memories, Wired, Length, IsNew, OnGrant, Live, PoolByteBuf.MustMove,
        PoolByteBuf.Cut;
      var y, g := NewRegion(newCapacity);
      x := Land(b, newCapacity, y, g);
    }

    /** What became of the old region: with the new one pooled it is the youngest entry of its cache; a
        buffer that has left the pool has no cache, and its region goes past it. */
    twostate predicate Returned(b: PoolByteBuf, newCapacity: nat)
      reads arena`queues
    {
      if newCapacity <= arena.chunkSize then
        b in old(tokens) ==> Youngest(old(b.maxLength), old(tokens[b]))
      else arena.queues == old(arena.queues)
    }

    method Relocate(b: PoolByteBuf, newCapacity: nat)
      requires Valid() && b in Buffers() && newCapacity <= b.maxCapacity && b.MustMove(newCapacity)
      modifies this, arena, arena.Objects(), b, Arrays()
      ensures Valid() && Resized(b, newCapacity) && OthersKept(b) && (b.memory in old(Arrays()) || fresh(b.memory))
      ensures b.length == Length(newCapacity) && (b in tokens <==> newCapacity <= arena.chunkSize)
      ensures Returned(b, newCapacity)
      ensures fresh(arena.Objects() - old(arena.Objects())) && fresh(Arrays() - old(Arrays()))
    {
      hide Wired, Length, LiveOf, InQueue, Youngest, PoolArena.State, PoolByteBuf.MustMove, PoolByteBuf.Valid,
        PoolByteBuf.Contents, PoolByteBuf.Cut;
      ghost var size := b.maxLength;
      var x := Outgrow(b, newCapacity);
      label Moved:
      ghost var queues := arena.queues;
      GiveBack(x, b in tokens, size);
      assert AllKept@Moved();
      if x.Some? && b in tokens { InQueueIsYoungest(queues, size, x.value); }
    }

    /** `capacity(int)`: in the buffer's region or in a new one. */
    method SetCapacity(b: PoolByteBuf, newCapacity: nat)
      requires Valid() && b in Buffers() && newCapacity <= b.maxCapacity
      modifies this, arena, arena.Objects(), b, b.memory, Arrays()
      ensures Valid() && Resized(b, newCapacity) && OthersKept(b)
      ensures if old(b.MustMove(newCapacity))
              then b.length == Length(newCapacity) && (b in tokens <==> newCapacity <= arena.chunkSize)
                   && Returned(b, newCapacity)
              else b.length == newCapacity && (b in tokens <==> b in old(tokens))
      ensures b.memory in old(Arrays()) || b.memory == old(b.memory) || fresh(b.memory)
      ensures fresh(arena.Objects() - old(arena.Objects())) && fresh(Arrays() - old(Arrays()))
    {
      hide Wired, PoolArena.State, Live, PoolByteBuf.MustMove, PoolByteBuf.Valid, PoolByteBuf.Contents, PoolByteBuf.Cut;
      if b.MustMove(newCapacity) {
        Relocate(b, newCapacity);
      } else {
        FitIn(b, newCapacity);
      }
    }

    twostate lemma NothingCut(b: PoolByteBuf, new newCapacity: nat)
      requires Resized(b, newCapacity) && newCapacity > old(b.length) && b in old(Buffers()) && OthersKept(b)
      ensures AllKept() && b.writerIndex == old(b.writerIndex) && newCapacity <= b.length
    {
    }

    /** The length a buffer has after room for so many bytes was made: as it was if they fit, else as
        much as the law of growth has it, or all of a new region past the chunk size. */
    twostate predicate Lengthened(b: PoolByteBuf, minWritableBytes: nat)
      reads b
    {
      var needed := old(b.writerIndex) + minWritableBytes;
      if needed <= old(b.length) then b.length == old(b.length)
      else
        && IsNewCapacity(needed, b.maxCapacity, old(b.Target(minWritableBytes)))
        && b.length == if old(b.MustMove(b.Target(minWritableBytes))) then Length(old(b.Target(minWritableBytes)))
                       else old(b.Target(minWritableBytes))
    }

    /** A larger capacity: everything is kept. */
    method Enlarge(b: PoolByteBuf, newCapacity: nat)
      requires Valid() && b in Buffers() && b.length < newCapacity <= b.maxCapacity
      modifies this, arena, arena.Objects(), b, b.memory, Arrays()
      ensures Valid() && AllKept() && b.writerIndex == old(b.writerIndex)
      ensures b.length == if old(b.MustMove(newCapacity)) then Length(newCapacity) else newCapacity
      ensures b.memory in old(Arrays()) || b.memory == old(b.memory) || fresh(b.memory)
    {
      hide Wired, Arrays, Length, Returned, PoolByteBuf.MustMove, PoolByteBuf.Contents, PoolByteBuf.Cut,
        PoolByteBuf.Valid;
      SetCapacity(b, newCapacity);
      NothingCut(b, newCapacity);
    }

    /** `ensureWritable`: room for so many bytes. */
    method EnsureWritable(b: PoolByteBuf, minWritableBytes: nat)
      requires Valid() && b in Buffers() && b.writerIndex + minWritableBytes <= b.maxCapacity
      modifies this, arena, arena.Objects(), b, b.memory, Arrays()
      ensures Valid() && AllKept() && b.writerIndex == old(b.writerIndex)
      ensures b.writerIndex + minWritableBytes <= b.length && Lengthened(b, minWritableBytes)
      ensures b.memory in old(Arrays()) || b.memory == old(b.memory) || fresh(b.memory)
    {
      hide Wired, Arrays, PoolByteBuf.MustMove, PoolByteBuf.Contents, NewCapacity, IsNewCapacity, PoolByteBuf.Valid;
      AllValid({});
      var targetCapacity := b.writerIndex + minWritableBytes;
      if targetCapacity > b.length {
        NewCapacityFits(targetCapacity, b.maxCapacity);
        NewCapacityIs(targetCapacity, b.maxCapacity);
        var newCapacity := CalculateNewCapacity(targetCapacity, b.maxCapacity);
        Enlarge(b, newCapacity.value);
      } else {
        assert AllKept();
      }
    }

    twostate predicate Appended(b: PoolByteBuf, data: seq<Byte>)
      reads b, b.memory
    {
      old(b.Valid()) && b.Valid() && b.Contents() == old(b.Contents()) + data
    }

    /** `setBytes` at the writer index, room being there: the buffers share no byte, so nobody else
        notices. */
    method Append(b: PoolByteBuf, data: seq<Byte>)
      requires Valid() && b in Buffers() && b.writerIndex + |data| <= b.length
      modifies b, b.memory
      ensures Valid() && Appended(b, data) && OthersKept(b) && b.length == old(b.length)
    {
      hide PoolArena.Wired, PoolArena.Boxes, Arena.Inv, Wiring, PoolByteBuf.Contents;
      AllValid({});
      forall a | a in Buffers() && a != b ensures Separate(SpanOf(b), SpanOf(a)) {
        BuffersSeparate(arena.State(), Memories(), tokens, unpooled, {}, b, a);
      }
      b.Append(data);
      assert unchanged(arena) && unchanged(arena.Objects());
      forall a | a in Buffers() && a != b ensures SameContents(a) {
        a.BytesKept();
      }
      StillWired(b);
    }

    /** `writeBytes`: the bytes are appended, whether or not the buffer has to move for them, and every
        other buffer reads what it read before. */
    method WriteBytes(b: PoolByteBuf, data: seq<Byte>)
      requires Valid() && b in Buffers() && b.writerIndex + |data| <= b.maxCapacity
      modifies this, arena, arena.Objects(), b, b.memory, Arrays()
      ensures Valid() && Appended(b, data) && OthersKept(b) && Lengthened(b, |data|)
    {
      hide Wired, PoolArena.State, PoolByteBuf.Valid, PoolByteBuf.Contents;
      EnsureWritable(b, |data|);
      label Room:
      Append(b, data);
      assert OthersKept@Room(b) && Appended@Room(b, data);
    }

    // ---------------------------------------------------------------- a buffer comes and goes

    /** `poolBuffer`: no buffer for nothing, otherwise an empty one with room for the capacity. */
    method PoolBuffer(initCapacity: nat, maxCapacity: nat) returns (r: Option<PoolByteBuf>)
      requires Valid() && initCapacity <= maxCapacity
      modifies this, arena, arena.Objects()
      ensures Valid() && (r.None? <==> maxCapacity == 0)
      ensures r.None? ==> AllKept()
      ensures r.Some? ==>
        && fresh(r.value) && Buffers() == old(Buffers()) + {r.value} && r.value.maxCapacity == maxCapacity
        && r.value.Valid() && r.value.Contents() == [] && r.value.length == Length(initCapacity) && ReadsSame()
    {
      hide Wired, Length, PoolArena.Objects, PoolByteBuf.Valid, PoolByteBuf.Contents, ReadsSame;
      AllValid({});
      Untouched();
      if initCapacity == 0 && maxCapacity == 0 {
        return None;
      }
      var b := NewBuffer(initCapacity, maxCapacity);
      r := Some(b);
    }

    method NewBuffer(initCapacity: nat, maxCapacity: nat) returns (b: PoolByteBuf)
      requires Valid() && initCapacity <= maxCapacity
      modifies this, arena, arena.Objects()
      ensures Valid() && fresh(b) && Buffers() == old(Buffers()) + {b} && b.maxCapacity == maxCapacity
      ensures b.Valid() && b.Contents() == [] && b.length == Length(initCapacity) && ReadsSame()
    {
      hide PoolArena.Valid, PoolArena.State, Live, IsSpan, Wiring, PoolByteBuf.Contents;
      var y, g := NewRegion(initCapacity);
      label Given:
      b := new PoolByteBuf(g, maxCapacity);
      assert unchanged@Given(arena) && unchanged@Given(arena.Objects());
      Adopt(b, y);
    }

    /** A new buffer enters the table. */
    method Adopt(b: PoolByteBuf, y: Option<nat>)
      requires Wired(GivenTo(y)) && b !in Buffers() && b.Valid()
      requires if y.Some? then OnRegion(arena.State(), Memories(), b, y.value)
               else OnItsOwn(Memories(), b) && forall a | a in Buffers() :: a.memory != b.memory
      modifies this
      ensures Valid() && Buffers() == old(Buffers()) + {b}
    {
      hide PoolArena.Wired, PoolArena.Boxes, Arena.Inv, Live, Wiring, OnRegion, OnItsOwn;
      ghost var s, mem := arena.State(), Memories();
      if y.Some? {
        WirePooled(s, mem, tokens, unpooled, {y.value}, b, y.value);
        tokens := tokens[b := y.value];
        assert {y.value} - {y.value} == {};
      } else {
        WireUnpooled(s, mem, tokens, unpooled, {}, b);
        unpooled := unpooled + {b};
      }
      assert unchanged(arena) && unchanged(arena.Objects());
    }

    /** The buffer's region goes back; it is nobody's buffer any more. */
    method Deallocate(b: PoolByteBuf)
      requires Valid() && b in Buffers()
      modifies this, arena, arena.Objects()
      ensures Valid() && Buffers() == old(Buffers()) - {b}
      ensures ReadsSame()
      ensures old(b in tokens) ==> InQueue(old(arena.queues), old(b.maxLength), old(tokens[b]))
    {
      hide Wired, Arrays, InQueue, LiveOf, PoolByteBuf.Valid, PoolByteBuf.Contents;
      var x := Drop(b);
      GiveBack(x, true, b.maxLength);
    }

    method Drop(b: PoolByteBuf) returns (x: Option<nat>)
      requires Valid() && b in Buffers()
      modifies this
      ensures Wired(GivenTo(x)) && LiveOf(x, old(b.maxLength))
      ensures x == if b in old(tokens) then Some(old(tokens[b])) else None
      ensures Buffers() == old(Buffers()) - {b} && ReadsSame()
    {
      hide PoolArena.Wired, PoolArena.Boxes, Arena.Inv, Live, Wiring, OnRegion, OnItsOwn, OfSize;
      AllValid({});
      x := if b in tokens then Some(tokens[b]) else None;
      WiredBuffer(arena.State(), Memories(), tokens, unpooled, {}, b);
      Unwire(arena.State(), Memories(), tokens, unpooled, {}, b);
      tokens, unpooled := tokens - {b}, unpooled - {b};
      assert {} + GivenTo(x) == GivenTo(x);
      assert unchanged(arena) && unchanged(arena.Objects());
    }
  }
}
