/** Every run of the arena: from the empty arena, through any sequence of moves. */
module ArenaRuns {
  import opened Powers
  import opened PageClasses
  import opened Runs
  import opened Handles
  import opened ChunkLists
  import opened ArenaState
  import opened ArenaSteps
  import opened ArenaOps
  import opened ArenaSafety

  /** One move of an arena operation.  An allocation is a pop from the cache, an element from a pool,
      or room from a chunk, old or new; a release is a push to the cache or a return to the chunk;
      a trim pops and returns; a reallocation is an allocation and a release. */
  datatype Move =
    | Pooled(k: nat, x: nat)
    | Normal(c: nat, l: Layout, h: Handle, x: nat)
    | Carved(c: nat, l: Layout, run: Run, k: nat, elems: nat, x: nat)
    | NewChunk(c: nat)
    | ToCache(k: nat, x: nat)
    | FromCache(k: nat)
    | Returned(x: nat, l: Layout)

  ghost predicate Step(s: Arena, m: Move, s': Arena)
    requires s.Inv()
  {
    match m
    case Pooled(k, x) => AllocPooled(s, k, x, s')
    case Normal(c, l, h, x) => AllocNormal(s, c, l, h, x, s')
    case Carved(c, l, run, k, elems, x) => AllocSubpage(s, c, l, run, k, elems, x, s')
    case NewChunk(c) => c !in s.chunks && s' == AddChunk(s, c)
    case ToCache(k, x) => CanEnqueue(s, k, x) && s' == Enqueue(s, k, x)
    case FromCache(k) => k < |s.queues| && s.queues[k] != [] && s' == Dequeue(s, k)
    case Returned(x, l) => Release(s, x, l, s')
  }

  lemma AddChunkInv(s: Arena, c: nat)
    requires s.Inv() && c !in s.chunks
    ensures AddChunk(s, c).Inv()
  {
    hide Arena.SubsOk, Arena.HeldOk, Arena.Exclusive, Arena.NoLeak, Arena.PoolsOk, Arena.PoolsComplete, Arena.QueuesOk,
      Arena.ChunksOk, Arena.ListsShape, Fresh;
    AddChunkCore(s, c);
    AddChunkBanded(s, c);
    OthersBanded(s, AddChunk(s, c), c);
    forall d | d in AddChunk(s, c).chunks ensures AddChunk(s, c).Banded(d) {
    }
  }

  lemma AddChunkBanded(s: Arena, c: nat)
    requires s.Configured()
    ensures AddChunk(s, c).Banded(c)
  {
    FreshIsConserved(Pow2(s.maxOrder));
    BandsOverlap(s.ChunkSize());
    hide Fresh;
    var s' := AddChunk(s, c);
    assert s'.FreeBytes(c) == s'.ChunkSize();
  }

  /** Every move keeps the whole invariant. */
  lemma StepInv(s: Arena, m: Move, s': Arena)
    requires s.Inv() && Step(s, m, s')
    ensures s'.Inv()
  {
    match m {
      case Pooled(k, x) => AllocPooledInv(s, k, x, s');
      case Normal(c, l, h, x) => AllocNormalInv(s, c, l, h, x, s');
      case Carved(c, l, run, k, elems, x) => AllocSubpageInv(s, c, l, run, k, elems, x, s');
      case NewChunk(c) => AddChunkInv(s, c);
      case ToCache(k, x) =>
        EnqueueCore(s, k, x);
        SameChunks(s, s');
      case FromCache(k) =>
        DequeueCore(s, k);
        SameChunks(s, s');
      case Returned(x, l) => ReleaseInv(s, x, l, s');
    }
  }

  /** A run: states, and the move taken out of each but the last. */
  ghost predicate IsRun(states: seq<Arena>, moves: seq<Move>) {
    && |states| == |moves| + 1
    && (exists p, o, n ::
          ValidConfig(p, o) && ChunkSizeOk(Shl(Pow2(o), p)) && states[0] == Empty(p, o, n))
    && (forall i | 0 <= i < |moves| :: states[i].Inv() ==> Step(states[i], moves[i], states[i + 1]))
  }

  lemma {:induction false} RunInv(states: seq<Arena>, moves: seq<Move>, i: nat)
    requires IsRun(states, moves) && i < |states|
    ensures states[i].Inv()
  {
    if i == 0 {
      var p, o, n :| ValidConfig(p, o) && ChunkSizeOk(Shl(Pow2(o), p)) && states[0] == Empty(p, o, n);
      EmptyInv(p, o, n);
    } else {
      RunInv(states, moves, i - 1);
      StepInv(states[i - 1], moves[i - 1], states[i]);
    }
  }

  /** Memory safety over every run: at any moment, any two regions that are held -- by live buffers
      or by the thread cache -- lie in existing chunks, inside them, and share no byte. */
  lemma RunSafety(states: seq<Arena>, moves: seq<Move>, i: nat, x: nat, y: nat)
    requires IsRun(states, moves) && i < |states| && x in states[i].held && y in states[i].held && x != y
    ensures states[i].Inv() && states[i].held[x].chunk in states[i].chunks
    ensures var b := RegionBytes(states[i], states[i].held[x]); 0 <= b.start <= b.end <= states[i].ChunkSize()
    ensures states[i].held[x].chunk == states[i].held[y].chunk ==>
      DisjointBytes(RegionBytes(states[i], states[i].held[x]), RegionBytes(states[i], states[i].held[y]))
  {
    RunInv(states, moves, i);
    HeldRegionInChunk(states[i], x);
    HeldChunkInUse(states[i], x);
    if states[i].held[x].chunk == states[i].held[y].chunk {
      HeldRegionsDisjoint(states[i], x, y);
    }
  }

  /** A chunk leaves the arena only when no buffer and no cached entry refers to it. */
  lemma DestroyedChunkUnused(s: Arena, m: Move, s': Arena, c: nat)
    requires s.Inv() && Step(s, m, s') && c in s.chunks && c !in s'.chunks
    ensures forall y | y in s'.held :: s'.held[y].chunk != c
    ensures forall p | p in s'.subs :: p.chunk != c
  {
    StepInv(s, m, s');
    forall y | y in s'.held ensures s'.held[y].chunk != c {
      assert s'.LiveRegion(s'.held[y]);
    }
  }

  /** No move touches a region but the one it hands out or takes back: whoever keeps a token keeps
      the same bytes of the same chunk. */
  lemma StepKeepsRegions(s: Arena, m: Move, s': Arena, y: nat)
    requires s.Inv() && Step(s, m, s') && y in s.held && y in s'.held
    ensures s'.held[y] == s.held[y] && s'.LiveRegion(s'.held[y]) && s.LiveRegion(s.held[y])
    ensures RegionBytes(s', s'.held[y]) == RegionBytes(s, s.held[y])
  {
    hide Step, RegionBytes, Arena.LiveRegion, Arena.SubsOk, Arena.Exclusive, Arena.NoLeak, Arena.PoolsOk,
      Arena.PoolsComplete, Arena.QueuesOk, Arena.ChunksOk, Arena.ListsShape, Arena.ListsBounds, Arena.OneIdle;
    StepInv(s, m, s');
    HeldUnchanged(s, m, s', y);
    ElemSizeKept(s, m, s', s.held[y].At());
    assert s.LiveRegion(s.held[y]) && s'.LiveRegion(s.held[y]);
    SameBytes(s, s', s.held[y]);
  }

  lemma SameBytes(s: Arena, s': Arena, r: Region)
    requires s.LiveRegion(r) && s'.LiveRegion(r) && s'.pageShifts == s.pageShifts
    requires r.At() in s.subs && r.At() in s'.subs ==> s'.subs[r.At()].elemSize == s.subs[r.At()].elemSize
    ensures r.handle.subpage ==> r.At() in s.subs && r.At() in s'.subs
    ensures RegionBytes(s', r) == RegionBytes(s, r)
  {
  }

  lemma HeldUnchanged(s: Arena, m: Move, s': Arena, y: nat)
    requires s.Inv() && Step(s, m, s') && y in s.held && y in s'.held
    ensures s'.held[y] == s.held[y]
  {
    hide Arena.SubsOk, Arena.HeldOk, Arena.Exclusive, Arena.NoLeak, Arena.PoolsOk, Arena.PoolsComplete, Arena.QueuesOk,
      Arena.ChunksOk, Arena.ListsShape, Arena.ListsBounds, Arena.OneIdle, SettleUp, SettleDown, Freed;
  }

  lemma ElemSizeKept(s: Arena, m: Move, s': Arena, p: Place)
    requires s.Inv() && Step(s, m, s')
    ensures s'.pageShifts == s.pageShifts
    ensures p in s.subs && p in s'.subs ==> s'.subs[p].elemSize == s.subs[p].elemSize
  {
    hide Arena.HeldOk, Arena.Exclusive, Arena.NoLeak, Arena.PoolsOk, Arena.PoolsComplete, Arena.QueuesOk,
      Arena.ChunksOk, Arena.ListsShape, Arena.ListsBounds, Arena.OneIdle, SettleUp, SettleDown, Freed, CanFree;
    if m.Carved? {
      NewPlace(s, m.c, m.l, m.run);
    }
  }

  // ---------------------------------------------------------------- subpages of a single element

  ghost predicate SingleAt(s: Arena, p: Place) {
    p in s.subs && s.subs[p].maxElems == 1
  }

  /** A full subpage given back its only element is kept before the test for release is reached. */
  lemma SingleIsKept(s: Arena, x: nat)
    requires s.Core() && CanReturnElem(s, x) && SingleAt(s, s.held[x].At())
    ensures !Releases(s, x)
  {
    hide Arena.SubsOk, Arena.HeldOk, Arena.Exclusive, Arena.NoLeak, Arena.PoolsOk, Arena.PoolsComplete, Arena.QueuesOk,
      Arena.ChunksOk, Arena.ListsShape;
    ElemIsLive(s, x);
    var sub := s.subs[s.held[x].At()];
    assert sub.used == {s.held[x].handle.bitmapIdx} ==> sub.NumAvail() == 0;
  }

  lemma SingleAfterCarving(s: Arena, m: Move, s': Arena, p: Place)
    requires s.Inv() && Step(s, m, s') && m.Carved? && SingleAt(s, p)
    ensures SingleAt(s', p)
  {
    hide Arena.HeldOk, Arena.Exclusive, Arena.NoLeak, Arena.PoolsOk, Arena.PoolsComplete, Arena.QueuesOk,
      Arena.ChunksOk, Arena.ListsShape, Arena.ListsBounds, Arena.OneIdle, SettleUp;
    NewPlace(s, m.c, m.l, m.run);
  }

  lemma SingleAfterReturn(s: Arena, m: Move, s': Arena, p: Place)
    requires s.Inv() && Step(s, m, s') && m.Returned? && SingleAt(s, p)
    ensures SingleAt(s', p)
  {
    hide Arena.HeldOk, Arena.Exclusive, Arena.NoLeak, Arena.PoolsOk, Arena.PoolsComplete, Arena.QueuesOk,
      Arena.ChunksOk, Arena.ListsShape, Arena.ListsBounds, Arena.OneIdle, SettleDown, CanFree, Releases;
    if CanReturnElem(s, m.x) {
      ElemIsLive(s, m.x);
      if s.held[m.x].At() == p {
        SingleIsKept(s, m.x);
      }
    }
  }

  lemma SingleAfterOther(s: Arena, m: Move, s': Arena, p: Place)
    requires s.Inv() && Step(s, m, s') && !m.Carved? && !m.Returned? && SingleAt(s, p)
    ensures SingleAt(s', p)
  {
    hide Arena.HeldOk, Arena.Exclusive, Arena.NoLeak, Arena.PoolsOk, Arena.PoolsComplete, Arena.QueuesOk,
      Arena.ChunksOk, Arena.ListsShape, Arena.ListsBounds, Arena.OneIdle, SettleUp;
  }

  /** So no move ever releases it, nor destroys its chunk. */
  lemma SingleStays(s: Arena, m: Move, s': Arena, p: Place)
    requires s.Inv() && Step(s, m, s') && SingleAt(s, p)
    ensures SingleAt(s', p) && p.chunk in s'.chunks
  {
    hide Step, Arena.Inv, SingleAt;
    StepInv(s, m, s');
    if m.Carved? {
      SingleAfterCarving(s, m, s', p);
    } else if m.Returned? {
      SingleAfterReturn(s, m, s', p);
    } else {
      SingleAfterOther(s, m, s', p);
    }
    SingleInChunk(s', p);
  }

  lemma SingleInChunk(s: Arena, p: Place)
    requires s.Inv() && SingleAt(s, p)
    ensures p.chunk in s.chunks
  {
  }

  lemma StepOf(states: seq<Arena>, moves: seq<Move>, j: nat)
    requires IsRun(states, moves) && j < |moves|
    ensures states[j].Inv() && Step(states[j], moves[j], states[j + 1])
  {
    hide Step, Arena.Inv;
    RunInv(states, moves, j);
  }

  /** Over every run: the chunk of a subpage of one element is in the arena for good, whether or not
      anything in it is still held. */
  lemma {:induction false} SingleForever(states: seq<Arena>, moves: seq<Move>, i: nat, j: nat, p: Place)
    requires IsRun(states, moves) && i <= j < |states| && SingleAt(states[i], p)
    ensures SingleAt(states[j], p) && p.chunk in states[j].chunks
    decreases j
  {
    hide Step, Arena.Inv, SingleAt;
    if i < j {
      SingleForever(states, moves, i, j - 1, p);
      StepOf(states, moves, j - 1);
      SingleStays(states[j - 1], moves[j - 1], states[j], p);
    } else {
      RunInv(states, moves, j);
      SingleInChunk(states[j], p);
    }
  }
}
