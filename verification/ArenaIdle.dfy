/** What an arena keeps although nobody holds it: subpages of one element, and with them their chunks. */
module ArenaIdle {
  import opened Powers
  import opened ClassMath
  import opened PageClasses
  import opened Runs
  import opened RunSizing
  import opened Subpages
  import opened ChunkLists
  import opened ArenaState
  import opened ArenaSteps
  import opened ArenaOps
  import opened ArenaRuns
  import ArenaSafety

  // ---------------------------------------------------------------- which requests

  /** A subpage has one element exactly if its class, whatever the configuration, is whole pages. */
  lemma SingleIff(s: Arena, p: Place)
    requires s.Inv() && p in s.subs
    ensures SingleAt(s, p) <==> SizeOf(ClassOf(s.subs[p])) % Pow2(s.pageShifts) == 0
  {
    hide Arena.HeldOk, Arena.Exclusive, Arena.NoLeak, Arena.PoolsOk, Arena.PoolsComplete, Arena.QueuesOk,
      Arena.ChunksOk, Arena.ListsShape, Arena.ListsBounds, Arena.OneIdle, SizeOf, ClassOf, NeedsPages;
    var sub := s.subs[p];
    assert s.SubOk(sub);
    SingleRun(s.pageShifts, ClassOf(sub), sub.run.pages, sub.maxElems);
  }

  lemma SingleRun(p: nat, k: nat, pages: nat, elems: nat)
    requires 12 <= p && k <= SmallMaxSizeIdx(p) && NeedsPages(p, k, pages)
    requires elems * SizeOf(k) == Shl(pages, p)
    ensures elems == 1 <==> SizeOf(k) % Pow2(p) == 0
  {
    hide NeedsPages, Pow2, ClassSize;
    ShlIsProduct(pages, p);
    OneElementIff(p, k, pages);
    if elems * SizeOf(k) == SizeOf(k) {
      if elems < 1 { ScaleOrder(elems, 1, SizeOf(k)); } else if 1 < elems { ScaleOrder(1, elems, SizeOf(k)); }
    }
  }

  /** Another subpage of the class is in its pool. */
  ghost predicate NotAlone(s: Arena, p: Place)
    requires p in s.subs
  {
    ClassOf(s.subs[p]) < |s.pools| && exists q :: q in s.pools[ClassOf(s.subs[p])] && q != p
  }

  /** When its last taken element comes back and it is not alone in its pool, a subpage is released
      exactly if its class is not whole pages. */
  lemma LastReturnReleasesIff(s: Arena, x: nat)
    requires s.Inv() && CanReturnElem(s, x) && s.held[x].At() in s.subs
    requires s.subs[s.held[x].At()].used == {s.held[x].handle.bitmapIdx} && NotAlone(s, s.held[x].At())
    ensures Releases(s, x) <==> SizeOf(ClassOf(s.subs[s.held[x].At()])) % Pow2(s.pageShifts) != 0
  {
    hide Arena.HeldOk, Arena.Exclusive, Arena.NoLeak, Arena.PoolsOk, Arena.QueuesOk, Arena.ChunksOk, Arena.ListsShape,
      Arena.ListsBounds, Arena.OneIdle, Arena.SubsOk, SizeOf, ClassOf;
    ElemIsLive(s, x);
    var p := s.held[x].At();
    SingleIff(s, p);
    var q :| q in s.pools[ClassOf(s.subs[p])] && q != p;
    if s.subs[p].maxElems != 1 {
      assert p in s.pools[ClassOf(s.subs[p])];
    }
  }

  // ---------------------------------------------------------------- chunks nobody uses

  /** A chunk nobody holds anything of is wholly free exactly if no subpage is left on it. */
  lemma UnusedChunk(s: Arena, c: nat)
    requires s.Inv() && c in s.chunks && forall x | x in s.held :: s.held[x].chunk != c
    ensures s.FreeBytes(c) == s.ChunkSize() <==> forall p | p in s.subs :: p.chunk != c
  {
    ArenaSafety.LiveCosts(s, c);
    hide Arena.HeldOk, Arena.Exclusive, Arena.PoolsOk, Arena.PoolsComplete, Arena.QueuesOk,
      Arena.ListsShape, Arena.ListsBounds, Arena.OneIdle, Arena.FreeBytes, Arena.SubOk;
    forall r | r in s.chunks[c].layout.live ensures Place(c, r.offset) in s.subs {
      assert !s.HeldUnit(Unit(Place(c, r.offset), -1));
    }
  }

  /** From the moment a small request of whole pages is served from a chunk, that chunk is in the
      arena for good. */
  lemma WholePagesPin(states: seq<Arena>, moves: seq<Move>, i: nat, j: nat)
    requires IsRun(states, moves) && i < j < |states| && moves[i].Carved?
    requires states[i].Inv() && SizeOf(moves[i].k) % Pow2(states[i].pageShifts) == 0
    ensures moves[i].c in states[j].chunks
  {
    hide Arena.Inv, Step, SizeOf;
    StepOf(states, moves, i);
    RunInv(states, moves, i + 1);
    CarvedPlace(states[i], moves[i], states[i + 1]);
    var p := Place(moves[i].c, moves[i].run.offset);
    SingleIff(states[i + 1], p);
    SingleForever(states, moves, i + 1, j, p);
  }

  lemma CarvedPlace(s: Arena, m: Move, s': Arena)
    requires s.Inv() && Step(s, m, s') && m.Carved?
    ensures var p := Place(m.c, m.run.offset);
      p in s'.subs && ClassOf(s'.subs[p]) == m.k && s'.pageShifts == s.pageShifts
  {
    hide Arena.SubsOk, Arena.HeldOk, Arena.Exclusive, Arena.NoLeak, Arena.PoolsOk, Arena.PoolsComplete, Arena.QueuesOk,
      Arena.ChunksOk, Arena.ListsShape, Arena.ListsBounds, Arena.OneIdle, SettleUp, Take;
    LeastClassOfClass(QUANTUM, m.k);
    TakeKeepsSize(New(m.run, SizeOf(m.k), m.elems));
  }

  lemma TakeKeepsSize(sub: Subpage)
    ensures Take(sub).elemSize == sub.elemSize && Take(sub).maxElems == sub.maxElems && Take(sub).run == sub.run
  {
  }

  // ---------------------------------------------------------------- it happens in every configuration

  /** The class of one page. */
  function PageClass(p: nat): nat
    requires 12 <= p
  {
    4 * (p - 6) + 3
  }

  lemma PageClassIs(p: nat)
    requires 12 <= p
    ensures SizeOf(PageClass(p)) == Pow2(p) && SizeOf(PageClass(p)) % Pow2(p) == 0
    ensures PageClass(p) <= SmallMaxSizeIdx(p) && NeedsPages(p, PageClass(p), 1)
    ensures 1 * SizeOf(PageClass(p)) == Shl(1, p)
  {
    ClassSizeFactored(QUANTUM, p - 6, 3);
    Pow2Thrice(p);
    hide ClassSize, NeedsPages;
    DivMul(1, Pow2(p));
    ShlIsProduct(1, p);
    WholePagesNeed(p, PageClass(p), 1);
  }

  lemma FirstPageOf(total: nat)
    requires 0 < total
    ensures Run(0, total) in Fresh(total).free
    ensures var l := Carve(Fresh(total), Run(0, total), 1);
      l.Valid() && Conserved(l) && l.total == total && l.live == {Run(0, 1)}
  {
    FreshIsValid(total);
    FreshIsConserved(total);
    CarveIsValid(Fresh(total), Run(0, total), 1);
    CarveConserves(Fresh(total), Run(0, total), 1);
  }

  /** A new arena with one chunk can carve a page for a request of one page. */
  lemma CanCarvePage(s: Arena)
    requires s.Configured() && 0 in s.chunks && s.chunks[0].layout == Fresh(Pow2(s.maxOrder))
    ensures Run(0, Pow2(s.maxOrder)) in Fresh(Pow2(s.maxOrder)).free
    ensures CanAddSub(s, 0, Carve(Fresh(Pow2(s.maxOrder)), Run(0, Pow2(s.maxOrder)), 1), Run(0, 1),
                      PageClass(s.pageShifts), 1)
  {
    FirstPageOf(Pow2(s.maxOrder));
    PageClassIs(s.pageShifts);
    hide Layout.Valid, Conserved, NeedsPages, SizeOf, Fresh, Carve;
  }

  /** Serving it and taking it back leaves nothing held, but the subpage and its chunk. */
  lemma PageServed(s1: Arena, s2: Arena, l: Layout)
    requires s1.Inv() && s1.held == map[] && (forall k | 0 <= k < |s1.queues| :: s1.queues[k] == [])
    requires AllocSubpage(s1, 0, l, Run(0, 1), PageClass(s1.pageShifts), 1, 0, s2)
    ensures s2.held.Keys == {0} && s2.held[0].handle.subpage && s2.held[0].At() == Place(0, 0)
    ensures SingleAt(s2, Place(0, 0)) && s2.queues == s1.queues
  {
    hide Arena.SubsOk, Arena.HeldOk, Arena.Exclusive, Arena.NoLeak, Arena.PoolsOk, Arena.PoolsComplete, Arena.QueuesOk,
      Arena.ChunksOk, Arena.ListsShape, Arena.ListsBounds, Arena.OneIdle, SizeOf, NextAvail;
  }

  lemma PageReturned(s2: Arena, l: Layout) returns (s3: Arena)
    requires s2.Inv() && s2.held.Keys == {0} && s2.held[0].handle.subpage && s2.held[0].At() == Place(0, 0)
    requires SingleAt(s2, Place(0, 0)) && forall k | 0 <= k < |s2.queues| :: s2.queues[k] == []
    ensures Step(s2, Returned(0, l), s3) && s3.held == map[]
  {
    hide Arena.SubsOk, Arena.HeldOk, Arena.Exclusive, Arena.NoLeak, Arena.PoolsOk, Arena.PoolsComplete, Arena.QueuesOk,
      Arena.ChunksOk, Arena.ListsShape, Arena.ListsBounds, Arena.OneIdle, SettleDown, Freed, Releases;
    SingleIsKept(s2, 0);
    s3 := SettleDown(Freed(s2, 0, l), s2.held[0].chunk);
    assert s3.held == s2.held - {0};
  }

  /** A new arena with its first chunk. */
  lemma FirstChunk(p: nat, o: nat, n: nat) returns (s0: Arena, s1: Arena)
    requires ValidConfig(p, o) && ChunkSizeOk(Shl(Pow2(o), p))
    ensures s0 == Empty(p, o, n) && s0.Inv() && Step(s0, NewChunk(0), s1) && s1.Inv()
    ensures s1.Configured() && s1.pageShifts == p && s1.maxOrder == o && s1.held == map[]
    ensures 0 in s1.chunks && s1.chunks[0] == Chunk(Fresh(Pow2(o)), Q_INIT)
    ensures forall k | 0 <= k < |s1.pools| :: s1.pools[k] == []
    ensures forall k | 0 <= k < |s1.queues| :: s1.queues[k] == []
  {
    s0 := Empty(p, o, n);
    EmptyInv(p, o, n);
    hide Arena.SubsOk, Arena.HeldOk, Arena.Exclusive, Arena.NoLeak, Arena.PoolsOk, Arena.PoolsComplete, Arena.QueuesOk,
      Arena.ChunksOk, Arena.ListsShape, Arena.ListsBounds, Arena.OneIdle, Fresh;
    s1 := AddChunk(s0, 0);
    AddChunkInv(s0, 0);
  }

  lemma ServePage(s1: Arena, l: Layout) returns (s2: Arena)
    requires s1.Inv() && CanAddSub(s1, 0, l, Run(0, 1), PageClass(s1.pageShifts), 1) && s1.held == map[]
    requires s1.chunks[0].parent < |s1.lists| == BANDS && s1.pools[PageClass(s1.pageShifts)] == []
    ensures AllocSubpage(s1, 0, l, Run(0, 1), PageClass(s1.pageShifts), 1, 0, s2)
  {
    hide Arena.SubsOk, Arena.HeldOk, Arena.Exclusive, Arena.NoLeak, Arena.PoolsOk, Arena.PoolsComplete, Arena.QueuesOk,
      Arena.ChunksOk, Arena.ListsShape, Arena.ListsBounds, Arena.OneIdle, SettleUp, Take, SizeOf;
    var k := PageClass(s1.pageShifts);
    s2 := SettleUp(TakeElem(AddSub(s1, 0, l, Run(0, 1), k, 1), k, 0), 0);
  }

  /** One page for the first token, from chunk 0. */
  ghost predicate FirstPage(m: Move, p: nat) {
    m.Carved? && SizeOf(m.k) == Pow2(p) && m.c == 0 && m.run == Run(0, 1) && m.x == 0
  }

  lemma FirstServed(s1: Arena) returns (m: Move, s2: Arena)
    requires s1.Inv() && s1.Configured() && s1.held == map[] && 0 in s1.chunks
    requires s1.chunks[0] == Chunk(Fresh(Pow2(s1.maxOrder)), Q_INIT)
    requires forall k | 0 <= k < |s1.pools| :: s1.pools[k] == []
    requires forall k | 0 <= k < |s1.queues| :: s1.queues[k] == []
    ensures FirstPage(m, s1.pageShifts) && Step(s1, m, s2) && s2.Inv()
    ensures s2.held.Keys == {0} && s2.held[0].handle.subpage && s2.held[0].At() == Place(0, 0)
    ensures SingleAt(s2, Place(0, 0)) && forall k | 0 <= k < |s2.queues| :: s2.queues[k] == []
  {
    PageClassIs(s1.pageShifts);
    CanCarvePage(s1);
    hide Arena.Inv, Fresh, Carve, SizeOf, NeedsPages, SingleAt, Pow2, CanAddSub, AllocSubpage;
    var l := Carve(Fresh(Pow2(s1.maxOrder)), Run(0, Pow2(s1.maxOrder)), 1);
    s2 := ServePage(s1, l);
    PageServed(s1, s2, l);
    m := Carved(0, l, Run(0, 1), PageClass(s1.pageShifts), 1, 0);
    StepInv(s1, m, s2);
  }

  /** In every configuration, one page allocated and freed leaves an arena in which nothing is held and
      one chunk is kept, for good. */
  lemma IdleChunkExists(p: nat, o: nat, n: nat) returns (states: seq<Arena>, moves: seq<Move>)
    requires ValidConfig(p, o) && ChunkSizeOk(Shl(Pow2(o), p))
    ensures IsRun(states, moves) && |states| == 4 && states[0] == Empty(p, o, n)
    ensures FirstPage(moves[1], p) && moves[2].Returned? && moves[2].x == 0
    ensures states[3].held == map[] && SingleAt(states[3], Place(0, 0)) && 0 in states[3].chunks
  {
    hide Arena.Inv, Arena.Configured, Step, SingleAt, FirstPage, Fresh, Pow2, Shl, Region.At;
    var s0, s1 := FirstChunk(p, o, n);
    var m, s2 := FirstServed(s1);
    var back := Returned(0, Layout(0, {}, {}));
    var s3 := PageReturned(s2, back.l);
    SingleStays(s2, back, s3, Place(0, 0));
    states, moves := [s0, s1, s2, s3], [NewChunk(0), m, back];
    ThreeSteps(states, moves, p, o, n);
  }

  lemma ThreeSteps(states: seq<Arena>, moves: seq<Move>, p: nat, o: nat, n: nat)
    requires |states| == 4 && |moves| == 3
    requires ValidConfig(p, o) && ChunkSizeOk(Shl(Pow2(o), p)) && states[0] == Empty(p, o, n)
    requires states[0].Inv() && states[1].Inv() && states[2].Inv()
    requires Step(states[0], moves[0], states[1]) && Step(states[1], moves[1], states[2])
    requires Step(states[2], moves[2], states[3])
    ensures IsRun(states, moves)
  {
    hide Step, Arena.Inv;
  }
}
