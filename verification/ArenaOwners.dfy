/** Ownership across moves: which tokens belong to live buffers, and that no move touches the region
    of a buffer it does not hand out or take back. */
module ArenaOwners {
  import opened ArenaState
  import opened ArenaSteps
  import opened ArenaOps
  import opened ArenaSafety
  import opened ArenaRuns

  /** The token of a buffer in use: held, and not waiting in the thread cache. */
  ghost predicate Live(s: Arena, x: nat) {
    x in s.held && !s.Cached(x)
  }

  /** The token a move gives to a buffer. */
  function GivenBy(s: Arena, m: Move): set<nat> {
    match m
    case Pooled(_, y) => {y}
    case Normal(_, _, _, y) => {y}
    case Carved(_, _, _, _, _, y) => {y}
    case FromCache(k) => if k < |s.queues| && s.queues[k] != [] then {s.queues[k][0]} else {}
    case _ => {}
  }

  /** The token a move takes from a buffer. */
  function TakenBy(m: Move): set<nat> {
    match m
    case ToCache(_, y) => {y}
    case Returned(y, _) => {y}
    case _ => {}
  }

  /** The ledger: after any move the live buffers are those before it, less the one it took, plus the
      one it gave; and what it gave was nobody's. */
  lemma StepLedger(s: Arena, m: Move, s': Arena, y: nat)
    requires s.Inv() && Step(s, m, s')
    ensures Live(s', y) <==> (Live(s, y) && y !in TakenBy(m)) || y in GivenBy(s, m)
    ensures y in GivenBy(s, m) ==> !Live(s, y)
    ensures y in TakenBy(m) ==> Live(s, y)
  {
    hide Arena.SubsOk, Arena.HeldOk, Arena.Exclusive, Arena.NoLeak, Arena.PoolsOk, Arena.PoolsComplete,
      Arena.ChunksOk, Arena.ListsShape, Arena.ListsBounds, Arena.OneIdle, SettleUp, SettleDown, Freed;
    match m {
      case ToCache(k, x) => QueuedAfterEnqueue(s, k, x, y);
      case FromCache(k) => QueuedAfterDequeue(s, k, y);
      case _ => SameQueues(s, m, s', y);
    }
  }

  lemma SameQueues(s: Arena, m: Move, s': Arena, y: nat)
    requires s.Inv() && Step(s, m, s') && !m.ToCache? && !m.FromCache?
    ensures s'.queues == s.queues && (s'.Cached(y) <==> s.Cached(y)) && (s.Cached(y) ==> y in s.held)
    ensures y in s'.held <==> (y in s.held && y !in TakenBy(m)) || y in GivenBy(s, m)
  {
    hide Arena.Core, SettleUp, SettleDown, Freed, Relist, AddSub, TakeElem, TakeRun;
    CachedIsHeld(s, y);
    HeldAfter(s, m, s');
  }

  lemma CachedIsHeld(s: Arena, y: nat)
    requires s.Inv()
    ensures s.Cached(y) ==> y in s.held
  {
    hide Arena.SubsOk, Arena.HeldOk, Arena.Exclusive, Arena.NoLeak, Arena.PoolsOk, Arena.PoolsComplete,
      Arena.ChunksOk, Arena.ListsShape, Arena.ListsBounds, Arena.OneIdle;
  }

  /** The tokens held after a move that is no business of the thread cache. */
  lemma HeldAfter(s: Arena, m: Move, s': Arena)
    requires s.Inv() && Step(s, m, s') && !m.ToCache? && !m.FromCache?
    ensures s'.queues == s.queues && s'.held.Keys == s.held.Keys - TakenBy(m) + GivenBy(s, m)
  {
    hide Arena.SubsOk, Arena.HeldOk, Arena.Exclusive, Arena.NoLeak, Arena.PoolsOk, Arena.PoolsComplete,
      Arena.ChunksOk, Arena.ListsShape, Arena.ListsBounds, Arena.OneIdle, Arena.QueuesOk, SettleUp, SettleDown, Freed;
    if m.Returned? { FreedQueues(s, m.x, m.l); }
  }

  lemma QueuedAfterEnqueue(s: Arena, k: nat, x: nat, y: nat)
    requires CanEnqueue(s, k, x)
    ensures Enqueue(s, k, x).Cached(y) <==> s.Cached(y) || y == x
  {
    var s' := Enqueue(s, k, x);
    assert x in s'.queues[k];
    if s.Cached(y) {
      var j :| 0 <= j < |s.queues| && y in s.queues[j];
      assert y in s'.queues[j];
    }
  }

  lemma QueuedAfterDequeue(s: Arena, k: nat, y: nat)
    requires s.Core() && k < |s.queues| && s.queues[k] != []
    ensures Dequeue(s, k).Cached(y) <==> s.Cached(y) && y != s.queues[k][0]
    ensures s.Cached(s.queues[k][0]) && s.queues[k][0] in s.held
  {
    hide Arena.SubsOk, Arena.HeldOk, Arena.Exclusive, Arena.NoLeak, Arena.PoolsOk, Arena.PoolsComplete,
      Arena.ChunksOk, Arena.ListsShape, Arena.QueuesOk;
    var s' := Dequeue(s, k);
    DequeueCore(s, k);
    assert s.queues[k][0] in s.queues[k];
    assert s.queues[k] == [s.queues[k][0]] + s'.queues[k];
    if s.Cached(y) && y != s.queues[k][0] {
      var j :| 0 <= j < |s.queues| && y in s.queues[j];
      assert y in s'.queues[j];
    }
  }

  // ---------------------------------------------------------------- whole operations

  /** Buffer `y` still has the same bytes of the same chunk. */
  ghost predicate SameRegion(s: Arena, s': Arena, y: nat) {
    && y in s.held && y in s'.held && s'.held[y] == s.held[y]
    && s.LiveRegion(s.held[y]) && s'.LiveRegion(s'.held[y])
    && RegionBytes(s', s'.held[y]) == RegionBytes(s, s.held[y])
  }

  /** An operation gives `given` to buffers, takes `taken` from them, and leaves every other live
      buffer its region. */
  ghost predicate Operation(s: Arena, given: set<nat>, taken: set<nat>, s': Arena) {
    && s.Inv() && s'.Inv()
    && (forall y :: Live(s', y) <==> (Live(s, y) && y !in taken) || y in given)
    && (forall y | y in given :: !Live(s, y))
    && (forall y | Live(s, y) && y !in taken :: SameRegion(s, s', y))
  }

  lemma StepIsOperation(s: Arena, m: Move, s': Arena)
    requires s.Inv() && Step(s, m, s')
    ensures Operation(s, GivenBy(s, m), TakenBy(m), s')
  {
    hide Step, Arena.Inv, Live, GivenBy, TakenBy, SameRegion;
    StepInv(s, m, s');
    forall y ensures Live(s', y) <==> (Live(s, y) && y !in TakenBy(m)) || y in GivenBy(s, m)
             ensures y in GivenBy(s, m) ==> !Live(s, y)
    {
      StepLedger(s, m, s', y);
    }
    forall y | Live(s, y) && y !in TakenBy(m) ensures SameRegion(s, s', y) {
      KeeperKeeps(s, m, s', y);
    }
  }

  lemma KeeperKeeps(s: Arena, m: Move, s': Arena, y: nat)
    requires s.Inv() && Step(s, m, s') && Live(s, y) && y !in TakenBy(m)
    ensures SameRegion(s, s', y)
  {
    hide Step, Arena.Inv, Arena.LiveRegion, RegionBytes, Arena.Cached, TakenBy, GivenBy;
    StepLedger(s, m, s', y);
    StepKeepsRegions(s, m, s', y);
  }

  /** Operations chain; what the first gave the second may take back. */
  lemma Chain(s: Arena, g1: set<nat>, t1: set<nat>, s1: Arena, g2: set<nat>, t2: set<nat>, s2: Arena)
    requires Operation(s, g1, t1, s1) && Operation(s1, g2, t2, s2)
    requires g2 !! t1
    ensures Operation(s, (g1 - t2) + g2, (t1 + t2) - g1, s2)
  {
    hide Arena.Inv, Arena.Cached, Arena.LiveRegion, RegionBytes, Live;
  }

  lemma Nothing(s: Arena)
    requires s.Inv()
    ensures Operation(s, {}, {}, s)
  {
    hide Arena.SubsOk, Arena.Exclusive, Arena.NoLeak, Arena.PoolsOk, Arena.PoolsComplete, Arena.LiveRegion, RegionBytes,
      Arena.ChunksOk, Arena.ListsShape, Arena.ListsBounds, Arena.OneIdle, Arena.QueuesOk;
    forall y | Live(s, y) ensures SameRegion(s, s, y) {
      assert s.LiveRegion(s.held[y]);
    }
  }
}
