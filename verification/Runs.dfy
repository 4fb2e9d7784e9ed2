/** The page layout of one pooled chunk.
    A chunk is a row of `total` pages.  Every page belongs to exactly one run, free or live,
    and no two free runs touch.  The layout is the abstract value of class `PoolChunk`;
    everything the chunk promises about memory is proved here once. */
module Runs {

  datatype Run = Run(offset: nat, pages: nat) {
    function End(): nat {
      offset + pages
    }

    predicate Has(page: int) {
      offset <= page < End()
    }

    predicate Overlaps(other: Run) {
      offset < other.End() && other.offset < End()
    }
  }

  datatype Layout = Layout(total: nat, free: set<Run>, live: set<Run>) {
    /** Some run holds page `q`. */
    ghost predicate Owned(q: int) {
      exists r :: r in free + live && r.Has(q)
    }

    /** Free and live runs partition the pages. */
    ghost predicate Tiled() {
      && free !! live
      && (forall r | r in free + live :: 0 < r.pages && r.End() <= total)
      && (forall a, b | a in free + live && b in free + live && a != b :: !a.Overlaps(b))
      && (forall q | 0 <= q < total :: Owned(q))
    }

    /** No two free runs are neighbours. */
    ghost predicate Coalesced() {
      forall a, b | a in free && b in free :: a.End() != b.offset
    }

    ghost predicate Valid() {
      Tiled() && Coalesced()
    }
  }

  function Fresh(total: nat): Layout {
    Layout(total, {Run(0, total)}, {})
  }

  // ---------------------------------------------------------------- the three moves

  /** `splitLargeRun`: the first `need` pages of free run `f` become live. */
  function Carve(l: Layout, f: Run, need: nat): Layout
    requires f in l.free && 0 < need <= f.pages
  {
    var rest := if need < f.pages then {Run(f.offset + need, f.pages - need)} else {};
    Layout(l.total, l.free - {f} + rest, l.live + {Run(f.offset, need)})
  }

  predicate Touch(a: Run, b: Run) {
    a.End() == b.offset || b.End() == a.offset
  }

  function Join(a: Run, b: Run): Run {
    Run(if a.offset < b.offset then a.offset else b.offset, a.pages + b.pages)
  }

  /** One round of `collapsePrev`/`collapseNext`: the run being freed, still counted as live,
      grows by the free neighbour `f`. */
  function Absorb(l: Layout, hand: Run, f: Run): Layout
    requires hand in l.live && f in l.free && Touch(hand, f)
  {
    Layout(l.total, l.free - {f}, l.live - {hand} + {Join(hand, f)})
  }

  /** The end of `free`: the grown run joins the free runs. */
  function Retire(l: Layout, hand: Run): Layout
    requires hand in l.live
  {
    Layout(l.total, l.free + {hand}, l.live - {hand})
  }

  lemma OwnedBy(l: Layout, r: Run, q: int)
    requires r in l.free + l.live && r.Has(q)
    ensures l.Owned(q)
  {
  }

  ghost function Owner(l: Layout, q: int): (r: Run)
    requires l.Tiled() && 0 <= q < l.total
    ensures r in l.free + l.live && r.Has(q)
  {
    assert l.Owned(q);
    var r :| r in l.free + l.live && r.Has(q);
    r
  }

  lemma FreshIsValid(total: nat)
    requires 0 < total
    ensures Fresh(total).Valid()
  {
    var l := Fresh(total);
    forall q | 0 <= q < total ensures l.Owned(q) {
      OwnedBy(l, Run(0, total), q);
    }
  }

  lemma CarveIsTiled(l: Layout, f: Run, need: nat)
    requires l.Tiled() && f in l.free && 0 < need <= f.pages
    ensures Carve(l, f, need).Tiled()
  {
    var l' := Carve(l, f, need);
    var head, tail := Run(f.offset, need), Run(f.offset + need, f.pages - need);
    assert f.Overlaps(f) && f.Overlaps(head) && (need < f.pages ==> f.Overlaps(tail));
    assert forall r | r in l'.free + l'.live ::
        r == head || (r == tail && need < f.pages) || (r in l.free + l.live && r != f);
    forall q | 0 <= q < l.total ensures l'.Owned(q) {
      var r := Owner(l, q);
      if r != f {
        OwnedBy(l', r, q);
      } else if q < f.offset + need {
        OwnedBy(l', head, q);
      } else {
        OwnedBy(l', tail, q);
      }
    }
  }

  lemma CarveIsValid(l: Layout, f: Run, need: nat)
    requires l.Valid() && f in l.free && 0 < need <= f.pages
    ensures Carve(l, f, need).Valid()
  {
    CarveIsTiled(l, f, need);
    forall a | a in l.free && a != f ensures a.End() != f.offset + need {
      assert !a.Overlaps(f);
    }
  }

  lemma AbsorbIsTiled(l: Layout, hand: Run, f: Run)
    requires l.Tiled() && hand in l.live && f in l.free && Touch(hand, f)
    ensures Absorb(l, hand, f).Tiled()
    ensures l.Coalesced() ==> Absorb(l, hand, f).Coalesced()
  {
    var l' := Absorb(l, hand, f);
    var j := Join(hand, f);
    assert forall r | r in l.free + l.live && r != hand && r != f :: !r.Overlaps(j);
    assert j !in l'.free by {
      assert j.Overlaps(hand);
      assert hand !in l.free;
    }
    assert forall r | r in l'.free + l'.live :: r == j || (r in l.free + l.live && r != hand && r != f);
    forall q | 0 <= q < l.total ensures l'.Owned(q) {
      var r := Owner(l, q);
      OwnedBy(l', if r == hand || r == f then j else r, q);
    }
  }

  lemma RetireIsValid(l: Layout, hand: Run)
    requires l.Valid() && hand in l.live
    requires forall f | f in l.free :: !Touch(hand, f)
    ensures Retire(l, hand).Valid()
  {
    var l' := Retire(l, hand);
    assert l'.free + l'.live == l.free + l.live;
    forall q | 0 <= q < l.total ensures l'.Owned(q) {
      OwnedBy(l', Owner(l, q), q);
    }
    assert hand.End() != hand.offset;
  }

  // ------------------------------------------------- the free list is a function of the live runs

  lemma FreeRunIn(l1: Layout, l2: Layout, a: Run)
    requires l1.Valid() && l2.Valid() && l1.total == l2.total && l1.live == l2.live
    requires a in l1.free
    ensures a in l2.free
  {
    var b := Owner(l2, a.offset);
    assert b in l2.free by {
      if b in l2.live { assert b.Overlaps(a) && b != a; }
    }
    SameStart(l1, l2, a, b);
    SameEnd(l1, l2, a, b);
  }

  lemma SameStart(l1: Layout, l2: Layout, a: Run, b: Run)
    requires l1.Valid() && l2.Valid() && l1.total == l2.total && l1.live == l2.live
    requires a in l1.free && b in l2.free && b.Has(a.offset)
    ensures a.offset == b.offset
  {
    if b.offset < a.offset {
      var c := Owner(l1, a.offset - 1);
      assert c in l1.live ==> c != b && c.Overlaps(b);
      assert false;
    }
  }

  lemma SameEnd(l1: Layout, l2: Layout, a: Run, b: Run)
    requires l1.Valid() && l2.Valid() && l1.total == l2.total && l1.live == l2.live
    requires a in l1.free && b in l2.free && a.offset == b.offset
    ensures a.pages == b.pages
  {
    if a.pages != b.pages {
      var (x, l, y, m) := if a.pages < b.pages then (a, l1, b, l2) else (b, l2, a, l1);
      var c := Owner(l, x.End());
      assert c in l.live ==> c in m.live && c != y && c.Overlaps(y);
      assert false;
    }
  }

  /** Whatever the history of splits and merges, two chunks with the same live runs have the
      same free runs: coalescing is maximal, so nothing about the past is left in the free list. */
  lemma FreeRunsAreDetermined(l1: Layout, l2: Layout)
    requires l1.Valid() && l2.Valid() && l1.total == l2.total && l1.live == l2.live
    ensures l1 == l2
  {
    forall a | a in l1.free ensures a in l2.free { FreeRunIn(l1, l2, a); }
    forall a | a in l2.free ensures a in l1.free { FreeRunIn(l2, l1, a); }
  }

  /** With nothing live there is one free run, the whole chunk. */
  lemma NothingLive(l: Layout)
    requires l.Valid() && l.live == {} && 0 < l.total
    ensures l.free == {Run(0, l.total)}
  {
    FreshIsValid(l.total);
    FreeRunsAreDetermined(l, Fresh(l.total));
  }

  // ---------------------------------------------------------------- counting pages

  ghost function Pages(s: set<Run>): (n: nat)
    ensures s != {} && (forall r | r in s :: 0 < r.pages) ==> 0 < n
  {
    if s == {} then 0 else var r :| r in s; r.pages + Pages(s - {r})
  }

  /** If a further run can become live, one free run contains it. */
  lemma FreeAround(l: Layout, l': Layout, r: Run) returns (f: Run)
    requires l.Valid() && l'.Valid() && l'.total == l.total && r !in l.live && l'.live == l.live + {r}
    ensures f in l.free && f.offset <= r.offset && r.End() <= f.End()
  {
    assert r in l'.free + l'.live;
    f := FreeOwner(l, l', r, r.offset);
    if f.End() < r.End() {
      var g := FreeOwner(l, l', r, f.End());
      assert false;
    }
  }

  /** Each of its pages was free. */
  lemma FreeOwner(l: Layout, l': Layout, r: Run, q: int) returns (f: Run)
    requires l.Valid() && l'.Valid() && l'.total == l.total && r !in l.live && l'.live == l.live + {r}
    requires r.offset <= q < r.End()
    ensures f in l.free && f.Has(q)
  {
    assert r in l'.free + l'.live;
    assert l.Owned(q);
    f :| f in l.free + l.live && f.Has(q);
    if f in l.live {
      assert f in l'.free + l'.live && f != r && f.Overlaps(r);
    }
  }

  lemma {:induction false} PagesOfAdded(s: set<Run>, r: Run)
    requires r !in s
    ensures Pages(s + {r}) == Pages(s) + r.pages
    decreases |s|
  {
    var t := s + {r};
    var x :| x in t && Pages(t) == x.pages + Pages(t - {x});
    if x == r {
      assert t - {x} == s;
    } else {
      assert t - {x} == (s - {x}) + {r};
      assert (s - {x}) + {x} == s;
      PagesOfAdded(s - {x}, r);
      PagesOfAdded(s - {x}, x);
    }
  }

  lemma PagesOfRemoved(s: set<Run>, r: Run)
    requires r in s
    ensures Pages(s - {r}) == Pages(s) - r.pages
  {
    PagesOfAdded(s - {r}, r);
    assert s - {r} + {r} == s;
  }

  /** Every page is counted once, as free or as live. */
  ghost predicate Conserved(l: Layout) {
    Pages(l.free) + Pages(l.live) == l.total
  }

  lemma FreshIsConserved(total: nat)
    ensures Conserved(Fresh(total)) && Pages(Fresh(total).free) == total
  {
    PagesOfAdded({}, Run(0, total));
    assert {} + {Run(0, total)} == {Run(0, total)};
  }

  lemma CarveConserves(l: Layout, f: Run, need: nat)
    requires l.Tiled() && Conserved(l) && f in l.free && 0 < need <= f.pages
    ensures Conserved(Carve(l, f, need))
    ensures Pages(Carve(l, f, need).live) == Pages(l.live) + need
  {
    var head, tail := Run(f.offset, need), Run(f.offset + need, f.pages - need);
    assert f.Overlaps(head) && (need < f.pages ==> f.Overlaps(tail));
    CarveCounts(l, f, need);
  }

  lemma CarveCounts(l: Layout, f: Run, need: nat)
    requires f in l.free && 0 < need <= f.pages && Run(f.offset, need) !in l.live
    requires need < f.pages ==> Run(f.offset + need, f.pages - need) !in l.free
    ensures Pages(Carve(l, f, need).free) == Pages(l.free) - need
    ensures Pages(Carve(l, f, need).live) == Pages(l.live) + need
  {
    PagesOfAdded(l.live, Run(f.offset, need));
    PagesOfRemoved(l.free, f);
    if need < f.pages {
      PagesReplaced(l.free - {f}, Run(f.offset + need, f.pages - need), Carve(l, f, need).free);
    } else {
      assert Carve(l, f, need).free == l.free - {f};
    }
  }

  lemma PagesReplaced(s: set<Run>, r: Run, t: set<Run>)
    requires r !in s && t == s + {r}
    ensures Pages(t) == Pages(s) + r.pages
  {
    PagesOfAdded(s, r);
  }

  lemma AbsorbConserves(l: Layout, hand: Run, f: Run)
    requires l.Tiled() && Conserved(l) && hand in l.live && f in l.free && Touch(hand, f)
    ensures Conserved(Absorb(l, hand, f))
    ensures Pages(Absorb(l, hand, f).live) == Pages(l.live) + f.pages
  {
    var j := Join(hand, f);
    assert j !in l.live - {hand} by { assert j.Overlaps(hand); }
    PagesOfRemoved(l.free, f);
    PagesOfRemoved(l.live, hand);
    PagesOfAdded(l.live - {hand}, j);
  }

  lemma RetireConserves(l: Layout, hand: Run)
    requires l.Tiled() && Conserved(l) && hand in l.live
    ensures Conserved(Retire(l, hand))
    ensures Pages(Retire(l, hand).live) == Pages(l.live) - hand.pages
  {
    PagesOfRemoved(l.live, hand);
    PagesOfAdded(l.free, hand);
  }

  /** All pages free means no live run is left, and then one free run spans the chunk. */
  lemma AllFree(l: Layout)
    requires l.Valid() && Conserved(l) && Pages(l.free) == l.total && 0 < l.total
    ensures l.live == {} && l.free == {Run(0, l.total)}
  {
    assert forall r | r in l.live :: r in l.free + l.live;
    assert Pages(l.live) == 0;
    NothingLive(l);
  }
}
