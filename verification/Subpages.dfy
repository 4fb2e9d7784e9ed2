/** A run carved into equal elements, as a value: which elements are taken, and the one-slot hint. */
module Subpages {
  import opened Runs

  datatype Subpage = Subpage(run: Run, elemSize: nat, maxElems: nat, used: set<nat>, nextAvail: int) {
    predicate Valid() {
      && 0 < maxElems
      && (forall i | i in used :: i < maxElems)
      && (nextAvail == -1 || (0 <= nextAvail < maxElems && nextAvail !in used))
    }

    function NumAvail(): int {
      maxElems - |used|
    }
  }

  function New(run: Run, elemSize: nat, maxElems: nat): Subpage {
    Subpage(run, elemSize, maxElems, {}, 0)
  }

  function Below(n: nat): (s: set<nat>)
    ensures |s| == n && forall i: nat :: i in s <==> i < n
  {
    if n == 0 then {} else Below(n - 1) + {n - 1}
  }

  /** Indices below `n` cannot be all taken by fewer than `n` elements, and conversely. */
  lemma Pigeonhole(used: set<nat>, n: nat)
    requires forall i | i in used :: i < n
    ensures |used| <= n
    ensures |used| == n ==> forall i: nat | i < n :: i in used
    ensures |used| < n ==> exists i: nat :: i < n && i !in used
  {
    var all := Below(n);
    assert used <= all;
    Subset(used, all);
    if |used| < n {
      assert all <= used ==> all == used;
      var i :| i in all && i !in used;
    }
  }

  lemma Subset(a: set<nat>, b: set<nat>)
    requires a <= b
    ensures |a| <= |b| && (|a| == |b| ==> a == b)
  {
    assert b == a + (b - a);
  }

  /** The lowest clear bit from `i` on. */
  function FirstClear(used: set<nat>, i: nat, n: nat): nat
    decreases n - i
  {
    if n <= i || i !in used then i else FirstClear(used, i + 1, n)
  }

  lemma {:induction false} FirstClearIs(used: set<nat>, i: nat, n: nat)
    requires exists k: nat :: i <= k < n && k !in used
    ensures i <= FirstClear(used, i, n) < n && FirstClear(used, i, n) !in used
    ensures forall k: nat | i <= k < FirstClear(used, i, n) :: k in used
    decreases n - i
  {
    if i in used {
      FirstClearIs(used, i + 1, n);
    }
  }

  lemma FirstClearUnique(used: set<nat>, n: nat, k: nat)
    requires k < n && k !in used && forall j: nat | j < k :: j in used
    ensures FirstClear(used, 0, n) == k
  {
    FirstClearIs(used, 0, n);
  }

  /** `getNextAvail`: the hint if there is one, else the lowest clear bit. */
  function NextAvail(s: Subpage): nat {
    if s.nextAvail >= 0 then s.nextAvail else FirstClear(s.used, 0, s.maxElems)
  }

  function Take(s: Subpage): Subpage {
    s.(used := s.used + {NextAvail(s)}, nextAvail := -1)
  }

  function Give(s: Subpage, i: nat): Subpage {
    s.(used := s.used - {i}, nextAvail := i)
  }

  /** With room left, the element handed out was free, and it is within the run. */
  lemma TakeIsFresh(s: Subpage)
    requires s.Valid() && 0 < s.NumAvail()
    ensures NextAvail(s) < s.maxElems && NextAvail(s) !in s.used
    ensures Take(s).Valid() && Take(s).NumAvail() == s.NumAvail() - 1
  {
    Pigeonhole(s.used, s.maxElems);
    if s.nextAvail < 0 {
      FirstClearIs(s.used, 0, s.maxElems);
    }
  }

  lemma GiveIsValid(s: Subpage, i: nat)
    requires s.Valid() && i in s.used
    ensures Give(s, i).Valid() && Give(s, i).NumAvail() == s.NumAvail() + 1
    ensures 0 <= s.NumAvail()
    ensures Give(s, i).NumAvail() == s.maxElems <==> Give(s, i).used == {}
  {
    Pigeonhole(s.used, s.maxElems);
    assert s.used == Give(s, i).used + {i};
  }

  /** An element just freed is the next one handed out. */
  lemma GiveThenTake(s: Subpage, i: nat)
    requires s.Valid() && i in s.used
    ensures NextAvail(Give(s, i)) == i && Take(Give(s, i)).used == s.used
  {
  }
}
