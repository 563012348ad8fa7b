/**
 * Naturally aligned blocks of pages.  Block `k` of order `o` holds the pages
 * whose number, shifted right by `o`, is `k`.  A block of a free set is maximal
 * when it is free and its parent is not; the maximal blocks are the one family of
 * chunks that a buddy allocator keeps for that free set.
 */
module BuddyBlocks {
  function Pow2(o: nat): (r: nat)
    ensures r > 0
  {
    if o == 0 then 1 else 2 * Pow2(o - 1)
  }

  function Shr(x: nat, o: nat): nat {
    if o == 0 then x else Shr(x, o - 1) / 2
  }

  /** The first page of block `k` of order `o`. */
  function First(o: nat, k: nat): nat
    decreases o
  {
    if o == 0 then k else First(o - 1, 2 * k)
  }

  function Sibling(k: nat): nat {
    if k % 2 == 1 then k - 1 else k + 1
  }

  predicate Aligned(o: nat, x: nat) {
    First(o, Shr(x, o)) == x
  }

  // ---------------------------------------------------------------------------
  // Arithmetic of blocks
  // ---------------------------------------------------------------------------

  lemma {:induction false} FirstNext(o: nat, k: nat)
    ensures First(o, k + 1) == First(o, k) + Pow2(o)
    decreases o
  {
    if o > 0 {
      FirstNext(o - 1, 2 * k);
      FirstNext(o - 1, 2 * k + 1);
    }
  }

  lemma {:induction false} FirstMonotone(o: nat, a: nat, b: nat)
    requires a < b
    ensures First(o, a) + Pow2(o) <= First(o, b)
    decreases b
  {
    FirstNext(o, b - 1);
    if a < b - 1 { FirstMonotone(o, a, b - 1); }
  }

  lemma {:induction false} Within(o: nat, x: nat)
    ensures First(o, Shr(x, o)) <= x < First(o, Shr(x, o)) + Pow2(o)
  {
    if o > 0 {
      Within(o - 1, x);
      var j := Shr(x, o - 1);
      FirstNext(o - 1, 2 * (j / 2));
    }
  }

  /** Block `k` of order `o` is the run of pages from `First(o, k)` on. */
  lemma BlockRun(o: nat, k: nat, x: nat)
    ensures Shr(x, o) == k <==> First(o, k) <= x < First(o, k) + Pow2(o)
  {
    Within(o, x);
    var j := Shr(x, o);
    if j < k { FirstMonotone(o, j, k); }
    if k < j { FirstMonotone(o, k, j); }
  }

  lemma FirstInside(o: nat, k: nat)
    ensures Shr(First(o, k), o) == k
  {
    BlockRun(o, k, First(o, k));
  }

  /** Pages that share a block share every larger one. */
  lemma {:induction false} Coarser(x: nat, y: nat, o: nat, o': nat)
    requires o <= o' && Shr(x, o) == Shr(y, o)
    ensures Shr(x, o') == Shr(y, o')
    decreases o'
  {
    if o < o' { Coarser(x, y, o, o' - 1); }
  }

  /** A block starts where its first half starts. */
  lemma {:induction false} AlignedDown(o: nat, x: nat, o': nat)
    requires Aligned(o, x) && o' <= o
    ensures Aligned(o', x)
    decreases o
  {
    if o' < o {
      var k := Shr(x, o);
      FirstInside(o - 1, 2 * k);
      AlignedDown(o - 1, x, o');
    }
  }

  lemma {:induction false} Pow2Monotone(a: nat, b: nat)
    requires a <= b
    ensures Pow2(a) <= Pow2(b)
    decreases b
  {
    if a < b { Pow2Monotone(a, b - 1); }
  }

  lemma SiblingParent(k: nat)
    ensures Sibling(k) / 2 == k / 2 && Sibling(k) != k && Sibling(Sibling(k)) == k
  {
  }

  function BlockSet(o: nat, k: nat): set<nat> {
    set x: nat | First(o, k) <= x < First(o, k) + Pow2(o) && Shr(x, o) == k
  }

  lemma BlockMembers(o: nat, k: nat)
    ensures forall x: nat :: x in BlockSet(o, k) <==> Shr(x, o) == k
  {
    forall x: nat
      ensures x in BlockSet(o, k) <==> Shr(x, o) == k
    {
      BlockRun(o, k, x);
    }
  }

  // ---------------------------------------------------------------------------
  // Maximal free blocks
  // ---------------------------------------------------------------------------

  ghost predicate FreeAt(free: set<nat>, o: nat, k: nat) {
    forall x: nat | Shr(x, o) == k :: x in free
  }

  ghost predicate Maximal(free: set<nat>, o: nat, k: nat) {
    FreeAt(free, o, k) && !FreeAt(free, o + 1, k / 2)
  }

  /** The block is out of use: none of its pages is free. */
  ghost predicate Apart(free: set<nat>, o: nat, k: nat) {
    forall x: nat | Shr(x, o) == k :: x !in free
  }

  lemma ApartNotFree(free: set<nat>, o: nat, k: nat)
    requires Apart(free, o, k)
    ensures !FreeAt(free, o, k)
  {
    FirstInside(o, k);
  }

  /** A block inside the added one becomes free; one outside keeps its state. */
  lemma AddedBelow(free: set<nat>, o: nat, k: nat, o': nat, k': nat)
    requires Apart(free, o, k) && o' <= o
    ensures var inside := Shr(First(o', k'), o) == k;
            && FreeAt(free + BlockSet(o, k), o', k') == (inside || FreeAt(free, o', k'))
            && (inside ==> !FreeAt(free, o', k'))
  {
    var z := First(o', k');
    FirstInside(o', k');
    BlockMembers(o, k);
    forall x: nat | Shr(x, o') == k'
      ensures Shr(x, o) == Shr(z, o)
    {
      Coarser(x, z, o', o);
    }
  }

  /** A larger block does not become free when the sibling is not free. */
  lemma AddedAbove(free: set<nat>, o: nat, k: nat, o': nat, k': nat)
    requires Apart(free, o, k) && !FreeAt(free, o, Sibling(k)) && o' > o
    ensures FreeAt(free + BlockSet(o, k), o', k') == FreeAt(free, o', k')
  {
    BlockMembers(o, k);
    SiblingParent(k);
    var y: nat :| Shr(y, o) == Sibling(k) && y !in free;
    forall z: nat | Shr(z, o) == k
      ensures Shr(z, o') == Shr(y, o')
    {
      assert Shr(z, o + 1) == k / 2 == Shr(y, o + 1);
      Coarser(z, y, o + 1, o');
    }
  }

  /**
   * Freeing a block whose sibling is not free adds that block, and only it, to
   * the maximal blocks.  Read backwards: taking a maximal block out of the free
   * set takes it, and only it, out of the family.
   */
  lemma AddMaximal(free: set<nat>, o: nat, k: nat, o': nat, k': nat)
    requires Apart(free, o, k) && !FreeAt(free, o, Sibling(k))
    ensures Maximal(free + BlockSet(o, k), o', k') <==> Maximal(free, o', k') || (o' == o && k' == k)
  {
    hide FreeAt, BlockSet;
    if o' > o {
      AddedAbove(free, o, k, o', k');
      AddedAbove(free, o, k, o' + 1, k' / 2);
    } else if o' == o {
      AddedBelow(free, o, k, o, k');
      AddedAbove(free, o, k, o + 1, k' / 2);
      FirstInside(o, k');
      if k' == k {
        ParentNotFree(free, o, k);
      }
    } else {
      AddedBelow(free, o, k, o', k');
      AddedBelow(free, o, k, o' + 1, k' / 2);
      FirstInside(o', k');
      FirstInside(o' + 1, k' / 2);
      assert Shr(First(o', k'), o' + 1) == k' / 2;
      Coarser(First(o', k'), First(o' + 1, k' / 2), o' + 1, o);
    }
  }

  lemma ParentNotFree(free: set<nat>, o: nat, k: nat)
    requires Apart(free, o, k)
    ensures !FreeAt(free, o + 1, k / 2)
  {
    FirstInside(o, k);
    assert Shr(First(o, k), o + 1) == k / 2;
  }

  /** A maximal block can be taken out of the free set and put back. */
  lemma TakeMaximal(free: set<nat>, o: nat, k: nat)
    requires Maximal(free, o, k)
    ensures var rest := free - BlockSet(o, k);
            && Apart(rest, o, k) && !FreeAt(rest, o, Sibling(k)) && rest + BlockSet(o, k) == free
  {
    BlockMembers(o, k);
    SiblingParent(k);
    var y: nat :| Shr(y, o + 1) == k / 2 && y !in free;
    assert Shr(y, o) == k || Shr(y, o) == Sibling(k);
  }

  /** Maximal blocks are disjoint. */
  lemma MaximalDisjoint(free: set<nat>, o: nat, k: nat, o': nat, k': nat, x: nat)
    requires Maximal(free, o, k) && Maximal(free, o', k')
    requires Shr(x, o) == k && Shr(x, o') == k'
    ensures o == o' && k == k'
  {
    if o < o' {
      LargerCovers(free, o, k, o', k', x);
    } else if o' < o {
      LargerCovers(free, o', k', o, k, x);
    }
  }

  lemma LargerCovers(free: set<nat>, o: nat, k: nat, o': nat, k': nat, x: nat)
    requires o < o' && FreeAt(free, o', k') && Shr(x, o) == k && Shr(x, o') == k'
    ensures FreeAt(free, o + 1, k / 2)
  {
    forall y: nat | Shr(y, o + 1) == k / 2
      ensures y in free
    {
      assert Shr(x, o + 1) == k / 2;
      Coarser(x, y, o + 1, o');
    }
  }

  /** Every free block lies in a maximal one, of an order below `top`. */
  lemma {:induction false} Climb(free: set<nat>, o: nat, x: nat, top: nat) returns (o': nat)
    requires FreeAt(free, o, Shr(x, o)) && o < top
    requires forall y: nat | y in free :: y < Pow2(top) - 1
    ensures o <= o' < top && Maximal(free, o', Shr(x, o'))
    decreases top - o
  {
    if !FreeAt(free, o + 1, Shr(x, o + 1)) {
      o' := o;
    } else {
      if o + 1 == top {
        TopNotFree(free, top, Shr(x, top));
      }
      o' := Climb(free, o + 1, x, top);
    }
  }

  lemma TopNotFree(free: set<nat>, top: nat, k: nat)
    requires forall y: nat | y in free :: y < Pow2(top) - 1
    ensures !FreeAt(free, top, k)
  {
    var y := First(top, k) + Pow2(top) - 1;
    BlockRun(top, k, y);
  }
}
