/**
 * Whole runs of the buddy allocator: any sequence of requests and returns, in any
 * order, with owners writing what they like into their pages.
 */
module BuddyRuns {
  import opened BuddyBlocks
  import opened BuddyLists
  import opened BuddyAllocator
  import opened Options

  /** A run of pages that somebody owns. */
  datatype Owned = Owned(first: nat, order: nat)

  datatype Request =
    | Alloc(order: nat)
    | Return(index: nat)
    | Write(index: nat, page: nat, header: Header)

  predicate Covers(r: Owned, x: nat) {
    Shr(x, r.order) == Shr(r.first, r.order)
  }

  ghost predicate Covered(live: seq<Owned>, x: nat) {
    exists i: nat | i < |live| :: Covers(live[i], x)
  }

  ghost predicate Disjoint(live: seq<Owned>) {
    forall i: nat, j: nat, x: nat | i < |live| && j < |live| && i != j && Covers(live[i], x) :: !Covers(live[j], x)
  }

  ghost predicate OwnedRun(start: set<nat>, r: Owned) {
    r.order < ORDERS && Aligned(r.order, r.first) && FreeAt(start, r.order, Shr(r.first, r.order))
  }

  /**
   * From the free set `start`, the runs `live` were handed out and not returned:
   * they are aligned, do not overlap, and `free` is what is left.
   */
  ghost predicate Conserved(start: set<nat>, free: set<nat>, live: seq<Owned>) {
    && (forall i: nat | i < |live| :: OwnedRun(start, live[i]))
    && Disjoint(live)
    && (forall x: nat :: x in free <==> x in start && !Covered(live, x))
  }

  lemma NothingOwned(start: set<nat>)
    ensures Conserved(start, start, [])
  {
  }

  lemma AllReturned(start: set<nat>, free: set<nat>)
    requires Conserved(start, free, [])
    ensures free == start
  {
    assert forall x: nat :: !Covered([], x);
  }

  lemma Handed(start: set<nat>, free: set<nat>, live: seq<Owned>, r: Owned)
    requires Conserved(start, free, live)
    requires r.order < ORDERS && Aligned(r.order, r.first) && FreeAt(free, r.order, Shr(r.first, r.order))
    ensures Conserved(start, free - BlockSet(r.order, Shr(r.first, r.order)), live + [r])
  {
    var live', free' := live + [r], free - BlockSet(r.order, Shr(r.first, r.order));
    BlockMembers(r.order, Shr(r.first, r.order));
    forall x: nat
      ensures Covered(live', x) <==> Covered(live, x) || Covers(r, x)
    {
      if Covers(r, x) { assert Covers(live'[|live|], x); }
      if Covered(live, x) {
        var i: nat :| i < |live| && Covers(live[i], x);
        assert Covers(live'[i], x);
      }
    }
    forall i: nat, j: nat, x: nat | i < |live'| && j < |live'| && i != j && Covers(live'[i], x)
      ensures !Covers(live'[j], x)
    {
      if j == |live| || i == |live| {
        assert Covers(live'[j], x) ==> Covered(live, x) && x in free;
      }
    }
  }

  function Less(live: seq<Owned>, i: nat): (r: seq<Owned>)
    requires i < |live|
    ensures |r| == |live| - 1
  {
    live[..i] + live[i + 1..]
  }

  lemma OwnedApart(start: set<nat>, free: set<nat>, live: seq<Owned>, i: nat)
    requires Conserved(start, free, live) && i < |live|
    ensures Apart(free, live[i].order, Shr(live[i].first, live[i].order))
  {
    forall x: nat | Shr(x, live[i].order) == Shr(live[i].first, live[i].order)
      ensures x !in free
    {
      assert Covers(live[i], x);
      assert Covered(live, x);
    }
  }

  /** Where member `j` of the shorter list was. */
  lemma LessAt(live: seq<Owned>, i: nat, j: nat)
    requires i < |live| && j < |live| - 1
    ensures Less(live, i)[j] == live[if j < i then j else j + 1]
  {
  }

  lemma LessDisjoint(live: seq<Owned>, i: nat)
    requires i < |live| && Disjoint(live)
    ensures Disjoint(Less(live, i))
  {
    hide Covers, Less;
    var live' := Less(live, i);
    forall j: nat, k: nat, x: nat | j < |live'| && k < |live'| && j != k && Covers(live'[j], x)
      ensures !Covers(live'[k], x)
    {
      LessAt(live, i, j);
      LessAt(live, i, k);
    }
  }

  lemma LessCovers(live: seq<Owned>, i: nat, x: nat)
    requires i < |live| && Disjoint(live)
    ensures Covered(live, x) <==> Covered(Less(live, i), x) || Covers(live[i], x)
    ensures Covers(live[i], x) ==> !Covered(Less(live, i), x)
  {
    hide Covers;
    var live' := Less(live, i);
    if Covered(live', x) {
      var j: nat :| j < |live'| && Covers(live'[j], x);
      LessAt(live, i, j);
    }
    if Covered(live, x) && !Covers(live[i], x) {
      var j: nat :| j < |live| && Covers(live[j], x);
      LessAt(live, i, if j < i then j else j - 1);
      assert Covers(live'[if j < i then j else j - 1], x);
    }
  }

  lemma GivenBack(start: set<nat>, free: set<nat>, live: seq<Owned>, i: nat)
    requires Conserved(start, free, live) && i < |live|
    ensures Conserved(start, free + BlockSet(live[i].order, Shr(live[i].first, live[i].order)), Less(live, i))
  {
    hide Disjoint, Covered, Less, OwnedRun;
    var live', free' := Less(live, i), free + BlockSet(live[i].order, Shr(live[i].first, live[i].order));
    BlockMembers(live[i].order, Shr(live[i].first, live[i].order));
    LessDisjoint(live, i);
    forall j: nat | j < |live'|
      ensures OwnedRun(start, live'[j])
    {
      LessAt(live, i, j);
    }
    forall x: nat
      ensures x in free' <==> x in start && !Covered(live', x)
    {
      LessCovers(live, i, x);
      OwnedCovers(start, live[i], x);
    }
  }

  lemma OwnedCovers(start: set<nat>, r: Owned, x: nat)
    requires OwnedRun(start, r)
    ensures Covers(r, x) ==> x in start
  {
  }

  /** An owned page is no free page, so its owner can do no harm. */
  lemma OwnedPage(start: set<nat>, free: set<nat>, live: seq<Owned>, i: nat, x: nat)
    requires Conserved(start, free, live) && i < |live| && Covers(live[i], x)
    ensures x in start && x !in free
  {
    assert Covered(live, x);
  }

  /**
   * Every run keeps the allocator sound and conserves pages; once everything is
   * returned, in whatever order, the chunks are the ones there were at the start.
   */
  method Run(a: PageAllocator, requests: seq<Request>) returns (live: seq<Owned>)
    requires a.Valid()
    modifies a, a.freeHead, a.tailPprev, a.mem, a.bitmap
    ensures a.Valid() && Conserved(old(a.Free()), a.Free(), live)
    ensures live == [] ==> forall o: nat, p: nat | o < ORDERS :: p in a.lists[o] <==> p in old(a.lists)[o]
  {
    hide Conserved, Holds, FreeIn, FreeAt;
    live := [];
    ghost var start := a.Free();
    NothingOwned(start);
    var n := 0;
    while n < |requests|
      invariant n <= |requests| && a.Valid() && Conserved(start, a.Free(), live)
    {
      live := Serve(a, requests[n], live, start);
      n := n + 1;
    }
    if live == [] {
      AllReturned(start, a.Free());
      FamilyDetermined(a.lists, old(a.lists), start);
    }
  }

  method Serve(a: PageAllocator, request: Request, live: seq<Owned>, ghost start: set<nat>) returns (live': seq<Owned>)
    requires a.Valid() && Conserved(start, a.Free(), live) && forall x: nat | x in start :: x < a.pages
    modifies a, a.freeHead, a.tailPprev, a.mem, a.bitmap
    ensures a.Valid() && Conserved(start, a.Free(), live')
  {
    hide Conserved, Holds, FreeIn, FreeAt, BlockSet, Aligned, Apart, Maximal;
    live' := live;
    match request {
      case Alloc(order) =>
        if order < ORDERS {
          ghost var free := a.Free();
          var r, from := a.AllocPages(order);
          if r.Some? {
            Handed(start, free, live, Owned(r.value, order));
            live' := live + [Owned(r.value, order)];
          }
        }
      case Return(i) =>
        if i < |live| {
          ReturnReady(a, start, live, i);
          GivenBack(start, a.Free(), live, i);
          a.FreePages(live[i].first, live[i].order);
          live' := Less(live, i);
        }
      case Write(i, x, h) =>
        if i < |live| && Covers(live[i], x) {
          OwnedPage(start, a.Free(), live, i, x);
          a.Scribble(x, h);
        }
    }
  }

  lemma ReturnReady(a: PageAllocator, start: set<nat>, live: seq<Owned>, i: nat)
    requires a.Valid() && Conserved(start, a.Free(), live) && i < |live| && forall x: nat | x in start :: x < a.pages
    ensures live[i].order < ORDERS && Aligned(live[i].order, live[i].first)
    ensures live[i].first + Pow2(live[i].order) <= a.pages
    ensures Apart(a.Free(), live[i].order, Shr(live[i].first, live[i].order))
  {
    OwnedApart(start, a.Free(), live, i);
    var r := live[i];
    var last := r.first + Pow2(r.order) - 1;
    BlockRun(r.order, Shr(r.first, r.order), last);
    assert last in start;
  }
}
