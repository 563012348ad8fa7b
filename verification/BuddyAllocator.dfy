/**
 * The binary buddy page allocator: an allocation bitmap, one free list per order,
 * greedy initialisation, allocation by splitting and freeing by merging.
 *
 * Page numbers are addresses shifted right by the page size; the kernel is linked
 * at address zero, so virtual and physical page numbers coincide.
 */
module BuddyAllocator {
  import opened BuddyBitmap
  import opened BuddyBlocks
  import opened BuddyLists
  import opened Options

  /** Number of free lists: address bits minus page bits. */
  const ORDERS: nat := 52
  /** Pages whose bits fill one page of bitmap. */
  const PAGES_PER_MAPPAGE: nat := 32768
  const ALL_SET: bv64 := 0xffff_ffff_ffff_ffff

  // ---------------------------------------------------------------------------
  // The family of free chunks
  // ---------------------------------------------------------------------------

  /** The chunks on the lists are exactly the maximal blocks of `free`. */
  ghost predicate Holds(ls: Lists, free: set<nat>) {
    forall o: nat, p: nat | o < |ls| :: p in ls[o] <==> Aligned(o, p) && Maximal(free, o, Shr(p, o))
  }

  /** A chunk lies in free memory. */
  lemma ListedFree(ls: Lists, free: set<nat>, o: nat, p: nat)
    requires Holds(ls, free) && o < |ls| && p in ls[o]
    ensures p in free && Aligned(o, p) && Maximal(free, o, Shr(p, o))
  {
    assert FreeAt(free, o, Shr(p, o));
  }

  lemma ListedIfMaximal(ls: Lists, free: set<nat>, o: nat, p: nat)
    requires Holds(ls, free) && o < |ls| && Aligned(o, p) && Maximal(free, o, Shr(p, o))
    ensures p in ls[o]
  {
  }

  /** The lists are determined by the free pages, up to the order of their members. */
  lemma FamilyDetermined(ls: Lists, ls': Lists, free: set<nat>)
    requires Holds(ls, free) && Holds(ls', free) && |ls| == |ls'|
    ensures forall o: nat, p: nat | o < |ls| :: p in ls[o] <==> p in ls'[o]
  {
  }

  lemma AlignedUnique(o: nat, p: nat, q: nat)
    requires Aligned(o, p) && Aligned(o, q) && Shr(p, o) == Shr(q, o)
    ensures p == q
  {
  }

  lemma PushHolds(ls: Lists, free: set<nat>, o: nat, p: nat)
    requires Holds(ls, free) && o < |ls| && Aligned(o, p)
    requires Apart(free, o, Shr(p, o)) && !FreeAt(free, o, Sibling(Shr(p, o)))
    ensures Holds(ls[o := [p] + ls[o]], free + BlockSet(o, Shr(p, o)))
  {
    hide Maximal, Apart, FreeAt, Aligned;
    var ls', free' := ls[o := [p] + ls[o]], free + BlockSet(o, Shr(p, o));
    forall q: nat, x: nat | q < |ls|
      ensures x in ls'[q] <==> Aligned(q, x) && Maximal(free', q, Shr(x, q))
    {
      AddMaximal(free, o, Shr(p, o), q, Shr(x, q));
      assert x in ls[q] <==> Aligned(q, x) && Maximal(free, q, Shr(x, q));
      if q == o && Aligned(o, x) && Shr(x, o) == Shr(p, o) {
        AlignedUnique(o, x, p);
      }
    }
  }

  lemma DropHolds(ls: Lists, free: set<nat>, o: nat, i: nat)
    requires Holds(ls, free) && o < |ls| && i < |ls[o]| && Distinct(ls[o])
    ensures var p := ls[o][i];
            Holds(ls[o := Without(ls[o], i)], free - BlockSet(o, Shr(p, o)))
  {
    var p := ls[o][i];
    var rest := free - BlockSet(o, Shr(p, o));
    assert p in ls[o];
    TakeMaximal(free, o, Shr(p, o));
    WithoutMembers(ls[o], i);
    hide Maximal, Apart, FreeAt, Aligned, Without;
    var ls' := ls[o := Without(ls[o], i)];
    forall q: nat, x: nat | q < |ls|
      ensures x in ls'[q] <==> Aligned(q, x) && Maximal(rest, q, Shr(x, q))
    {
      AddMaximal(rest, o, Shr(p, o), q, Shr(x, q));
      assert x in ls[q] <==> Aligned(q, x) && Maximal(free, q, Shr(x, q));
      if q == o && Aligned(o, x) && Shr(x, o) == Shr(p, o) {
        AlignedUnique(o, x, p);
      }
      if q == o && x == p {
        NotApartMaximal(rest, o, Shr(p, o));
      }
    }
  }

  lemma NotApartMaximal(free: set<nat>, o: nat, k: nat)
    requires Apart(free, o, k)
    ensures !Maximal(free, o, k)
  {
    ApartNotFree(free, o, k);
  }

  // ---- splitting --------------------------------------------------------------

  lemma HalfOf(o: nat, p: nat)
    requires Aligned(o + 1, p)
    ensures var spare := p + Pow2(o);
            && Aligned(o, p) && Aligned(o, spare) && Shr(p, o) % 2 == 0
            && Shr(spare, o) == Shr(p, o) + 1 && Shr(spare, o + 1) == Shr(p, o + 1)
  {
    var k := Shr(p, o + 1);
    FirstInside(o, 2 * k);
    FirstNext(o, 2 * k);
    FirstInside(o, 2 * k + 1);
  }

  lemma Halves(o: nat, k: nat)
    ensures BlockSet(o + 1, k) == BlockSet(o, 2 * k) + BlockSet(o, 2 * k + 1)
    ensures BlockSet(o, 2 * k) !! BlockSet(o, 2 * k + 1)
  {
    BlockMembers(o + 1, k);
    BlockMembers(o, 2 * k);
    BlockMembers(o, 2 * k + 1);
    forall x: nat
      ensures x in BlockSet(o + 1, k) <==> x in BlockSet(o, 2 * k) || x in BlockSet(o, 2 * k + 1)
    {
      assert Shr(x, o + 1) == Shr(x, o) / 2;
    }
  }

  /** Splitting a chunk in hand: the upper half goes onto a list, the lower stays in hand. */
  lemma SplitStep(free: set<nat>, o: nat, p: nat)
    requires Aligned(o + 1, p) && FreeAt(free, o + 1, Shr(p, o + 1))
    ensures var spare, rest := p + Pow2(o), free - BlockSet(o + 1, Shr(p, o + 1));
            && Aligned(o, p) && Aligned(o, spare) && FreeAt(free, o, Shr(p, o))
            && spare in free && spare !in rest
            && Apart(rest, o, Shr(spare, o)) && !FreeAt(rest, o, Sibling(Shr(spare, o)))
            && rest + BlockSet(o, Shr(spare, o)) == free - BlockSet(o, Shr(p, o))
  {
    HalfOf(o, p);
    var k := Shr(p, o + 1);
    Halves(o, k);
    BlockMembers(o + 1, k);
    BlockMembers(o, 2 * k);
    BlockMembers(o, 2 * k + 1);
    assert Shr(p, o) == 2 * k;
    assert Shr(p, o) == Sibling(2 * k + 1);
    forall x: nat | Shr(x, o) == 2 * k || Shr(x, o) == 2 * k + 1
      ensures x in free
    {
      assert Shr(x, o + 1) == k;
    }
  }

  // ---- merging ----------------------------------------------------------------

  /** What a list says about the level of its chunks. */
  ghost predicate Levelled(ls: Lists, mem: seq<Header>) {
    forall o: nat, p: nat | o < |ls| && p in ls[o] :: p < |mem| && mem[p].level == o
  }

  lemma LinkedLevels(k: Links, ls: Lists)
    requires AllLinked(k, ls)
    ensures Levelled(ls, k.mem)
  {
    forall o: nat, p: nat | o < |ls| && p in ls[o]
      ensures p < |k.mem| && k.mem[p].level == o
    {
      var i: nat :| i < |ls[o]| && ls[o][i] == p;
      assert Node(k.mem, ls[o], o, i);
    }
  }

  /**
   * Let block `k` of order `o` be in hand and let its sibling's first page `b` be
   * free.  Then `b` is the head of a real chunk, of order at most `o`.
   */
  lemma HeadOfChunk(ls: Lists, mem: seq<Header>, free: set<nat>, o: nat, k: nat, b: nat)
      returns (o': nat)
    requires Holds(ls, free) && Levelled(ls, mem) && o < |ls|
    requires forall y: nat | y in free :: y < Pow2(|ls|) - 1
    requires Apart(free, o, k) && b == First(o, Sibling(k)) && b in free
    ensures o' <= o && b in ls[o'] && b < |mem| && mem[b].level == o' && Maximal(free, o', Shr(b, o'))
  {
    assert FreeAt(free, 0, Shr(b, 0));
    o' := Climb(free, 0, b, |ls|);
    FirstInside(o, Sibling(k));
    SiblingParent(k);
    if o' > o {
      FirstInside(o, k);
      var z := First(o, k);
      assert Shr(z, o + 1) == Shr(b, o + 1);
      Coarser(z, b, o + 1, o');
    }
    AlignedDown(o, b, o');
    LevelOf(ls, mem, o', b);
  }

  lemma LevelOf(ls: Lists, mem: seq<Header>, o: nat, p: nat)
    requires Levelled(ls, mem) && o < |ls| && p in ls[o]
    ensures p < |mem| && mem[p].level == o
  {
  }

  /** The test of the merge loop is exact: it finds the sibling chunk if and only if the sibling is free. */
  lemma MergeTest(ls: Lists, mem: seq<Header>, free: set<nat>, o: nat, k: nat, b: nat)
    requires Holds(ls, free) && Levelled(ls, mem) && o < |ls|
    requires forall y: nat | y in free :: y < Pow2(|ls|) - 1
    requires Apart(free, o, k) && b == First(o, Sibling(k))
    ensures b in free ==> b < |mem|
    ensures b in free && mem[b].level == o <==> b in ls[o]
    ensures b in ls[o] <==> FreeAt(free, o, Sibling(k))
  {
    FirstInside(o, Sibling(k));
    if b in free {
      var o' := HeadOfChunk(ls, mem, free, o, k, b);
      if o' < o {
        if FreeAt(free, o, Sibling(k)) {
          LargerCovers(free, o', Shr(b, o'), o, Sibling(k), b);
        }
      }
    } else if b in ls[o] {
      ListedFree(ls, free, o, b);
    }
  }

  /** The block in hand grows by its sibling. */
  lemma MergeStep(o: nat, base: nat)
    requires Aligned(o, base)
    ensures var k := Shr(base, o);
            var b := if k % 2 == 1 then base - Pow2(o) else base + Pow2(o);
            && b == First(o, Sibling(k)) && b >= 0
            && var base' := if k % 2 == 1 then b else base;
               && Aligned(o + 1, base') && Shr(base', o + 1) == k / 2
               && BlockSet(o + 1, k / 2) == BlockSet(o, k) + BlockSet(o, Sibling(k))
  {
    var k := Shr(base, o);
    var j := k / 2;
    Halves(o, j);
    FirstNext(o, 2 * j);
    FirstInside(o, 2 * j);
    assert First(o + 1, j) == First(o, 2 * j);
    FirstInside(o + 1, j);
  }

  // ---- the greedy decomposition -------------------------------------------------

  /**
   * While memory is handed over from `low` up to `at`, and `range` pages remain: a
   * lower sibling that would fit is never complete.
   */
  ghost predicate Greedy(low: nat, at: nat, range: nat) {
    forall o: nat | Aligned(o, at) && Shr(at, o) % 2 == 1 && Pow2(o) <= range :: First(o, Shr(at, o) - 1) < low
  }

  predicate Inside(low: nat, at: nat, x: nat) {
    low <= x < at
  }

  function Span(low: nat, at: nat): set<nat> {
    set x: nat | low <= x < at && Inside(low, at, x)
  }

  lemma GreedyStop(low: nat, at: nat, range: nat, o: nat)
    requires low <= at && Greedy(low, at, range) && Aligned(o, at) && Pow2(o) <= range
    ensures Apart(Span(low, at), o, Shr(at, o)) && !FreeAt(Span(low, at), o, Sibling(Shr(at, o)))
    ensures Span(low, at) + BlockSet(o, Shr(at, o)) == Span(low, at + Pow2(o))
  {
    var k := Shr(at, o);
    forall x: nat
      ensures Shr(x, o) == k <==> at <= x < at + Pow2(o)
    {
      BlockRun(o, k, x);
    }
    BlockMembers(o, k);
    FirstInside(o, Sibling(k));
    FirstNext(o, k);
    if k % 2 == 1 {
      assert First(o, k - 1) < low;
    }
  }

  lemma {:induction false} AlignedUp(o: nat, x: nat, o': nat)
    requires Aligned(o, x) && Shr(x, o) % 2 == 1 && Aligned(o', x)
    ensures o' <= o
  {
    if o' > o {
      AlignedDown(o', x, o + 1);
      var j := Shr(x, o + 1);
      FirstInside(o, 2 * j);
    }
  }

  lemma NextAligned(o: nat, x: nat)
    requires Aligned(o, x)
    ensures Aligned(o, x + Pow2(o)) && Shr(x + Pow2(o), o) == Shr(x, o) + 1
    ensures Shr(x, o) % 2 == 0 ==> Aligned(o + 1, x)
  {
    var k := Shr(x, o);
    FirstNext(o, k);
    FirstInside(o, k + 1);
    if k % 2 == 0 {
      assert First(o + 1, k / 2) == First(o, k);
      FirstInside(o + 1, k / 2);
    }
  }

  /** Handing over the chunk that the loop picks keeps the greedy order. */
  lemma GreedyStep(low: nat, at: nat, range: nat, o: nat)
    requires low <= at && Greedy(low, at, range) && Aligned(o, at) && Pow2(o) <= range
    requires Shr(at, o) % 2 == 1 || Pow2(o + 1) > range
    ensures Greedy(low, at + Pow2(o), range - Pow2(o))
  {
    var at', range' := at + Pow2(o), range - Pow2(o);
    var k := Shr(at, o);
    NextAligned(o, at);
    forall q: nat | Aligned(q, at') && Shr(at', q) % 2 == 1 && Pow2(q) <= range'
      ensures First(q, Shr(at', q) - 1) < low
    {
      if k % 2 == 1 {
        GreedyAcross(low, at, o, q);
      } else {
        AlignedUp(o, at', q);
        if q < o {
          AlignedDown(o, at', q + 1);
          AlignedUp(q, at', q + 1);
        }
      }
    }
  }

  lemma GreedyAcross(low: nat, at: nat, o: nat, q: nat)
    requires Aligned(o, at) && Shr(at, o) % 2 == 1 && First(o, Shr(at, o) - 1) < low
    requires var at' := at + Pow2(o); Aligned(q, at') && Shr(at', q) % 2 == 1
    ensures First(q, Shr(at + Pow2(o), q) - 1) < low
  {
    var at', k := at + Pow2(o), Shr(at, o);
    NextAligned(o, at);
    NextAligned(o, at');
    if q <= o {
      AlignedUp(q, at', o + 1);
    }
    Pow2Monotone(o + 1, q);
    FirstNext(q, Shr(at', q) - 1);
    FirstNext(o, k - 1);
  }

  // ---- the bitmap's view of free memory ------------------------------------------

  /** Pages of bitmap that the initialisation sets aside for `pages` pages of memory. */
  function MapPages(pages: nat): nat {
    (pages / 8 + 4095) / 4096
  }

  /** The bitmap reaches the word of page `pages`, as marking a run up to there needs, in exactly this case. */
  lemma MapReaches(pages: nat)
    ensures pages / WORD < 512 * MapPages(pages) <==> pages % PAGES_PER_MAPPAGE >= 8
  {
    var q, r := pages / PAGES_PER_MAPPAGE, pages % PAGES_PER_MAPPAGE;
    assert pages / 8 == 4096 * q + r / 8;
    assert pages / WORD == 512 * q + r / WORD;
    assert MapPages(pages) == if r < 8 then q else q + 1;
  }

  /** With 128 MB of memory the bitmap is one word short: freeing up to the end touches the word after it. */
  lemma MapTooShort()
    ensures 512 * MapPages(PAGES_PER_MAPPAGE) == PAGES_PER_MAPPAGE / WORD
    ensures !(PAGES_PER_MAPPAGE / WORD < 512 * MapPages(PAGES_PER_MAPPAGE))
  {
    MapReaches(PAGES_PER_MAPPAGE);
  }

  ghost function FreeIn(ws: seq<bv64>): set<nat> {
    set p: nat | p < WORD * |ws| && !Allocated(ws, p)
  }

  lemma BlockPages(o: nat, p: nat, x: nat)
    requires Aligned(o, p)
    ensures x in BlockSet(o, Shr(p, o)) <==> p <= x < p + Pow2(o)
  {
    BlockRun(o, Shr(p, o), x);
  }

  lemma BlockMarked(ws: seq<bv64>, ws': seq<bv64>, o: nat, p: nat, value: bool)
    requires Aligned(o, p) && p + Pow2(o) <= WORD * |ws| && RunChanged(ws, ws', p, p + Pow2(o), value)
    ensures FreeIn(ws') == if value then FreeIn(ws) - BlockSet(o, Shr(p, o)) else FreeIn(ws) + BlockSet(o, Shr(p, o))
  {
    hide Allocated, BlockSet, Aligned;
    forall x: nat
      ensures x in FreeIn(ws') <==>
              if value then x in FreeIn(ws) && x !in BlockSet(o, Shr(p, o))
              else x in FreeIn(ws) || x in BlockSet(o, Shr(p, o))
    {
      BlockPages(o, p, x);
    }
  }

  // ---- what the initialisation starts from ------------------------------------

  lemma SpanMarked(full: seq<bv64>, ws: seq<bv64>, low: nat, max: nat)
    requires forall i: nat | i < |full| :: full[i] == ALL_SET
    requires low <= max < WORD * |full| && RunChanged(full, ws, low, max, false)
    ensures FreeIn(ws) == Span(low, max)
  {
    hide TestBit, Offset;
    forall p: nat | p < WORD * |full|
      ensures Allocated(full, p)
    {
      BitsAll(Offset(p));
    }
  }

  lemma NothingLinked(k: Links, ls: Lists)
    requires |k.heads| == |k.tails| == |ls| && forall o: nat | o < |ls| :: ls[o] == []
    requires forall o: nat | o < |ls| :: k.heads[o] == Tail(o) && k.tails[o] == HeadOf(o)
    ensures AllLinked(k, ls)
  {
  }

  lemma NothingHeld(ls: Lists, low: nat)
    requires forall o: nat | o < |ls| :: ls[o] == []
    ensures Holds(ls, Span(low, low))
    ensures forall range: nat :: Greedy(low, low, range)
  {
    forall o: nat, k: nat
      ensures !FreeAt(Span(low, low), o, k)
    {
      FirstInside(o, k);
    }
    forall o: nat | Aligned(o, low) && Shr(low, o) % 2 == 1
      ensures First(o, Shr(low, o) - 1) < low
    {
      FirstMonotone(o, Shr(low, o) - 1, Shr(low, o));
    }
  }

  lemma SpanEnds(low: nat, at: nat)
    ensures at !in Span(low, at)
  {
  }

  lemma SpanBelow(low: nat, at: nat)
    ensures forall x: nat | x in Span(low, at) :: x < at
  {
  }

  /** The largest order that the alignment of `at` and the remaining range allow. */
  method LargestChunk(at: nat, range: nat) returns (i: nat)
    requires range > 0
    ensures Aligned(i, at) && Pow2(i) <= range
    ensures Shr(at, i) % 2 == 1 || Pow2(i + 1) > range
    ensures forall o: nat | Aligned(o, at) && Pow2(o) <= range :: o <= i
  {
    i := 0;
    while Pow2(i + 1) <= range && Shr(at, i) % 2 == 0
      invariant Aligned(i, at) && Pow2(i) <= range
      decreases range - Pow2(i)
    {
      NextAligned(i, at);
      i := i + 1;
    }
    forall o: nat | Aligned(o, at) && Pow2(o) <= range
      ensures o <= i
    {
      if o > i {
        if Shr(at, i) % 2 == 1 {
          AlignedUp(i, at, o);
        } else {
          Pow2Monotone(i + 1, o);
        }
      }
    }
  }

  class PageAllocator {
    const pages: nat
    const bitmap: array<bv64>
    const freeHead: array<Ptr>
    const tailPprev: array<Loc>
    /** What the first bytes of every page hold; free chunks keep their links there. */
    const mem: array<Header>

    ghost var lists: Lists

    ghost function View(): Links
      reads freeHead, tailPprev, mem
    {
      Links(freeHead[..], tailPprev[..], mem[..])
    }

    ghost function Free(): set<nat>
      reads bitmap
    {
      FreeIn(bitmap[..])
    }

    /** The bitmap is not one of the other arrays. */
    ghost predicate Separate() {
      var b: object := bitmap;
      b != freeHead && b != tailPprev && b != mem
    }

    ghost predicate Wired()
      reads this, freeHead, tailPprev, mem
    {
      && Separate()
      && freeHead.Length == tailPprev.Length == |lists| == ORDERS && mem.Length == pages
      && AllLinked(View(), lists)
    }

    ghost predicate Sized()
      reads bitmap
    {
      && pages / WORD < bitmap.Length && pages < Pow2(ORDERS)
      && forall p: nat | p in Free() :: p < pages
    }

    ghost predicate Valid()
      reads this, freeHead, tailPprev, mem, bitmap
    {
      Wired() && Sized() && Holds(lists, Free())
    }

    // -------------------------------------------------------------------------
    // Initialisation
    // -------------------------------------------------------------------------

    /**
     * Take over the pages from `min` to `max`: the bitmap comes first, all pages
     * after it are free.  `junk` is what the pages happen to hold.
     */
    constructor (min: nat, max: nat, junk: nat -> Header)
      requires max < Pow2(ORDERS) && min + MapPages(max) <= max
      requires max % PAGES_PER_MAPPAGE >= 8
      ensures Valid() && pages == max && Free() == Span(min + MapPages(max), max)
      ensures fresh(bitmap) && fresh(freeHead) && fresh(tailPprev) && fresh(mem)
    {
      hide Pow2, Holds, FreeIn, AllLinked, Span, MapPages;
      pages := max;
      bitmap := new bv64[512 * MapPages(max)](_ => ALL_SET);
      freeHead := new Ptr[ORDERS](o requires o >= 0 => Tail(o));
      tailPprev := new Loc[ORDERS](o requires o >= 0 => HeadOf(o));
      mem := new Header[max](p requires p >= 0 => junk(p));
      lists := seq(ORDERS, _ => []);
      new;
      Begin(min + MapPages(max));
    }

    /** Start from full bitmap and empty lists; free the pages from `low` on. */
    method Begin(low: nat)
      requires pages < Pow2(ORDERS) && pages % PAGES_PER_MAPPAGE >= 8 && low <= pages
      requires bitmap.Length == 512 * MapPages(pages) && forall i: nat | i < bitmap.Length :: bitmap[i] == ALL_SET
      requires freeHead.Length == tailPprev.Length == |lists| == ORDERS && mem.Length == pages && Separate()
      requires forall o: nat | o < ORDERS :: freeHead[o] == Tail(o) && tailPprev[o] == HeadOf(o) && lists[o] == []
      modifies this`lists, freeHead, tailPprev, mem, bitmap
      ensures Valid() && Free() == Span(low, pages)
    {
      hide Holds, FreeIn, RunChanged, AllLinked, Aligned, Greedy, Span;
      MapReaches(pages);
      ghost var full := bitmap[..];
      MapFree(bitmap, low, pages - low);
      SpanMarked(full, bitmap[..], low, pages);
      SpanBelow(low, pages);
      NothingLinked(View(), lists);
      NothingHeld(lists, low);
      Populate(low);
    }

    /** Hand over the pages from `low` on, chunk by chunk. */
    method Populate(low: nat)
      requires Wired() && low <= pages < Pow2(ORDERS)
      requires Holds(lists, Span(low, low)) && Greedy(low, low, pages - low)
      modifies this`lists, freeHead, tailPprev, mem
      ensures Wired() && Holds(lists, Span(low, pages))
    {
      hide Holds, AllLinked, Aligned, Greedy, Span;
      var at: nat, range: nat := low, pages - low;
      while range != 0
        invariant Wired() && low <= at && at + range == pages
        invariant Holds(lists, Span(low, at)) && Greedy(low, at, range)
      {
        var i := LargestChunk(at, range);
        if i >= ORDERS {
          Pow2Monotone(ORDERS, i);
        }
        GreedyStop(low, at, range, i);
        GreedyStep(low, at, range, i);
        PushHolds(lists, Span(low, at), i, at);
        SpanEnds(low, at);
        NotListed(lists, Span(low, at), at);
        Link(i, at);
        at := at + Pow2(i);
        range := range - Pow2(i);
      }
    }

    // -------------------------------------------------------------------------
    // Links
    // -------------------------------------------------------------------------

    method SetBackLink(t: Ptr, l: Loc)
      requires match t case Chunk(p) => p < mem.Length case Tail(o) => o < tailPprev.Length
      modifies tailPprev, mem
      ensures View() == SetBack(old(View()), t, l)
    {
      match t {
        case Chunk(p) => mem[p] := mem[p].(pprev := l);
        case Tail(o) => tailPprev[o] := l;
      }
    }

    /** Put the chunk at `p` at the head of list `o`. */
    method Link(o: nat, p: nat)
      requires Wired() && o < ORDERS && p < pages && forall q: nat | q < ORDERS :: p !in lists[q]
      modifies this`lists, freeHead, tailPprev, mem
      ensures Wired() && lists == old(lists)[o := [p] + old(lists)[o]]
    {
      ghost var k := View();
      PushedLinked(k, lists, o, p);
      assert lists[o] != [] ==> Node(k.mem, lists[o], o, 0);
      mem[p] := Header(freeHead[o], HeadOf(o), o);
      SetBackLink(mem[p].next, NextOf(p));
      freeHead[o] := Chunk(p);
      assert View() == Pushed(k, lists, o, p);
      lists := lists[o := [p] + lists[o]];
    }

    /** Take the chunk at `p`, member `i` of list `o`, off its list. */
    method Unlink(p: nat, ghost o: nat, ghost i: nat)
      requires Wired() && o < ORDERS && i < |lists[o]| && p == lists[o][i]
      modifies this`lists, freeHead, tailPprev, mem
      ensures Wired() && lists == old(lists)[o := Without(old(lists)[o], i)]
    {
      ghost var k := View();
      NodeReady(k, lists, o, i);
      DroppedLinked(k, lists, o, i);
      match mem[p].pprev {
        case NextOf(q) => mem[q] := mem[q].(next := mem[p].next);
        case HeadOf(h) => freeHead[h] := mem[p].next;
      }
      SetBackLink(mem[p].next, mem[p].pprev);
      assert View() == Dropped(k, p);
      lists := lists[o := Without(lists[o], i)];
    }

    /** Take the first chunk off list `o`. */
    method Pop(o: nat) returns (p: nat)
      requires Wired() && o < ORDERS && lists[o] != []
      modifies this`lists, freeHead, tailPprev, mem
      ensures Wired() && p == old(lists)[o][0] && lists == old(lists)[o := Without(old(lists)[o], 0)]
    {
      ghost var k := View();
      NodeReady(k, lists, o, 0);
      DroppedLinked(k, lists, o, 0);
      p := freeHead[o].page;
      freeHead[o] := mem[p].next;
      SetBackLink(mem[p].next, mem[p].pprev);
      assert View() == Dropped(k, p);
      lists := lists[o := Without(lists[o], 0)];
    }

    // -------------------------------------------------------------------------
    // Allocation
    // -------------------------------------------------------------------------

    lemma NothingListed(order: nat)
      requires Valid() && forall o: nat | order <= o < ORDERS :: lists[o] == []
      ensures forall k: nat :: !FreeAt(Free(), order, k)
    {
      forall k: nat
        ensures !FreeAt(Free(), order, k)
      {
        if FreeAt(Free(), order, k) {
          FirstInside(order, k);
          var p := First(order, k);
          if order < ORDERS {
            var o := Climb(Free(), order, p, ORDERS);
            FirstInside(o, Shr(p, o));
            ListedIfMaximal(lists, Free(), o, First(o, Shr(p, o)));
          } else {
            Pow2Monotone(ORDERS, order);
            TopNotFree(Free(), order, k);
          }
        }
      }
    }

    /** A chunk taken off a list of order `i`, and what is left on the lists. */
    lemma ChunkTaken(ls: Lists, free: set<nat>, i: nat, p: nat)
      requires i < |ls| == ORDERS && ls[i] != [] && p == ls[i][0] && Holds(ls, free) && Distinct(ls[i])
      ensures Aligned(i, p) && Maximal(free, i, Shr(p, i))
      ensures Holds(ls[i := Without(ls[i], 0)], free - BlockSet(i, Shr(p, i)))
    {
      DropHolds(ls, free, i, 0);
      assert p in ls[i];
    }

    /** Split the chunk in hand from order `i` down to `order`; its upper halves go onto the lists. */
    method Split(p: nat, from: nat, order: nat, ghost free: set<nat>)
      requires Wired() && order <= from < ORDERS
      requires Aligned(from, p) && FreeAt(free, from, Shr(p, from)) && (forall x: nat | x in free :: x < pages)
      requires Holds(lists, free - BlockSet(from, Shr(p, from)))
      modifies this`lists, freeHead, tailPprev, mem
      ensures Wired() && Aligned(order, p) && FreeAt(free, order, Shr(p, order))
      ensures Holds(lists, free - BlockSet(order, Shr(p, order)))
    {
      hide Holds, FreeAt, Aligned, AllLinked, BlockSet;
      var i := from;
      while i != order
        invariant order <= i <= from && Wired()
        invariant Aligned(i, p) && FreeAt(free, i, Shr(p, i))
        invariant Holds(lists, free - BlockSet(i, Shr(p, i)))
      {
        i := i - 1;
        var spare := p + Pow2(i);
        ghost var rest := free - BlockSet(i + 1, Shr(p, i + 1));
        SplitStep(free, i, p);
        NotListed(lists, rest, spare);
        PushHolds(lists, rest, i, spare);
        Link(i, spare);
      }
    }

    lemma NotListed(ls: Lists, free: set<nat>, p: nat)
      requires Holds(ls, free) && p !in free
      ensures forall o: nat | o < |ls| :: p !in ls[o]
    {
      forall o: nat | o < |ls| && p in ls[o]
        ensures false
      {
        ListedFree(ls, free, o, p);
      }
    }

    /**
     * Allocate 2^order pages.  Fails exactly when no aligned run of that many free
     * pages exists; otherwise the run comes out of the smallest chunk that is large
     * enough, and exactly its pages are no longer free.
     */
    method AllocPages(order: nat) returns (r: Option<nat>, ghost from: nat)
      requires Valid() && order <= ORDERS
      modifies this`lists, freeHead, tailPprev, mem, bitmap
      ensures Valid()
      ensures r.None? <==> forall k: nat :: !FreeAt(old(Free()), order, k)
      ensures r.None? ==> Free() == old(Free())
      ensures r.Some? ==>
                && Aligned(order, r.value) && FreeAt(old(Free()), order, Shr(r.value, order))
                && Free() == old(Free()) - BlockSet(order, Shr(r.value, order))
                && order <= from < ORDERS && Aligned(from, r.value) && Maximal(old(Free()), from, Shr(r.value, from))
                && forall o: nat, k: nat | order <= o < from :: !Maximal(old(Free()), o, k)
    {
      hide Holds, FreeAt, Aligned, BlockSet, Maximal, FreeIn;
      var i := order;
      while i < ORDERS && freeHead[i].Tail?
        invariant order <= i <= ORDERS
        invariant forall o: nat | order <= o < i :: lists[o] == []
      {
        assert Linked(View(), lists[i], i);
        i := i + 1;
      }
      from := i;
      if i == ORDERS {
        NothingListed(order);
        return None, from;
      }
      assert Linked(View(), lists[i], i);
      ghost var free := Free();
      EmptyListsNoneMaximal(order, i);
      ChunkTaken(lists, free, i, lists[i][0]);
      MaximalIsFree(free, i, Shr(lists[i][0], i));
      var p := Pop(i);
      Split(p, i, order, free);
      FreeRunInside(order, p);
      MapAlloc(bitmap, p, Pow2(order));
      BlockMarked(old(bitmap[..]), bitmap[..], order, p, true);
      r := Some(p);
    }

    lemma MaximalIsFree(free: set<nat>, o: nat, k: nat)
      requires Maximal(free, o, k)
      ensures FreeAt(free, o, k)
    {
    }

    lemma EmptyListsNoneMaximal(lo: nat, hi: nat)
      requires Valid() && hi <= ORDERS && forall o: nat | lo <= o < hi :: lists[o] == []
      ensures forall o: nat, k: nat | lo <= o < hi :: !Maximal(Free(), o, k)
    {
      forall o: nat, k: nat | lo <= o < hi
        ensures !Maximal(Free(), o, k)
      {
        FirstInside(o, k);
        assert First(o, k) !in lists[o];
      }
    }

    lemma FreeRunInside(o: nat, p: nat)
      requires Sized() && Aligned(o, p) && FreeAt(Free(), o, Shr(p, o))
      ensures p + Pow2(o) <= pages && (p + Pow2(o)) / WORD < bitmap.Length
    {
      var last := p + Pow2(o) - 1;
      BlockPages(o, p, last);
      assert last in Free();
    }

    // -------------------------------------------------------------------------
    // Freeing
    // -------------------------------------------------------------------------

    /** The chunk in hand: block of order `o` at `base`, free but on no list. */
    ghost predicate InHand(o: nat, base: nat)
      reads this, bitmap
    {
      && o < ORDERS && Aligned(o, base) && FreeAt(Free(), o, Shr(base, o))
      && Holds(lists, Free() - BlockSet(o, Shr(base, o)))
    }

    lemma HandApart(free: set<nat>, o: nat, k: nat)
      ensures Apart(free - BlockSet(o, k), o, k)
    {
      BlockMembers(o, k);
    }

    lemma HandRestored(free: set<nat>, o: nat, k: nat)
      requires FreeAt(free, o, k)
      ensures free - BlockSet(o, k) + BlockSet(o, k) == free
    {
      BlockMembers(o, k);
    }

    /** What the bitmap and the level say about the sibling `b` of the chunk in hand. */
    lemma SiblingTest(o: nat, base: nat, b: nat)
      requires Wired() && Sized() && InHand(o, base) && b == First(o, Sibling(Shr(base, o)))
      ensures b in Free() ==> b < mem.Length
      ensures b in Free() && mem[b].level == o <==> b in lists[o]
      ensures b in lists[o] <==> FreeAt(Free() - BlockSet(o, Shr(base, o)), o, Sibling(Shr(base, o)))
    {
      hide AllLinked, FreeAt, Holds, Levelled, Apart;
      var k := Shr(base, o);
      var rest := Free() - BlockSet(o, k);
      LinkedLevels(View(), lists);
      HandApart(Free(), o, k);
      BlockMembers(o, k);
      FirstInside(o, Sibling(k));
      assert b in Free() <==> b in rest;
      MergeTest(lists, mem[..], rest, o, k, b);
    }

    lemma MergedFree(free: set<nat>, o: nat, k: nat)
      requires FreeAt(free, o, k) && FreeAt(free - BlockSet(o, k), o, Sibling(k))
      ensures FreeAt(free, o + 1, k / 2)
    {
      forall x: nat | Shr(x, o + 1) == k / 2
        ensures x in free
      {
        assert Shr(x, o) == k || Shr(x, o) == Sibling(k);
      }
    }

    /** A free block is smaller than the address space. */
    lemma OrderBound(o: nat, base: nat)
      requires Sized() && Aligned(o, base) && FreeAt(Free(), o, Shr(base, o))
      ensures o < ORDERS
    {
      FreeRunInside(o, base);
      if o >= ORDERS {
        Pow2Monotone(ORDERS, o);
      }
    }

    /** Merge the chunk in hand with its sibling, member `i` of list `o`. */
    method Merge(o: nat, base: nat, b: nat, ghost i: nat) returns (base': nat)
      requires Wired() && Sized() && InHand(o, base) && b == First(o, Sibling(Shr(base, o)))
      requires i < |lists[o]| && lists[o][i] == b
      modifies this`lists, freeHead, tailPprev, mem
      ensures Wired() && Sized() && InHand(o + 1, base')
    {
      hide FreeAt, Holds, BlockSet, FreeIn;
      ghost var k, free := Shr(base, o), Free();
      MergeStep(o, base);
      SiblingTest(o, base, b);
      assert b in lists[o];
      MergedFree(free, o, k);
      FirstInside(o, Sibling(k));
      DropHolds(lists, free - BlockSet(o, k), o, i);
      base' := if b < base then b else base;
      SiblingSide(o, k);
      assert free - BlockSet(o, k) - BlockSet(o, Sibling(k)) == free - BlockSet(o + 1, k / 2);
      Unlink(b, o, i);
      OrderBound(o + 1, base');
    }

    lemma SiblingSide(o: nat, k: nat)
      ensures First(o, Sibling(k)) < First(o, k) <==> k % 2 == 1
    {
      if k % 2 == 1 {
        FirstMonotone(o, k - 1, k);
      } else {
        FirstMonotone(o, k, k + 1);
      }
    }

    lemma Freed(free: set<nat>, o: nat, p: nat)
      requires Aligned(o, p) && Apart(free, o, Shr(p, o)) && p + Pow2(o) <= pages
      requires forall x: nat | x in free :: x < pages
      ensures var free', b := free + BlockSet(o, Shr(p, o)), BlockSet(o, Shr(p, o));
              FreeAt(free', o, Shr(p, o)) && free' - b == free && forall x: nat | x in free' :: x < pages
    {
      BlockMembers(o, Shr(p, o));
      forall x: nat | x in BlockSet(o, Shr(p, o))
        ensures x < pages
      {
        BlockPages(o, p, x);
      }
    }

    lemma BitTells(b: nat)
      requires b < WORD * bitmap.Length
      ensures Allocated(bitmap[..], b) <==> b !in Free()
    {
    }

    /** The chunk in hand goes onto its list when its sibling is not free. */
    lemma PutDown(o: nat, base: nat)
      requires Wired() && Sized() && InHand(o, base)
      requires !FreeAt(Free() - BlockSet(o, Shr(base, o)), o, Sibling(Shr(base, o)))
      ensures base < pages && forall q: nat | q < ORDERS :: base !in lists[q]
      ensures Holds(lists[o := [base] + lists[o]], Free())
    {
      hide Holds, BlockSet, AllLinked, FreeIn;
      var k := Shr(base, o);
      HandApart(Free(), o, k);
      HandRestored(Free(), o, k);
      PushHolds(lists, Free() - BlockSet(o, k), o, base);
      NotListed(lists, Free() - BlockSet(o, k), base);
      assert base in Free();
    }

    /**
     * Give back 2^order pages at `p`: exactly these pages become free.  The chunk
     * grows by its sibling as long as the sibling is a free chunk of equal order.
     */
    method FreePages(p: nat, order: nat)
      requires Valid() && order < ORDERS && Aligned(order, p) && p + Pow2(order) <= pages
      requires Apart(Free(), order, Shr(p, order))
      modifies this`lists, freeHead, tailPprev, mem, bitmap
      ensures Valid() && Free() == old(Free()) + BlockSet(order, Shr(p, order))
    {
      hide FreeAt, Holds, BlockSet, FreeIn, AllLinked, Aligned;
      MapFree(bitmap, p, Pow2(order));
      BlockMarked(old(bitmap[..]), bitmap[..], order, p, false);
      Freed(old(Free()), order, p);
      var base: nat, o: nat := p, order;
      while o < ORDERS
        invariant Wired() && Sized() && InHand(o, base) && Free() == old(Free()) + BlockSet(order, Shr(p, order))
        decreases ORDERS - o
      {
        var odd := Shr(base, o) % 2 == 1;
        MergeStep(o, base);
        FreeRunInside(o, base);
        var b := if odd then base - Pow2(o) else base + Pow2(o);
        SiblingTest(o, base, b);
        BitTells(b);
        var taken := AllocatedInMap(bitmap, b);
        if taken || mem[b].level != o {
          break;
        }
        ghost var i: nat :| i < |lists[o]| && lists[o][i] == b;
        base := Merge(o, base, b, i);
        o := o + 1;
      }
      PutDown(o, base);
      Link(o, base);
    }

    // -------------------------------------------------------------------------
    // The rest of the system, and the self-check
    // -------------------------------------------------------------------------

    /** Whoever owns an allocated page may write anything over it, a forged header included. */
    method Scribble(p: nat, h: Header)
      requires Valid() && p < pages && p !in Free()
      modifies mem
      ensures Valid() && Free() == old(Free()) && mem[p] == h
    {
      ghost var k := View();
      mem[p] := h;
      NotListed(lists, Free(), p);
      forall o: nat | o < ORDERS
        ensures Linked(View(), lists[o], o)
      {
        OthersKept(k, View(), lists[o], o);
      }
    }

    /** Walk all lists: no chunk head is marked allocated, and back links match. */
    method SanityCheck() returns (ok: bool)
      requires Valid()
      ensures ok
    {
      hide Holds, FreeIn;
      ok := true;
      var x := 0;
      while x < ORDERS
        invariant x <= ORDERS && ok
      {
        var head := freeHead[x];
        ghost var i: nat := 0;
        assert Linked(View(), lists[x], x);
        while head.Chunk?
          invariant i <= |lists[x]| && head == At(lists[x], x, i) && ok
          decreases |lists[x]| - i
        {
          var p := head.page;
          NodeReady(View(), lists, x, i);
          ChunkUnmarked(x, i);
          var marked := AllocatedInMap(bitmap, p);
          var next := mem[p].next;
          var back := if next.Chunk? then mem[next.page].pprev else tailPprev[next.order];
          assert i + 1 < |lists[x]| ==> Node(View().mem, lists[x], x, i + 1);
          ok := ok && !marked && back == NextOf(p);
          head := next;
          i := i + 1;
        }
        head := freeHead[x];
        assert lists[x] != [] ==> Node(View().mem, lists[x], x, 0);
        var first := if head.Chunk? then mem[head.page].pprev else tailPprev[head.order];
        ok := ok && first == HeadOf(x);
        x := x + 1;
      }
    }

    lemma ChunkUnmarked(o: nat, i: nat)
      requires Valid() && o < ORDERS && i < |lists[o]|
      ensures lists[o][i] < WORD * bitmap.Length && !Allocated(bitmap[..], lists[o][i])
    {
      assert lists[o][i] in lists[o];
      ListedFree(lists, Free(), o, lists[o][i]);
    }
  }
}
