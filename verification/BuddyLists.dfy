/**
 * The free lists of the buddy allocator: one doubly linked list per order, whose
 * links live in the first bytes of the free chunks themselves.  A chunk points
 * back at the pointer that points at it, and every list ends in a fixed tail.
 */
module BuddyLists {
  /** Where a link leads: to a chunk, named by its first page, or to a tail. */
  datatype Ptr = Chunk(page: nat) | Tail(order: nat)

  /** Where a link is stored: in a list head, or in a chunk. */
  datatype Loc = HeadOf(order: nat) | NextOf(page: nat)

  datatype Header = Header(next: Ptr, pprev: Loc, level: int)

  /** Heads, tails and the start of every page. */
  datatype Links = Links(heads: seq<Ptr>, tails: seq<Loc>, mem: seq<Header>)

  /** The pages on each list, first to last. */
  type Lists = seq<seq<nat>>

  function At(l: seq<nat>, o: nat, i: nat): Ptr {
    if i < |l| then Chunk(l[i]) else Tail(o)
  }

  function Before(l: seq<nat>, o: nat, i: nat): Loc
    requires i <= |l|
  {
    if i == 0 then HeadOf(o) else NextOf(l[i - 1])
  }

  predicate Node(mem: seq<Header>, l: seq<nat>, o: nat, i: nat)
    requires i < |l|
  {
    l[i] < |mem| && mem[l[i]] == Header(At(l, o, i + 1), Before(l, o, i), o)
  }

  /** List `o` is well linked and holds the pages `l`. */
  ghost predicate Linked(k: Links, l: seq<nat>, o: nat) {
    && o < |k.heads| && o < |k.tails|
    && k.heads[o] == At(l, o, 0)
    && k.tails[o] == Before(l, o, |l|)
    && forall i: nat | i < |l| :: Node(k.mem, l, o, i)
  }

  ghost predicate Distinct(l: seq<nat>) {
    forall i: nat, j: nat | i < j < |l| :: l[i] != l[j]
  }

  /** All lists are well linked and share no page. */
  ghost predicate AllLinked(k: Links, ls: Lists) {
    && |k.heads| == |k.tails| == |ls|
    && (forall o: nat | o < |ls| :: Linked(k, ls[o], o) && Distinct(ls[o]))
    && (forall o: nat, o': nat, p: nat | o < o' < |ls| && p in ls[o] :: p !in ls[o'])
  }

  // ---------------------------------------------------------------------------
  // The two updates
  // ---------------------------------------------------------------------------

  /** Make the link that leads to `t` remember that it is stored at `l`. */
  function SetBack(k: Links, t: Ptr, l: Loc): (r: Links)
    requires match t case Chunk(p) => p < |k.mem| case Tail(o) => o < |k.tails|
    ensures |r.mem| == |k.mem| && |r.tails| == |k.tails| && r.heads == k.heads
  {
    match t
    case Chunk(p) => k.(mem := k.mem[p := k.mem[p].(pprev := l)])
    case Tail(o) => k.(tails := k.tails[o := l])
  }

  /** Store the link `t` at `l`. */
  function SetLink(k: Links, l: Loc, t: Ptr): (r: Links)
    requires match l case NextOf(p) => p < |k.mem| case HeadOf(o) => o < |k.heads|
    ensures |r.mem| == |k.mem| && |r.heads| == |k.heads| && r.tails == k.tails
  {
    match l
    case NextOf(p) => k.(mem := k.mem[p := k.mem[p].(next := t)])
    case HeadOf(o) => k.(heads := k.heads[o := t])
  }

  /** Page `p` becomes the first chunk of list `o`. */
  ghost function Pushed(k: Links, ls: Lists, o: nat, p: nat): Links
    requires AllLinked(k, ls) && o < |ls| && p < |k.mem|
  {
    var t := k.heads[o];
    assert ls[o] != [] ==> Node(k.mem, ls[o], o, 0);
    var k1 := k.(mem := k.mem[p := Header(t, HeadOf(o), o)]);
    var k2 := SetBack(k1, t, NextOf(p));
    k2.(heads := k2.heads[o := Chunk(p)])
  }

  lemma OthersKept(k: Links, k': Links, l: seq<nat>, o: nat)
    requires Linked(k, l, o)
    requires o < |k'.heads| && o < |k'.tails| && k'.heads[o] == k.heads[o] && k'.tails[o] == k.tails[o]
    requires |k'.mem| == |k.mem| && forall p: nat | p in l && p < |k.mem| :: k'.mem[p] == k.mem[p]
    ensures Linked(k', l, o)
  {
    forall i: nat | i < |l|
      ensures Node(k'.mem, l, o, i)
    {
      assert Node(k.mem, l, o, i);
      assert l[i] in l;
    }
  }

  lemma PushedLinked(k: Links, ls: Lists, o: nat, p: nat)
    requires AllLinked(k, ls) && o < |ls| && p < |k.mem|
    requires forall q: nat | q < |ls| :: p !in ls[q]
    ensures AllLinked(Pushed(k, ls, o, p), ls[o := [p] + ls[o]])
  {
    var k' := Pushed(k, ls, o, p);
    var l, l' := ls[o], [p] + ls[o];
    var ls' := ls[o := l'];
    assert k.heads[o] == At(l, o, 0);
    assert Linked(k', l', o) && Distinct(l') by {
      PushedHere(k, ls, o, p);
    }
    forall q: nat | q < |ls| && q != o
      ensures Linked(k', ls[q], q)
    {
      assert forall x: nat | x in ls[q] :: x !in l && x != p;
      assert l != [] ==> l[0] in l;
      OthersKept(k, k', ls[q], q);
    }
    assert forall x: nat | x in l' :: x == p || x in l;
  }

  lemma PushedHere(k: Links, ls: Lists, o: nat, p: nat)
    requires AllLinked(k, ls) && o < |ls| && p < |k.mem| && p !in ls[o]
    ensures Linked(Pushed(k, ls, o, p), [p] + ls[o], o) && Distinct([p] + ls[o])
  {
    var k' := Pushed(k, ls, o, p);
    var l, l' := ls[o], [p] + ls[o];
    assert l != [] ==> l[0] in l && Node(k.mem, l, o, 0);
    assert At(l', o, 1) == At(l, o, 0);
    forall i: nat | i < |l'|
      ensures Node(k'.mem, l', o, i)
    {
      if i > 0 {
        assert Node(k.mem, l, o, i - 1);
        assert l'[i] == l[i - 1] && l[i - 1] in l;
        assert At(l', o, i + 1) == At(l, o, i);
      }
    }
  }

  /** The chunk at `p` leaves its list: its neighbours are tied together. */
  function Dropped(k: Links, p: nat): Links
    requires p < |k.mem|
    requires match k.mem[p].pprev case NextOf(q) => q < |k.mem| case HeadOf(o) => o < |k.heads|
    requires match k.mem[p].next case Chunk(q) => q < |k.mem| case Tail(o) => o < |k.tails|
  {
    SetBack(SetLink(k, k.mem[p].pprev, k.mem[p].next), k.mem[p].next, k.mem[p].pprev)
  }

  function Without(l: seq<nat>, i: nat): seq<nat>
    requires i < |l|
  {
    l[..i] + l[i + 1..]
  }

  lemma NodeReady(k: Links, ls: Lists, o: nat, i: nat)
    requires AllLinked(k, ls) && o < |ls| && i < |ls[o]|
    ensures var p := ls[o][i];
            && p < |k.mem| && k.mem[p] == Header(At(ls[o], o, i + 1), Before(ls[o], o, i), o)
            && (match k.mem[p].pprev case NextOf(q) => q < |k.mem| case HeadOf(h) => h < |k.heads|)
            && (match k.mem[p].next case Chunk(q) => q < |k.mem| case Tail(h) => h < |k.tails|)
  {
    assert Node(k.mem, ls[o], o, i);
    if i > 0 { assert Node(k.mem, ls[o], o, i - 1); }
    if i + 1 < |ls[o]| { assert Node(k.mem, ls[o], o, i + 1); }
  }

  lemma DroppedHere(k: Links, ls: Lists, o: nat, i: nat)
    requires AllLinked(k, ls) && o < |ls| && i < |ls[o]|
    ensures ls[o][i] < |k.mem|
    ensures var p := ls[o][i];
            && (match k.mem[p].pprev case NextOf(q) => q < |k.mem| case HeadOf(h) => h < |k.heads|)
            && (match k.mem[p].next case Chunk(q) => q < |k.mem| case Tail(h) => h < |k.tails|)
            && Linked(Dropped(k, p), Without(ls[o], i), o)
  {
    NodeReady(k, ls, o, i);
    var l, l' := ls[o], Without(ls[o], i);
    var k' := Dropped(k, l[i]);
    forall j: nat | j < |l'|
      ensures Node(k'.mem, l', o, j)
    {
      var j' := if j < i then j else j + 1;
      assert l'[j] == l[j'];
      assert Node(k.mem, l, o, j');
    }
  }

  lemma WithoutMembers(l: seq<nat>, i: nat)
    requires i < |l| && Distinct(l)
    ensures Distinct(Without(l, i))
    ensures forall x: nat :: x in Without(l, i) <==> x in l && x != l[i]
  {
    var l' := Without(l, i);
    forall x: nat | x in l && x != l[i]
      ensures x in l'
    {
      var j: nat :| j < |l| && l[j] == x;
      assert l'[if j < i then j else j - 1] == x;
    }
  }

  lemma DroppedLinked(k: Links, ls: Lists, o: nat, i: nat)
    requires AllLinked(k, ls) && o < |ls| && i < |ls[o]|
    ensures ls[o][i] < |k.mem|
    ensures var p := ls[o][i];
            && (match k.mem[p].pprev case NextOf(q) => q < |k.mem| case HeadOf(h) => h < |k.heads|)
            && (match k.mem[p].next case Chunk(q) => q < |k.mem| case Tail(h) => h < |k.tails|)
            && AllLinked(Dropped(k, p), ls[o := Without(ls[o], i)])
  {
    NodeReady(k, ls, o, i);
    DroppedHere(k, ls, o, i);
    WithoutMembers(ls[o], i);
    var k' := Dropped(k, ls[o][i]);
    forall q: nat | q < |ls| && q != o
      ensures Linked(k', ls[q], q)
    {
      assert forall x: nat | x in ls[q] :: x !in ls[o];
      OthersKept(k, k', ls[q], q);
    }
  }
}
