/**
 * A new image: header, empty L1 table, refcount table and one refcount block.
 */
module QcowBlank {
  import opened Division
  import opened QcowLayout
  import opened QcowSpec
  import opened QcowSteps
  import opened QcowSnapshots
  import opened QcowFlat
  import opened QcowView

  /** A table of unallocated entries. */
  function Holes(n: nat): (t: seq<Entry>)
    ensures |t| == n && forall i: nat | i < n :: t[i] == NONE
  {
    seq(n, i => NONE)
  }

  /** Clusters of the header, the refcount table and the refcount block of a new image. */
  function NewMeta(l1Size: nat, l2Size: nat): set<nat>
    requires l2Size > 0
  {
    {0, 1 + Clusters(l1Size, l2Size), 2 + Clusters(l1Size, l2Size)}
  }

  function NewHost(l1Size: nat, l2Size: nat): Host
    requires l2Size > 0
  {
    map c: nat | 1 <= c < 1 + Clusters(l1Size, l2Size) && InArea(1, Clusters(l1Size, l2Size), c) :: Table(Holes(l2Size))
  }

  ghost function NewRoles(l1Size: nat, l2Size: nat): Roles
    requires l2Size > 0
  {
    map c: nat | 0 <= c < 3 + Clusters(l1Size, l2Size) ::
      if InArea(1, Clusters(l1Size, l2Size), c) then L1Area(1) else Meta
  }

  /** An image without any allocated cluster: every sector reads as the backing file has it. */
  ghost predicate Blank(lay: Layout, m: Image, l1Size: nat)
    requires lay.l2Size > 0
  {
    && m.reserved == lay.meta == NewMeta(l1Size, lay.l2Size)
    && m.host == NewHost(l1Size, lay.l2Size)
    && m.l1Offset == 1 && m.l1 == Holes(l1Size)
    && m.snaps == [] && m.dirClusters == 0
    && NewCounts(m.refcounts, Clusters(l1Size, lay.l2Size))
  }

  /** The counts of a new image whose L1 area has `n` clusters. */
  ghost predicate NewCounts(rc: map<nat, nat>, n: nat) {
    forall c: nat :: Rc(rc, c) == if c < 3 + n then 1 else 0
  }

  lemma NewCountsSmall(rc: map<nat, nat>, n: nat)
    requires NewCounts(rc, n)
    ensures SixteenBit(rc)
  {
  }

  lemma BlankImage(lay: Layout, m: Image, l1Size: nat)
    requires lay.l2Size > 0 && lay.meta == NewMeta(l1Size, lay.l2Size)
    requires m == Image(lay.meta, NewHost(l1Size, lay.l2Size), m.refcounts, 1, Holes(l1Size), [], 0, 0)
    requires NewCounts(m.refcounts, Clusters(l1Size, lay.l2Size))
    ensures Blank(lay, m, l1Size)
  {
  }

  lemma BlankReads(lay: Layout, m: Image, l1Size: nat)
    requires WellFormed(lay) && Blank(lay, m, l1Size)
    ensures forall s: nat :: FlatOf(lay, m).disk[s] == BackingSector(lay, s)
  {
    forall s: nat
      ensures GuestSector(lay, m.host, m.l1, s) == BackingSector(lay, s)
    {
      assert Pick(m.l1, Quot(Quot(s, lay.clusterSectors), lay.l2Size)) == NONE;
    }
  }

  lemma {:induction false} HolesListNothing(h: Host, t: seq<Entry>, n: nat, c: nat)
    requires n <= |t| && forall i: nat | i < n :: t[i] == NONE
    ensures L1Refs(h, t, n, c) == 0
  {
    if n > 0 { HolesListNothing(h, t, n - 1, c); }
  }

  lemma BlankSound(lay: Layout, m: Image, l1Size: nat)
    requires WellFormed(lay) && Blank(lay, m, l1Size) && l1Size > 0
    ensures Sound(lay, m, NewRoles(l1Size, lay.l2Size))
  {
    var l := lay.l2Size;
    var rs := Roots(lay, m);
    assert rs == [Root(1, m.l1)];
    forall i: nat | i < l1Size
      ensures Slot(m.host, 1, i, l) == NONE
    {
      SlotInArea(i, l1Size, l);
      assert InArea(1, Clusters(l1Size, l), 1 + Quot(i, l));
      assert TableAt(m.host, 1 + Quot(i, l)) == Holes(l);
    }
    assert ReadRun(m.host, 1, l1Size, l) == m.l1;
    forall c: nat
      ensures Rc(m.refcounts, c) == Refs(lay, m, c)
    {
      HolesListNothing(m.host, m.l1, l1Size, c);
      assert RootsRefs(m.host, rs, 1, c, l) == RootsRefs(m.host, rs, 0, c, l) + RootRefs(m.host, rs[0], c, l);
    }
  }
}
