/**
 * What a QCOW2 image means, and what keeps it sound: the guest disk that each
 * root describes, the reference counts and COPIED flags that the image checker
 * demands, and how the elementary updates of the driver preserve all of it.
 */
module QcowSpec {
  import opened Division
  import opened QcowLayout

  /** Sector encryption; the sector number is the initialisation vector. */
  datatype Cipher = Cipher(enc: (nat, Sector) -> Sector, dec: (nat, Sector) -> Sector)

  ghost predicate Inverts(k: Cipher) {
    forall n: nat, x: Sector :: k.dec(n, k.enc(n, x)) == x
  }

  function Zeros(n: nat): (b: seq<bv8>)
    ensures |b| == n && forall i: nat | i < n :: b[i] == 0
  {
    seq(n, i => 0)
  }

  /** What a hole reads as when no backing file covers it. */
  function ZeroSector(): Sector {
    Sector(Zeros(512))
  }

  /** What never changes while an image is open. */
  datatype Layout = Layout(
    l2Size: nat,            // entries per table cluster
    clusterSectors: nat,    // sectors per data cluster
    meta: set<nat>,         // header, refcount table and refcount blocks
    cipher: Cipher,
    backing: seq<Sector>)   // the backing file; empty when there is none

  datatype Image = Image(
    reserved: set<nat>,     // the meta clusters, and clusters that were lost
    host: Host,
    refcounts: map<nat, nat>,
    l1Offset: nat,
    l1: seq<Entry>,
    snaps: seq<Snapshot>,
    dirOffset: nat,
    dirClusters: nat)

  /** The use of a cluster.  Tables and data remember their guest position. */
  datatype Role =
    | Meta
    | DirectoryArea
    | L1Area(off: nat)
    | L2At(i: nat)
    | DataAt(i: nat, j: nat)

  type Roles = map<nat, Role>

  ghost predicate WellFormed(lay: Layout) {
    && lay.l2Size > 0
    && lay.clusterSectors > 0
    && Inverts(lay.cipher)
  }

  // ---------------------------------------------------------------------------
  // The guest disk
  // ---------------------------------------------------------------------------

  function BackingSector(lay: Layout, s: nat): Sector {
    if s < |lay.backing| then lay.backing[s] else ZeroSector()
  }

  /** The data cluster of guest cluster `g`, or 0. */
  function Lookup(lay: Layout, h: Host, t: seq<Entry>, g: nat): nat
    requires lay.l2Size > 0
  {
    var e := Pick(t, Quot(g, lay.l2Size));
    if e.cluster == 0 then 0 else Pick(TableAt(h, e.cluster), Rem(g, lay.l2Size)).cluster
  }

  /** Sector `s` belongs to entry `j` of the L2 table at L1 entry `i`. */
  predicate AtPosition(lay: Layout, s: nat, i: nat, j: nat)
    requires lay.l2Size > 0 && lay.clusterSectors > 0
  {
    Quot(Quot(s, lay.clusterSectors), lay.l2Size) == i && Rem(Quot(s, lay.clusterSectors), lay.l2Size) == j
  }

  /** Guest sector `s` as stored in data cluster `d`, or as the backing file has it. */
  function SectorIn(lay: Layout, h: Host, d: nat, s: nat): Sector
    requires lay.clusterSectors > 0
  {
    if d == 0 || !IsData(h, d, lay.clusterSectors) then BackingSector(lay, s)
    else lay.cipher.dec(s, h[d].sectors[Rem(s, lay.clusterSectors)])
  }

  /** What the root `t` holds at guest sector `s`. */
  function GuestSector(lay: Layout, h: Host, t: seq<Entry>, s: nat): Sector
    requires lay.l2Size > 0 && lay.clusterSectors > 0
  {
    SectorIn(lay, h, Lookup(lay, h, t, Quot(s, lay.clusterSectors)), s)
  }

  // ---------------------------------------------------------------------------
  // The demands on an image
  // ---------------------------------------------------------------------------

  function Rc(rc: map<nat, nat>, c: nat): nat {
    if c in rc then rc[c] else 0
  }

  const COUNT_LIMIT: nat := 0xffff

  /** Every count fits its 16 bits. */
  ghost predicate SixteenBit(rc: map<nat, nat>) {
    forall c: nat :: Rc(rc, c) <= COUNT_LIMIT
  }

  function SnapRoot(lay: Layout, h: Host, sn: Snapshot): Root
    requires lay.l2Size > 0
  {
    Root(sn.l1Offset, ReadRun(h, sn.l1Offset, sn.l1Size, lay.l2Size))
  }

  /** The active root, then one root per snapshot. */
  function Roots(lay: Layout, m: Image): seq<Root>
    requires lay.l2Size > 0
  {
    [Root(m.l1Offset, m.l1)]
    + seq(|m.snaps|, k requires 0 <= k < |m.snaps| => SnapRoot(lay, m.host, m.snaps[k]))
  }

  /** References to cluster `c`: reserved, directory, and root by root. */
  function Refs(lay: Layout, m: Image, c: nat): nat
    requires lay.l2Size > 0
  {
    (if c in m.reserved then 1 else 0)
    + AreaRefs(m.dirOffset, m.dirClusters, c)
    + RootsRefs(m.host, Roots(lay, m), |m.snaps| + 1, c, lay.l2Size)
  }

  ghost predicate DataOK(lay: Layout, h: Host, role: Roles, i: nat, j: nat, e: Entry) {
    && (e.cluster == 0 ==> e == NONE)
    && (e.cluster != 0 ==>
          && e.cluster in role && role[e.cluster] == DataAt(i, j)
          && IsData(h, e.cluster, lay.clusterSectors))
  }

  ghost predicate TableOK(lay: Layout, h: Host, role: Roles, i: nat, e: Entry) {
    && (e.cluster == 0 ==> e == NONE)
    && (e.cluster != 0 ==>
          && e.cluster in role && role[e.cluster] == L2At(i)
          && IsTable(h, e.cluster, lay.l2Size)
          && forall j: nat | j < lay.l2Size :: DataOK(lay, h, role, i, j, TableAt(h, e.cluster)[j]))
  }

  ghost predicate AreaOK(lay: Layout, h: Host, role: Roles, off: nat, n: nat) {
    forall c: nat | InArea(off, n, c) ::
      c in role && role[c] == L1Area(off) && IsTable(h, c, lay.l2Size)
  }

  ghost predicate RootOK(lay: Layout, h: Host, role: Roles, r: Root)
    requires lay.l2Size > 0
  {
    && |r.tab| > 0
    && AreaOK(lay, h, role, r.off, Clusters(|r.tab|, lay.l2Size))
    && forall i: nat | i < |r.tab| :: TableOK(lay, h, role, i, r.tab[i])
  }

  /** Every cluster has one use, every table entry points at a cluster of the right use. */
  ghost predicate Shaped(lay: Layout, m: Image, role: Roles)
    requires lay.l2Size > 0
  {
    && (forall a: nat | a <= |m.snaps| :: RootOK(lay, m.host, role, Roots(lay, m)[a]))
    && (forall a: nat | a < |m.snaps| :: m.snaps[a].l1Offset != m.l1Offset)
    && (forall a: nat, b: nat | a < b < |m.snaps| :: m.snaps[a].l1Offset != m.snaps[b].l1Offset)
    && 0 in m.reserved
    && (forall c: nat | c in m.reserved :: c in role && role[c] == Meta)
    && (forall c: nat | InArea(m.dirOffset, m.dirClusters, c) :: c in role && role[c] == DirectoryArea)
    && ReadRun(m.host, m.l1Offset, |m.l1|, lay.l2Size) == m.l1
  }

  /** The stored counts are the counted references. */
  ghost predicate Counted(lay: Layout, m: Image)
    requires lay.l2Size > 0
  {
    forall c: nat :: Rc(m.refcounts, c) == Refs(lay, m, c)
  }

  ghost predicate FlagOK(rc: map<nat, nat>, e: Entry) {
    e.cluster != 0 ==> (e.copied <==> Rc(rc, e.cluster) == 1)
  }

  ghost predicate EntryFlagged(h: Host, e: Entry, rc: map<nat, nat>) {
    e.cluster != 0 ==>
      && FlagOK(rc, e)
      && forall j: nat | j < |TableAt(h, e.cluster)| :: FlagOK(rc, TableAt(h, e.cluster)[j])
  }

  /** In a root, COPIED says "reference count is exactly one", at both levels. */
  ghost predicate Flagged(h: Host, t: seq<Entry>, rc: map<nat, nat>) {
    forall i: nat | i < |t| :: EntryFlagged(h, t[i], rc)
  }

  ghost predicate Sound(lay: Layout, m: Image, role: Roles)
    requires lay.l2Size > 0
  {
    Shaped(lay, m, role) && Counted(lay, m) && Flagged(m.host, m.l1, m.refcounts)
  }

  lemma SoundParts(lay: Layout, m: Image, role: Roles)
    requires lay.l2Size > 0 && Sound(lay, m, role)
    ensures Shaped(lay, m, role) && Counted(lay, m) && Flagged(m.host, m.l1, m.refcounts) && 0 in m.reserved
  {
  }

  // ---------------------------------------------------------------------------
  // What the counts say about sharing
  // ---------------------------------------------------------------------------

  /** `c` is used by nothing at all. */
  ghost predicate Unused(lay: Layout, m: Image, c: nat)
    requires lay.l2Size > 0
  {
    && c != 0
    && c !in m.reserved
    && !InArea(m.dirOffset, m.dirClusters, c)
    && forall a: nat | a <= |m.snaps| ::
         && !InArea(Roots(lay, m)[a].off, Clusters(|Roots(lay, m)[a].tab|, lay.l2Size), c)
         && !Lists(m.host, Roots(lay, m)[a].tab, c)
  }

  lemma NoRefsUnused(lay: Layout, m: Image, c: nat)
    requires WellFormed(lay) && 0 in m.reserved && Refs(lay, m, c) == 0
    ensures Unused(lay, m, c)
  {
    var rs := Roots(lay, m);
    forall a: nat | a <= |m.snaps|
      ensures !InArea(rs[a].off, Clusters(|rs[a].tab|, lay.l2Size), c) && !Lists(m.host, rs[a].tab, c)
    {
      RootsRefsAtLeast(m.host, rs, a, |rs|, c, lay.l2Size);
      if Lists(m.host, rs[a].tab, c) {
        ListsCounted(m.host, rs[a].tab, c);
      }
    }
  }

  /** A cluster with stored count zero is used by nothing, so handing it out is safe. */
  lemma FreeIsUnused(lay: Layout, m: Image, c: nat)
    requires WellFormed(lay) && 0 in m.reserved && Counted(lay, m) && Rc(m.refcounts, c) == 0
    ensures Unused(lay, m, c)
  {
    NoRefsUnused(lay, m, c);
  }

  /** A cluster with count one that the active root lists is out of reach of every snapshot. */
  lemma SoleOwner(lay: Layout, m: Image, c: nat)
    requires WellFormed(lay) && Counted(lay, m)
    requires c != 0 && Rc(m.refcounts, c) == 1 && Lists(m.host, m.l1, c)
    ensures forall a: nat | 0 < a <= |m.snaps| :: !Lists(m.host, Roots(lay, m)[a].tab, c)
  {
    var rs := Roots(lay, m);
    assert Refs(lay, m, c) == 1;
    ListsCounted(m.host, m.l1, c);
    assert rs[0] == Root(m.l1Offset, m.l1);
    forall a: nat | 0 < a <= |m.snaps|
      ensures !Lists(m.host, rs[a].tab, c)
    {
      RootsRefsTwo(m.host, rs, 0, a, |rs|, c, lay.l2Size);
      if Lists(m.host, rs[a].tab, c) {
        ListsCounted(m.host, rs[a].tab, c);
      }
    }
  }

  /** A cluster that the active root lists without the COPIED flag is shared: its count exceeds one. */
  lemma UnflaggedIsShared(lay: Layout, m: Image, e: Entry)
    requires WellFormed(lay) && Counted(lay, m) && e.cluster != 0
    requires FlagOK(m.refcounts, e) && !e.copied && Lists(m.host, m.l1, e.cluster)
    ensures Rc(m.refcounts, e.cluster) >= 2
  {
    ListsCounted(m.host, m.l1, e.cluster);
    var rs := Roots(lay, m);
    assert rs[0] == Root(m.l1Offset, m.l1);
    RootsRefsAtLeast(m.host, rs, 0, |rs|, e.cluster, lay.l2Size);
    assert Refs(lay, m, e.cluster) >= 1;
  }
}
