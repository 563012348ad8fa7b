/**
 * A whole life of an image: it is created, used and checked.
 */
module QcowSession {
  import opened Division
  import opened QcowLayout
  import opened QcowSpec
  import opened QcowFlat
  import opened QcowIds
  import opened QcowLimits
  import opened QcowSnapshots
  import opened QcowView
  import opened QcowBlank
  import opened QcowDriver
  import opened QcowChecker

  /** The checker and the counts differ by the lost clusters, and by nothing else. */
  lemma SeenByChecker(lay: Layout, m: Image, lost: set<nat>, c: nat)
    requires lay.l2Size > 0 && m.reserved == lay.meta + lost && lost !! lay.meta
    ensures Refs(lay, m, c) == Refs(lay, m.(reserved := lay.meta), c) + if c in lost then 1 else 0
  {
    assert Roots(lay, m.(reserved := lay.meta)) == Roots(lay, m);
  }

  /** A sound image passes the check if and only if no cluster was lost. */
  lemma CleanUnlessLost(lay: Layout, m: Image, role: Roles, lost: set<nat>, clusters: nat)
    requires WellFormed(lay) && Sound(lay, m, role) && SixteenBit(m.refcounts)
    requires m.reserved == lay.meta + lost && lost !! lay.meta
    requires forall c: nat :: Rc(m.refcounts, c) > 0 ==> c < clusters
    ensures Clean(lay, m, clusters) <==> lost == {}
  {
    hide Refs, Flagged, Roots;
    SoundParts(lay, m, role);
    var d := OnDisk(lay, m);
    StoredTable(lay, m, role);
    forall c: nat
      ensures Rc(m.refcounts, c) == Refs(lay, d, c) + if c in lost then 1 else 0
    {
      SeenByChecker(lay, m, lost, c);
    }
    if lost != {} {
      var c :| c in lost;
      assert Rc(m.refcounts, c) != Refs(lay, d, c);
    }
  }

  lemma StoredTable(lay: Layout, m: Image, role: Roles)
    requires lay.l2Size > 0 && Shaped(lay, m, role)
    ensures OnDisk(lay, m) == m.(reserved := lay.meta)
  {
    hide RootOK;
  }

  /** A file length that covers every counted cluster. */
  method FileClusters(rc: map<nat, nat>) returns (clusters: nat)
    ensures forall c: nat :: Rc(rc, c) > 0 ==> c < clusters
  {
    clusters := 0;
    var rest := rc.Keys;
    while rest != {}
      invariant forall c: nat | c in rc :: c in rest || c < clusters
      decreases rest
    {
      var c :| c in rest;
      rest := rest - {c};
      if c >= clusters { clusters := c + 1; }
    }
  }

  /** The flat disk of a new image. */
  ghost function NewFlat(lay: Layout): (f: Flat)
    ensures WholeFlat(f)
  {
    Flat(imap s: nat | s >= 0 :: BackingSector(lay, s), [])
  }

  lemma BlankFlat(disk: QcowDisk)
    requires disk.Fixed() && disk.snaps == []
    requires forall s: nat :: FlatOf(disk.lay, disk.View()).disk[s] == BackingSector(disk.lay, s)
    ensures FlatOf(disk.lay, disk.View()) == NewFlat(disk.lay)
    ensures SizesOf(disk.View()) == Sizes(|disk.l1|, [])
  {
    assert FlatOf(disk.lay, disk.View()).disk == NewFlat(disk.lay).disk;
  }

  /**
   * From a new image, every run of operations gives the replies of the flat disk,
   * and the checker is content afterwards if and only if no goto of the run left
   * part of the L1 area behind.  The new image has one refcount block; that this
   * block covers every cluster the run comes to use is taken for granted here.
   */
  method Session(lay: Layout, junk: seq<Sector>, l1Size: nat, ops: seq<Op>) returns (replies: seq<Reply>, ok: bool)
    requires WellFormed(lay) && |junk| == lay.clusterSectors && l1Size > 0
    requires lay.meta == NewMeta(l1Size, lay.l2Size) && FewCopies(NewFlat(lay), ops, COUNT_LIMIT - 2)
    ensures replies == RunFlat(NewFlat(lay), ops).1
    ensures ok <==> KeepsAll(Geometry(lay.clusterSectors, lay.l2Size), NewFlat(lay), Sizes(l1Size, []), ops)
  {
    hide Sound, SixteenBit, FlatOf, SizesOf, Keeps, Clean;
    var disk := new QcowDisk(lay, junk, l1Size);
    BlankFlat(disk);
    replies := disk.Run(ops);
    var clusters := FileClusters(disk.refcounts);
    var m := Image(lay.meta, disk.host, disk.refcounts, disk.l1Offset, disk.l1, disk.snaps, disk.dirOffset,
      disk.dirClusters);
    ok := CheckRefcounts(lay, m, clusters);
    CleanUnlessLost(lay, disk.View(), disk.role, disk.lost, clusters);
    assert OnDisk(lay, m) == OnDisk(lay, disk.View());
    SameVerdict(lay, m, disk.View(), clusters);
  }

  lemma SameVerdict(lay: Layout, m: Image, m': Image, clusters: nat)
    requires lay.l2Size > 0 && OnDisk(lay, m) == OnDisk(lay, m') && m.host == m'.host && m.refcounts == m'.refcounts
    ensures Clean(lay, m, clusters) <==> Clean(lay, m', clusters)
  {
    hide OnDisk, Refs;
  }

  // ---------------------------------------------------------------------------
  // Counts that run out
  // ---------------------------------------------------------------------------

  /** What reads other than the backing file is in a cluster that the active root lists. */
  lemma WrittenListed(lay: Layout, m: Image) returns (c: nat)
    requires WellFormed(lay) && GuestSector(lay, m.host, m.l1, 0) != BackingSector(lay, 0)
    ensures ActiveUse(m, c) > 0
  {
    var g := Quot(0, lay.clusterSectors);
    c := Lookup(lay, m.host, m.l1, g);
    var i, j := Quot(g, lay.l2Size), Rem(g, lay.l2Size);
    assert c != 0 && Pick(m.l1, i).cluster != 0;
    assert TableAt(m.host, m.l1[i].cluster)[j].cluster == c;
    assert ListedBy(m.host, m.l1[i], c);
    ListsCounted(m.host, m.l1, c);
  }

  /** Without snapshots, what the active root lists has count one. */
  lemma ListedOnce(lay: Layout, m: Image, role: Roles, c: nat)
    requires WellFormed(lay) && Sound(lay, m, role) && m.snaps == [] && ActiveUse(m, c) > 0
    ensures Rc(m.refcounts, c) == 1
  {
    hide Shaped, Refs, L1Refs;
    ListedBound(lay, m, role, c);
    ListedCounted(lay, m, role, c);
    assert Rc(m.refcounts, c) == Refs(lay, m, c);
  }

  /**
   * Write one sector, then take 65535 snapshots: the last one finds the count of
   * the sector's cluster at its limit, and leaves an image whose counts are wrong.
   */
  method ExhaustCounts(lay: Layout, junk: seq<Sector>, l1Size: nat, x: Sector) returns (disk: QcowDisk)
    requires WellFormed(lay) && |junk| == lay.clusterSectors && l1Size > 0
    requires lay.meta == NewMeta(l1Size, lay.l2Size) && x != BackingSector(lay, 0)
    ensures fresh(disk) && disk.lay == lay && |disk.snaps| == COUNT_LIMIT && !Counted(lay, disk.View())
  {
    hide Sound, SixteenBit, FlatOf, Step, Counted, ActiveUse;
    disk := new QcowDisk(lay, junk, l1Size);
    disk.Write(0, [x]);
    ghost var c := WrittenListed(lay, disk.View());
    ListedOnce(lay, disk.View(), disk.role, c);
    NoCopies(disk);
    var k := 0;
    while k < COUNT_LIMIT - 1
      invariant k <= COUNT_LIMIT - 1 && disk.Valid() && disk.lay == lay && |disk.snaps| == k
      invariant IdsOf(FlatOf(lay, disk.View()).frozen) == MadeUp(k)
      invariant ActiveUse(disk.View(), c) > 0 && Rc(disk.refcounts, c) == k + 1
    {
      k := OneMoreCopy(disk, c, k);
    }
    ghost var f := FlatOf(lay, disk.View());
    UnnamedStep(f, "", k);
    var ok := disk.Create("", "");
  }

  lemma NoCopies(disk: QcowDisk)
    requires disk.Fixed() && disk.snaps == []
    ensures IdsOf(FlatOf(disk.lay, disk.View()).frozen) == MadeUp(0)
  {
  }

  method OneMoreCopy(disk: QcowDisk, ghost c: nat, k: nat) returns (k': nat)
    requires disk.Valid() && |disk.snaps| == k < COUNT_LIMIT - 1
    requires IdsOf(FlatOf(disk.lay, disk.View()).frozen) == MadeUp(k)
    requires ActiveUse(disk.View(), c) > 0 && Rc(disk.refcounts, c) == k + 1
    modifies disk
    ensures disk.Valid() && |disk.snaps| == k' == k + 1
    ensures IdsOf(FlatOf(disk.lay, disk.View()).frozen) == MadeUp(k')
    ensures ActiveUse(disk.View(), c) > 0 && Rc(disk.refcounts, c) == k' + 1
  {
    hide Sound, SixteenBit, FlatOf, Step, Counted, L1Refs;
    ghost var m := disk.View();
    disk.RoomForOneMore(m);
    disk.UsedOnce(m, c);
    UnnamedStep(FlatOf(disk.lay, m), "", k);
    var ok := disk.Create("", "");
    k' := k + 1;
  }
}
