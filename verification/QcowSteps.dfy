/**
 * The elementary updates of a QCOW2 image made by guest writes: a private L2
 * table for the active root, a private data cluster, and a write in place.  Each
 * keeps the image sound and leaves every snapshot's disk as it was.
 */
module QcowSteps {
  import opened Division
  import opened QcowLayout
  import opened QcowSpec

  /** Nothing but the active root's tables and data uses `c`. */
  ghost predicate Private(lay: Layout, m: Image, c: nat)
    requires lay.l2Size > 0
  {
    && c !in m.reserved
    && !InArea(m.dirOffset, m.dirClusters, c)
    && forall a: nat | a < |m.snaps| ::
         && !InArea(m.snaps[a].l1Offset, Clusters(m.snaps[a].l1Size, lay.l2Size), c)
         && !Lists(m.host, SnapRoot(lay, m.host, m.snaps[a]).tab, c)
  }

  /** The two files agree outside `D`. */
  ghost predicate AgreeOutside(h: Host, h': Host, D: set<nat>) {
    forall c: nat | c !in D :: (c in h <==> c in h') && (c in h ==> h[c] == h'[c])
  }

  ghost predicate RolesOutside(role: Roles, role': Roles, D: set<nat>) {
    forall c: nat | c !in D :: (c in role <==> c in role') && (c in role ==> role[c] == role'[c])
  }

  /** A root that uses nothing in `D` keeps its tables, its counts and its disk. */
  lemma RootUntouched(lay: Layout, h: Host, h': Host, role: Roles, role': Roles, r: Root, D: set<nat>)
    requires WellFormed(lay) && RootOK(lay, h, role, r)
    requires AgreeOutside(h, h', D) && RolesOutside(role, role', D)
    requires forall c: nat | c in D :: !InArea(r.off, Clusters(|r.tab|, lay.l2Size), c) && !Lists(h, r.tab, c)
    ensures RootOK(lay, h', role', r)
    ensures forall c: nat :: RootRefs(h', r, c, lay.l2Size) == RootRefs(h, r, c, lay.l2Size)
    ensures forall s: nat :: GuestSector(lay, h', r.tab, s) == GuestSector(lay, h, r.tab, s)
  {
    forall i: nat | i < |r.tab|
      ensures TableOK(lay, h', role', i, r.tab[i])
      ensures r.tab[i].cluster != 0 ==> TableAt(h', r.tab[i].cluster) == TableAt(h, r.tab[i].cluster)
    {
      EntryUntouched(lay, h, h', role, role', r.tab, i, D);
    }
    assert SameTables(h, h', r.tab);
    forall c: nat
      ensures RootRefs(h', r, c, lay.l2Size) == RootRefs(h, r, c, lay.l2Size)
    {
      RootRefsSame(h, h', r, r, c, lay.l2Size);
    }
    forall s: nat
      ensures GuestSector(lay, h', r.tab, s) == GuestSector(lay, h, r.tab, s)
    {
      var g := Quot(s, lay.clusterSectors);
      var e := Pick(r.tab, Quot(g, lay.l2Size));
      if e.cluster != 0 {
        var f := TableAt(h, e.cluster)[Rem(g, lay.l2Size)];
        assert DataOK(lay, h, role, Quot(g, lay.l2Size), Rem(g, lay.l2Size), f);
        if f.cluster in D {
          assert ListedBy(h, e, f.cluster);
          assert Lists(h, r.tab, f.cluster);
        }
      }
    }
  }

  lemma EntryUntouched(lay: Layout, h: Host, h': Host, role: Roles, role': Roles, t: seq<Entry>, i: nat, D: set<nat>)
    requires i < |t| && TableOK(lay, h, role, i, t[i])
    requires AgreeOutside(h, h', D) && RolesOutside(role, role', D)
    requires forall c: nat | c in D :: !Lists(h, t, c)
    ensures TableOK(lay, h', role', i, t[i])
    ensures t[i].cluster != 0 ==> TableAt(h', t[i].cluster) == TableAt(h, t[i].cluster)
  {
    EntryFramed(lay, h, h', role, role', t[i], i, D);
  }

  lemma EntryFramed(lay: Layout, h: Host, h': Host, role: Roles, role': Roles, e: Entry, i: nat, D: set<nat>)
    requires TableOK(lay, h, role, i, e)
    requires AgreeOutside(h, h', D) && RolesOutside(role, role', D)
    requires forall c: nat | c in D :: e.cluster != 0 ==> !ListedBy(h, e, c)
    ensures TableOK(lay, h', role', i, e)
    ensures e.cluster != 0 ==> TableAt(h', e.cluster) == TableAt(h, e.cluster)
  {
    if e.cluster != 0 {
      assert ListedBy(h, e, e.cluster);
      forall j: nat | j < lay.l2Size
        ensures DataOK(lay, h', role', i, j, TableAt(h', e.cluster)[j])
      {
        var f := TableAt(h, e.cluster)[j];
        assert DataOK(lay, h, role, i, j, f);
        assert ListedBy(h, e, f.cluster);
      }
    }
  }

  /** A change confined to private clusters leaves all snapshot roots as they were. */
  lemma SnapshotsUntouched(lay: Layout, m: Image, m': Image, role: Roles, role': Roles, D: set<nat>)
    requires WellFormed(lay) && Shaped(lay, m, role)
    requires m'.snaps == m.snaps
    requires AgreeOutside(m.host, m'.host, D) && RolesOutside(role, role', D)
    requires forall c: nat | c in D :: Private(lay, m, c)
    ensures forall a: nat | 0 < a <= |m.snaps| ::
              && Roots(lay, m')[a] == Roots(lay, m)[a]
              && RootOK(lay, m'.host, role', Roots(lay, m')[a])
              && (forall c: nat :: RootRefs(m'.host, Roots(lay, m')[a], c, lay.l2Size)
                                == RootRefs(m.host, Roots(lay, m)[a], c, lay.l2Size))
              && (forall s: nat :: GuestSector(lay, m'.host, Roots(lay, m')[a].tab, s)
                                == GuestSector(lay, m.host, Roots(lay, m)[a].tab, s))
  {
    forall a: nat | 0 < a <= |m.snaps|
      ensures && Roots(lay, m')[a] == Roots(lay, m)[a]
              && RootOK(lay, m'.host, role', Roots(lay, m')[a])
              && (forall c: nat :: RootRefs(m'.host, Roots(lay, m')[a], c, lay.l2Size)
                                == RootRefs(m.host, Roots(lay, m)[a], c, lay.l2Size))
              && (forall s: nat :: GuestSector(lay, m'.host, Roots(lay, m')[a].tab, s)
                                == GuestSector(lay, m.host, Roots(lay, m)[a].tab, s))
    {
      var sn := m.snaps[a - 1];
      var r := SnapRoot(lay, m.host, sn);
      assert Roots(lay, m)[a] == r;
      forall c: nat | InArea(sn.l1Offset, Clusters(sn.l1Size, lay.l2Size), c)
        ensures TableAt(m.host, c) == TableAt(m'.host, c)
      {
        assert c !in D;
      }
      ReadFramed(m.host, m'.host, sn.l1Offset, sn.l1Size, lay.l2Size);
      RootUntouched(lay, m.host, m'.host, role, role', r, D);
      assert Roots(lay, m')[a] == r;
    }
  }

  /** The new total after a change that touches the active root only. */
  lemma ActiveRefs(lay: Layout, m: Image, m': Image, c: nat)
    requires WellFormed(lay) && m'.snaps == m.snaps
    requires m'.reserved == m.reserved && m'.dirOffset == m.dirOffset && m'.dirClusters == m.dirClusters
    requires forall a: nat | 0 < a <= |m.snaps| ::
               RootRefs(m'.host, Roots(lay, m')[a], c, lay.l2Size) == RootRefs(m.host, Roots(lay, m)[a], c, lay.l2Size)
    ensures Refs(lay, m', c) + RootRefs(m.host, Root(m.l1Offset, m.l1), c, lay.l2Size)
         == Refs(lay, m, c) + RootRefs(m'.host, Root(m'.l1Offset, m'.l1), c, lay.l2Size)
  {
    RootsRefsUpdate(m.host, m'.host, Roots(lay, m), Roots(lay, m'), 0, |m.snaps| + 1, c, lay.l2Size);
  }

  // ---------------------------------------------------------------------------
  // Facts about single clusters
  // ---------------------------------------------------------------------------

  lemma ListedRole(lay: Layout, h: Host, role: Roles, r: Root, c: nat)
    requires WellFormed(lay) && RootOK(lay, h, role, r) && Lists(h, r.tab, c) && c != 0
    ensures c in role && (role[c].L2At? || role[c].DataAt?)
  {
    var i: nat :| i < |r.tab| && r.tab[i].cluster != 0 && ListedBy(h, r.tab[i], c);
    assert TableOK(lay, h, role, i, r.tab[i]);
    if r.tab[i].cluster != c {
      var j: nat :| j < |TableAt(h, r.tab[i].cluster)| && TableAt(h, r.tab[i].cluster)[j].cluster == c;
      assert DataOK(lay, h, role, i, j, TableAt(h, r.tab[i].cluster)[j]);
    }
  }

  lemma ListedEntry(h: Host, t: seq<Entry>, i: nat)
    requires i < |t| && t[i].cluster != 0
    ensures Lists(h, t, t[i].cluster)
    ensures forall j: nat | j < |TableAt(h, t[i].cluster)| :: Lists(h, t, TableAt(h, t[i].cluster)[j].cluster)
  {
    assert ListedBy(h, t[i], t[i].cluster);
    forall j: nat | j < |TableAt(h, t[i].cluster)|
      ensures Lists(h, t, TableAt(h, t[i].cluster)[j].cluster)
    {
      assert ListedBy(h, t[i], TableAt(h, t[i].cluster)[j].cluster);
    }
  }

  lemma ActiveRoot(lay: Layout, m: Image, role: Roles)
    requires lay.l2Size > 0 && Shaped(lay, m, role)
    ensures RootOK(lay, m.host, role, Root(m.l1Offset, m.l1))
    ensures forall a: nat | a < |m.snaps| ::
              RootOK(lay, m.host, role, SnapRoot(lay, m.host, m.snaps[a]))
  {
    var rs := Roots(lay, m);
    assert rs[0] == Root(m.l1Offset, m.l1);
    forall a: nat | a < |m.snaps|
      ensures RootOK(lay, m.host, role, SnapRoot(lay, m.host, m.snaps[a]))
    {
      assert rs[a + 1] == SnapRoot(lay, m.host, m.snaps[a]);
    }
  }

  /** The stored active L1 table is private. */
  lemma L1AreaPrivate(lay: Layout, m: Image, role: Roles, c: nat)
    requires WellFormed(lay) && Shaped(lay, m, role)
    requires InArea(m.l1Offset, Clusters(|m.l1|, lay.l2Size), c)
    ensures Private(lay, m, c) && !Lists(m.host, m.l1, c)
    ensures c in role && role[c] == L1Area(m.l1Offset) && IsTable(m.host, c, lay.l2Size)
  {
    ActiveRoot(lay, m, role);
    if Lists(m.host, m.l1, c) {
      ListedRole(lay, m.host, role, Root(m.l1Offset, m.l1), c);
    }
    forall a: nat | a < |m.snaps|
      ensures !InArea(m.snaps[a].l1Offset, Clusters(m.snaps[a].l1Size, lay.l2Size), c)
      ensures !Lists(m.host, SnapRoot(lay, m.host, m.snaps[a]).tab, c)
    {
      var r := SnapRoot(lay, m.host, m.snaps[a]);
      if Lists(m.host, r.tab, c) {
        ListedRole(lay, m.host, role, r, c);
      }
    }
  }

  lemma UnusedPrivate(lay: Layout, m: Image, c: nat)
    requires WellFormed(lay) && Unused(lay, m, c)
    ensures Private(lay, m, c) && !Lists(m.host, m.l1, c)
    ensures !InArea(m.l1Offset, Clusters(|m.l1|, lay.l2Size), c)
  {
    var rs := Roots(lay, m);
    assert rs[0] == Root(m.l1Offset, m.l1);
    forall a: nat | a < |m.snaps|
      ensures !InArea(m.snaps[a].l1Offset, Clusters(m.snaps[a].l1Size, lay.l2Size), c)
      ensures !Lists(m.host, SnapRoot(lay, m.host, m.snaps[a]).tab, c)
    {
      assert rs[a + 1] == SnapRoot(lay, m.host, m.snaps[a]);
    }
  }

  lemma {:induction false} NoRefsInEmpty(es: seq<Entry>, n: nat, c: nat)
    requires n <= |es| && forall j: nat | j < n :: es[j].cluster == 0
    ensures TableRefs(es, n, c) == 0
  {
    if n > 0 { NoRefsInEmpty(es, n - 1, c); }
  }

  /** Count changes when cluster `now` replaces `was` (0: nothing) in the active root. */
  function Replaced(rc: map<nat, nat>, was: nat, now: nat): map<nat, nat> {
    (if was != 0 && Rc(rc, was) > 0 then rc[was := Rc(rc, was) - 1] else rc)[now := 1]
  }

  /** Two count maps that answer alike. */
  ghost predicate CountsAre(rc: map<nat, nat>, rc': map<nat, nat>) {
    forall c: nat :: Rc(rc, c) == Rc(rc', c)
  }

  /** The disks of all snapshots are the same in both images. */
  ghost predicate SnapshotsKept(lay: Layout, m: Image, m': Image)
    requires lay.l2Size > 0 && lay.clusterSectors > 0
  {
    && m'.snaps == m.snaps
    && forall a: nat, s: nat | a < |m.snaps| ::
         GuestSector(lay, m'.host, SnapRoot(lay, m'.host, m.snaps[a]).tab, s)
         == GuestSector(lay, m.host, SnapRoot(lay, m.host, m.snaps[a]).tab, s)
  }

  /**
   * Putting a step together: the active root is right afterwards, the change is
   * confined to private clusters, and the counts moved as the active root did.
   */
  lemma StepSound(lay: Layout, m: Image, m': Image, role: Roles, role': Roles, D: set<nat>)
    requires WellFormed(lay) && Sound(lay, m, role)
    requires m'.snaps == m.snaps && m'.l1Offset == m.l1Offset
    requires m'.reserved == m.reserved && m'.dirOffset == m.dirOffset && m'.dirClusters == m.dirClusters
    requires AgreeOutside(m.host, m'.host, D) && RolesOutside(role, role', D)
    requires forall c: nat | c in D :: Private(lay, m, c)
    requires RootOK(lay, m'.host, role', Root(m'.l1Offset, m'.l1))
    requires ReadRun(m'.host, m'.l1Offset, |m'.l1|, lay.l2Size) == m'.l1
    requires Flagged(m'.host, m'.l1, m'.refcounts)
    requires |m'.l1| == |m.l1|
    requires forall c: nat :: Rc(m'.refcounts, c) + L1Refs(m.host, m.l1, |m.l1|, c)
                           == Rc(m.refcounts, c) + L1Refs(m'.host, m'.l1, |m'.l1|, c)
    ensures Sound(lay, m', role') && SnapshotsKept(lay, m, m')
  {
    SnapshotsUntouched(lay, m, m', role, role', D);
    StepShaped(lay, m, m', role, role', D);
    forall c: nat
      ensures Rc(m'.refcounts, c) == Refs(lay, m', c)
    {
      ActiveRefs(lay, m, m', c);
    }
    forall a: nat, s: nat | a < |m.snaps|
      ensures GuestSector(lay, m'.host, SnapRoot(lay, m'.host, m.snaps[a]).tab, s)
           == GuestSector(lay, m.host, SnapRoot(lay, m.host, m.snaps[a]).tab, s)
    {
      assert Roots(lay, m)[a + 1] == SnapRoot(lay, m.host, m.snaps[a]);
      assert Roots(lay, m')[a + 1] == SnapRoot(lay, m'.host, m.snaps[a]);
    }
  }

  lemma StepShaped(lay: Layout, m: Image, m': Image, role: Roles, role': Roles, D: set<nat>)
    requires WellFormed(lay) && Shaped(lay, m, role)
    requires m'.snaps == m.snaps && forall a: nat | a < |m.snaps| :: m.snaps[a].l1Offset != m'.l1Offset
    requires m'.reserved == m.reserved && m'.dirOffset == m.dirOffset && m'.dirClusters == m.dirClusters
    requires RolesOutside(role, role', D)
    requires forall c: nat | c in D :: Private(lay, m, c)
    requires RootOK(lay, m'.host, role', Root(m'.l1Offset, m'.l1))
    requires ReadRun(m'.host, m'.l1Offset, |m'.l1|, lay.l2Size) == m'.l1
    requires forall a: nat | 0 < a <= |m.snaps| :: RootOK(lay, m'.host, role', Roots(lay, m')[a])
    ensures Shaped(lay, m', role')
  {
    assert Roots(lay, m')[0] == Root(m'.l1Offset, m'.l1);
  }

  // ---------------------------------------------------------------------------
  // A private L2 table for the active root
  // ---------------------------------------------------------------------------

  /** Contents of the table that replaces L1 entry `e`: a copy, or nothing allocated. */
  function FreshTable(lay: Layout, h: Host, e: Entry): seq<Entry> {
    if e.cluster == 0 then seq(lay.l2Size, j => NONE) else TableAt(h, e.cluster)
  }

  /** Table `t` becomes `t'`: entry `i` now names cluster `p`, which holds the fresh table. */
  ghost predicate TableSwap(lay: Layout, h: Host, h': Host, t: seq<Entry>, t': seq<Entry>, i: nat, p: nat,
                            D: set<nat>) {
    && i < |t| && p != 0 && p in D
    && t' == t[i := Entry(p, true)]
    && AgreeOutside(h, h', D)
    && IsTable(h', p, lay.l2Size) && TableAt(h', p) == FreshTable(lay, h, t[i])
    && forall c: nat | c in D :: !Lists(h, t, c)
  }

  lemma SwapTables(lay: Layout, h: Host, h': Host, role: Roles, role': Roles, off: nat, t: seq<Entry>, t': seq<Entry>,
                   i: nat, p: nat, D: set<nat>)
    requires WellFormed(lay) && TableSwap(lay, h, h', t, t', i, p, D) && RootOK(lay, h, role, Root(off, t))
    requires RolesOutside(role, role', D) && p in role' && role'[p] == L2At(i)
    ensures forall k: nat | k < |t| :: TableOK(lay, h', role', k, t'[k])
    ensures forall k: nat | k < |t| && k != i && t[k].cluster != 0 ::
              TableAt(h', t[k].cluster) == TableAt(h, t[k].cluster)
  {
    forall k: nat | k < |t|
      ensures TableOK(lay, h', role', k, t'[k])
      ensures k != i && t[k].cluster != 0 ==> TableAt(h', t[k].cluster) == TableAt(h, t[k].cluster)
    {
      EntryUntouched(lay, h, h', role, role', t, k, D);
    }
  }

  lemma SwapCounts(lay: Layout, h: Host, h': Host, role: Roles, off: nat, t: seq<Entry>, t': seq<Entry>, i: nat,
                   p: nat, D: set<nat>, c: nat)
    requires WellFormed(lay) && TableSwap(lay, h, h', t, t', i, p, D) && RootOK(lay, h, role, Root(off, t))
    ensures L1Refs(h', t', |t|, c) + Hit(t[i], c) == L1Refs(h, t, |t|, c) + Hit(t'[i], c)
  {
    forall k: nat | k < |t| && t[k].cluster != 0
      ensures TableAt(h', t[k].cluster) == TableAt(h, t[k].cluster)
    {
      EntryUntouched(lay, h, h', role, role, t, k, D);
    }
    L1RefsUpdate(h, h', t, t', i, |t|, c);
    if t[i].cluster == 0 {
      NoRefsInEmpty(TableAt(h', p), |TableAt(h', p)|, c);
    }
  }

  lemma SwapFlags(lay: Layout, h: Host, h': Host, role: Roles, off: nat, t: seq<Entry>, t': seq<Entry>, i: nat,
                  p: nat, D: set<nat>, rc: map<nat, nat>, rc': map<nat, nat>)
    requires WellFormed(lay) && TableSwap(lay, h, h', t, t', i, p, D) && RootOK(lay, h, role, Root(off, t))
    requires Flagged(h, t, rc) && CountsAre(rc', Replaced(rc, t[i].cluster, p))
    ensures Flagged(h', t', rc')
  {
    forall k: nat | k < |t|
      ensures EntryFlagged(h', t'[k], rc')
    {
      EntryUntouched(lay, h, h', role, role, t, k, D);
      assert TableOK(lay, h, role, i, t[i]);
      assert EntryFlagged(h, t[k], rc);
      if t[k].cluster != 0 {
        ListedEntry(h, t, k);
        forall j: nat | j < lay.l2Size
          ensures FlagOK(rc', TableAt(h, t[k].cluster)[j])
        {
          assert DataOK(lay, h, role, k, j, TableAt(h, t[k].cluster)[j]);
        }
      }
    }
  }

  lemma SwapView(lay: Layout, h: Host, h': Host, role: Roles, off: nat, t: seq<Entry>, t': seq<Entry>, i: nat, p: nat,
                 D: set<nat>, s: nat)
    requires WellFormed(lay) && TableSwap(lay, h, h', t, t', i, p, D) && RootOK(lay, h, role, Root(off, t))
    ensures GuestSector(lay, h', t', s) == GuestSector(lay, h, t, s)
  {
    var g := Quot(s, lay.clusterSectors);
    var k, j := Quot(g, lay.l2Size), Rem(g, lay.l2Size);
    if k < |t| && t[k].cluster != 0 {
      EntryUntouched(lay, h, h', role, role, t, k, D);
      ListedEntry(h, t, k);
      assert TableAt(h', t'[k].cluster) == TableAt(h, t[k].cluster);
      var f := TableAt(h, t[k].cluster)[j];
      assert Lists(h, t, f.cluster);
      assert f.cluster !in D;
    }
  }

  /** The image after L1 entry `i` was pointed at a new table in cluster `p`. */
  function WithTable(lay: Layout, m: Image, i: nat, p: nat, rc': map<nat, nat>): Image
    requires lay.l2Size > 0 && i < |m.l1| && IsTable(m.host, m.l1Offset + Quot(i, lay.l2Size), lay.l2Size)
  {
    m.(host := WriteSlot(m.host, m.l1Offset, i, Entry(p, true), lay.l2Size)
         [p := Table(FreshTable(lay, m.host, m.l1[i]))],
       l1 := m.l1[i := Entry(p, true)],
       refcounts := rc')
  }

  lemma L1SlotStored(lay: Layout, m: Image, role: Roles, i: nat)
    requires WellFormed(lay) && Shaped(lay, m, role) && i < |m.l1|
    ensures var c := m.l1Offset + Quot(i, lay.l2Size);
            InArea(m.l1Offset, Clusters(|m.l1|, lay.l2Size), c) && IsTable(m.host, c, lay.l2Size)
  {
    SlotInArea(i, |m.l1|, lay.l2Size);
    L1AreaPrivate(lay, m, role, m.l1Offset + Quot(i, lay.l2Size));
  }

  lemma StoredL1Updated(h: Host, h': Host, off: nat, t: seq<Entry>, i: nat, e: Entry, p: nat, es: seq<Entry>, l: nat)
    requires l > 0 && i < |t| && IsTable(h, off + Quot(i, l), l) && ReadRun(h, off, |t|, l) == t
    requires !InArea(off, Clusters(|t|, l), p)
    requires h' == WriteSlot(h, off, i, e, l)[p := Table(es)]
    ensures ReadRun(h', off, |t|, l) == t[i := e]
  {
    ReadAfterSlot(h, off, |t|, i, e, l);
    ReadFramed(WriteSlot(h, off, i, e, l), h', off, |t|, l);
  }

  lemma OldTableCounted(lay: Layout, m: Image, role: Roles, e: Entry)
    requires WellFormed(lay) && Sound(lay, m, role)
    requires e.cluster != 0 && Lists(m.host, m.l1, e.cluster) && FlagOK(m.refcounts, e)
    ensures Rc(m.refcounts, e.cluster) >= (if e.copied then 1 else 2)
  {
    if !e.copied {
      UnflaggedIsShared(lay, m, e);
    }
  }

  lemma TableStepSwap(lay: Layout, m: Image, m': Image, role: Roles, i: nat, p: nat, c0: nat)
    requires WellFormed(lay) && Shaped(lay, m, role) && Unused(lay, m, p)
    requires i < |m.l1|
    requires c0 == m.l1Offset + Quot(i, lay.l2Size) && IsTable(m.host, c0, lay.l2Size)
    requires InArea(m.l1Offset, Clusters(|m.l1|, lay.l2Size), c0)
    requires m' == WithTable(lay, m, i, p, m'.refcounts)
    ensures TableSwap(lay, m.host, m'.host, m.l1, m'.l1, i, p, {p, c0})
    ensures ReadRun(m'.host, m.l1Offset, |m'.l1|, lay.l2Size) == m'.l1
    ensures AreaOK(lay, m'.host, role[p := L2At(i)], m.l1Offset, Clusters(|m.l1|, lay.l2Size))
    ensures Private(lay, m, p) && Private(lay, m, c0)
  {
    hide Unused, Private, ReadRun, Clusters, Quot, Rem, Inverts, Refs, Roots, DataOK;
    UnusedPrivate(lay, m, p);
    L1AreaPrivate(lay, m, role, c0);
    ActiveRoot(lay, m, role);
    StoredL1Updated(m.host, m'.host, m.l1Offset, m.l1, i, Entry(p, true), p, FreshTable(lay, m.host, m.l1[i]),
      lay.l2Size);
    assert TableOK(lay, m.host, role, i, m.l1[i]);
  }

  lemma UnusedNotZero(lay: Layout, m: Image, c: nat)
    requires lay.l2Size > 0 && Unused(lay, m, c)
    ensures c != 0
  {
  }

  /** The counts before the table went in do not matter. */
  lemma SameWithTable(lay: Layout, m: Image, m1: Image, i: nat, p: nat)
    requires lay.l2Size > 0 && i < |m.l1| && m1 == m.(refcounts := m1.refcounts)
    requires IsTable(m.host, m.l1Offset + Quot(i, lay.l2Size), lay.l2Size)
    ensures WithTable(lay, m1, i, p, m1.refcounts) == WithTable(lay, m, i, p, m1.refcounts)
  {
    hide WriteSlot, FreshTable;
  }

  /** Giving the active root a private copy of an L2 table keeps the image sound and all disks. */
  lemma TableStep(lay: Layout, m: Image, role: Roles, i: nat, p: nat, rc': map<nat, nat>)
    requires WellFormed(lay) && Sound(lay, m, role)
    requires i < |m.l1| && !m.l1[i].copied && Rc(m.refcounts, p) == 0
    requires IsTable(m.host, m.l1Offset + Quot(i, lay.l2Size), lay.l2Size)
    requires CountsAre(rc', Replaced(m.refcounts, m.l1[i].cluster, p))
    ensures var m' := WithTable(lay, m, i, p, rc');
            && Sound(lay, m', role[p := L2At(i)])
            && SnapshotsKept(lay, m, m')
            && (forall s: nat :: GuestSector(lay, m'.host, m'.l1, s) == GuestSector(lay, m.host, m.l1, s))
  {
    hide Sound, Shaped, Counted, Flagged, Unused, TableSwap, AreaOK, Private, SnapshotsKept, GuestSector, CountsAre,
         Replaced, ReadRun, IsTable, Quot, Rem;
    SoundParts(lay, m, role);
    L1SlotStored(lay, m, role, i);
    FreeIsUnused(lay, m, p);
    var c0 := m.l1Offset + Quot(i, lay.l2Size);
    TableStepSwap(lay, m, WithTable(lay, m, i, p, rc'), role, i, p, c0);
    TableSwapSound(lay, m, WithTable(lay, m, i, p, rc'), role, i, p, {p, c0});
  }

  lemma TableSwapCounts(lay: Layout, m: Image, m': Image, role: Roles, i: nat, p: nat, D: set<nat>, c: nat)
    requires WellFormed(lay) && Sound(lay, m, role)
    requires TableSwap(lay, m.host, m'.host, m.l1, m'.l1, i, p, D)
    requires !m.l1[i].copied && Rc(m.refcounts, p) == 0
    requires CountsAre(m'.refcounts, Replaced(m.refcounts, m.l1[i].cluster, p))
    ensures Rc(m'.refcounts, c) + L1Refs(m.host, m.l1, |m.l1|, c)
         == Rc(m.refcounts, c) + L1Refs(m'.host, m'.l1, |m'.l1|, c)
  {
    ActiveRoot(lay, m, role);
    if m.l1[i].cluster != 0 {
      ListedEntry(m.host, m.l1, i);
      assert EntryFlagged(m.host, m.l1[i], m.refcounts);
      OldTableCounted(lay, m, role, m.l1[i]);
    }
    SwapCounts(lay, m.host, m'.host, role, m.l1Offset, m.l1, m'.l1, i, p, D, c);
  }

  lemma TableSwapSound(lay: Layout, m: Image, m': Image, role: Roles, i: nat, p: nat, D: set<nat>)
    requires WellFormed(lay) && Sound(lay, m, role)
    requires TableSwap(lay, m.host, m'.host, m.l1, m'.l1, i, p, D)
    requires !m.l1[i].copied && Rc(m.refcounts, p) == 0
    requires m' == m.(host := m'.host, l1 := m'.l1, refcounts := m'.refcounts)
    requires CountsAre(m'.refcounts, Replaced(m.refcounts, m.l1[i].cluster, p))
    requires ReadRun(m'.host, m.l1Offset, |m'.l1|, lay.l2Size) == m'.l1
    requires AreaOK(lay, m'.host, role[p := L2At(i)], m.l1Offset, Clusters(|m.l1|, lay.l2Size))
    requires forall c: nat | c in D :: Private(lay, m, c)
    ensures Sound(lay, m', role[p := L2At(i)]) && SnapshotsKept(lay, m, m')
    ensures forall s: nat :: GuestSector(lay, m'.host, m'.l1, s) == GuestSector(lay, m.host, m.l1, s)
  {
    var role' := role[p := L2At(i)];
    ActiveRoot(lay, m, role);
    SwapTables(lay, m.host, m'.host, role, role', m.l1Offset, m.l1, m'.l1, i, p, D);
    assert RootOK(lay, m'.host, role', Root(m.l1Offset, m'.l1));
    SwapFlags(lay, m.host, m'.host, role, m.l1Offset, m.l1, m'.l1, i, p, D, m.refcounts, m'.refcounts);
    forall c: nat
      ensures Rc(m'.refcounts, c) + L1Refs(m.host, m.l1, |m.l1|, c)
           == Rc(m.refcounts, c) + L1Refs(m'.host, m'.l1, |m'.l1|, c)
    {
      TableSwapCounts(lay, m, m', role, i, p, D, c);
    }
    StepSound(lay, m, m', role, role', D);
    forall s: nat
      ensures GuestSector(lay, m'.host, m'.l1, s) == GuestSector(lay, m.host, m.l1, s)
    {
      SwapView(lay, m.host, m'.host, role, m.l1Offset, m.l1, m'.l1, i, p, D, s);
    }
  }

  // ---------------------------------------------------------------------------
  // A private data cluster for the active root
  // ---------------------------------------------------------------------------

  /**
   * The private table `p` at L1 entry `i` gets cluster `d` at entry `j`, and `d`
   * holds `secs`.  In-place writes are the case where the entry already says `d`.
   */
  ghost predicate DataPut(lay: Layout, h: Host, h': Host, t: seq<Entry>, i: nat, j: nat, d: nat, secs: seq<Sector>) {
    && i < |t| && j < lay.l2Size
    && t[i].cluster != 0 && IsTable(h, t[i].cluster, lay.l2Size)
    && d != 0 && d != t[i].cluster && |secs| == lay.clusterSectors
    && AgreeOutside(h, h', {t[i].cluster, d})
    && IsTable(h', t[i].cluster, lay.l2Size)
    && TableAt(h', t[i].cluster) == TableAt(h, t[i].cluster)[j := Entry(d, true)]
    && d in h' && h'[d] == Data(secs)
  }

  /** `d` is new, or already the cluster of this very position. */
  ghost predicate FreshOrOwn(h: Host, t: seq<Entry>, i: nat, j: nat, d: nat)
    requires i < |t| && j < |TableAt(h, t[i].cluster)|
  {
    !Lists(h, t, d) || TableAt(h, t[i].cluster)[j].cluster == d
  }

  /** Another position of the active root involves neither `p` nor `d`. */
  lemma OtherPosition(lay: Layout, h: Host, role: Roles, off: nat, t: seq<Entry>, i: nat, j: nat, d: nat, k: nat,
                      q: nat)
    requires WellFormed(lay) && RootOK(lay, h, role, Root(off, t))
    requires i < |t| && j < lay.l2Size && t[i].cluster != 0 && d != 0
    requires IsTable(h, t[i].cluster, lay.l2Size) && FreshOrOwn(h, t, i, j, d)
    requires k < |t| && q < lay.l2Size && t[k].cluster != 0 && IsTable(h, t[k].cluster, lay.l2Size)
    ensures k != i ==> t[k].cluster != t[i].cluster
    ensures t[k].cluster != d
    ensures TableAt(h, t[k].cluster)[q].cluster != t[i].cluster
    ensures (k, q) != (i, j) ==> TableAt(h, t[k].cluster)[q].cluster != d
  {
    assert TableOK(lay, h, role, i, t[i]) && TableOK(lay, h, role, k, t[k]);
    assert DataOK(lay, h, role, i, j, TableAt(h, t[i].cluster)[j]);
    assert DataOK(lay, h, role, k, q, TableAt(h, t[k].cluster)[q]);
    ListedEntry(h, t, k);
    ListedEntry(h, t, i);
  }

  lemma PutTables(lay: Layout, h: Host, h': Host, role: Roles, off: nat, t: seq<Entry>, i: nat, j: nat, d: nat,
                  secs: seq<Sector>)
    requires WellFormed(lay) && RootOK(lay, h, role, Root(off, t))
    requires DataPut(lay, h, h', t, i, j, d, secs) && FreshOrOwn(h, t, i, j, d)
    ensures forall k: nat | k < |t| :: TableOK(lay, h', role[d := DataAt(i, j)], k, t[k])
    ensures forall k: nat | k < |t| && k != i && t[k].cluster != 0 ::
              TableAt(h', t[k].cluster) == TableAt(h, t[k].cluster)
  {
    var role' := role[d := DataAt(i, j)];
    forall k: nat | k < |t|
      ensures TableOK(lay, h', role', k, t[k])
      ensures k != i && t[k].cluster != 0 ==> TableAt(h', t[k].cluster) == TableAt(h, t[k].cluster)
    {
      assert TableOK(lay, h, role, k, t[k]);
      if t[k].cluster != 0 {
        OtherPosition(lay, h, role, off, t, i, j, d, k, 0);
        forall q: nat | q < lay.l2Size
          ensures DataOK(lay, h', role', k, q, TableAt(h', t[k].cluster)[q])
        {
          OtherPosition(lay, h, role, off, t, i, j, d, k, q);
          assert DataOK(lay, h, role, k, q, TableAt(h, t[k].cluster)[q]);
        }
      }
    }
  }

  lemma PutCounts(lay: Layout, h: Host, h': Host, role: Roles, off: nat, t: seq<Entry>, i: nat, j: nat, d: nat,
                  secs: seq<Sector>, c: nat)
    requires WellFormed(lay) && RootOK(lay, h, role, Root(off, t))
    requires DataPut(lay, h, h', t, i, j, d, secs) && FreshOrOwn(h, t, i, j, d)
    ensures L1Refs(h', t, |t|, c) + Hit(TableAt(h, t[i].cluster)[j], c) == L1Refs(h, t, |t|, c) + Hit(Entry(d, true), c)
  {
    PutTables(lay, h, h', role, off, t, i, j, d, secs);
    L1RefsUpdate(h, h', t, t, i, |t|, c);
    TableRefsUpdate(TableAt(h, t[i].cluster), j, Entry(d, true), lay.l2Size, c);
  }

  lemma PutFlags(lay: Layout, h: Host, h': Host, role: Roles, off: nat, t: seq<Entry>, i: nat, j: nat, d: nat,
                 secs: seq<Sector>, rc: map<nat, nat>, rc': map<nat, nat>)
    requires WellFormed(lay) && RootOK(lay, h, role, Root(off, t)) && Flagged(h, t, rc)
    requires DataPut(lay, h, h', t, i, j, d, secs) && FreshOrOwn(h, t, i, j, d)
    requires Rc(rc', d) == 1
    requires forall c: nat | c != d && c != TableAt(h, t[i].cluster)[j].cluster :: Rc(rc', c) == Rc(rc, c)
    ensures Flagged(h', t, rc')
  {
    PutTables(lay, h, h', role, off, t, i, j, d, secs);
    var was := TableAt(h, t[i].cluster)[j].cluster;
    forall k: nat | k < |t|
      ensures EntryFlagged(h', t[k], rc')
    {
      assert TableOK(lay, h, role, k, t[k]) && EntryFlagged(h, t[k], rc);
      if t[k].cluster != 0 {
        assert TableOK(lay, h, role, i, t[i]);
        assert DataOK(lay, h, role, i, j, TableAt(h, t[i].cluster)[j]);
        OtherPosition(lay, h, role, off, t, i, j, d, k, 0);
        forall q: nat | q < lay.l2Size
          ensures FlagOK(rc', TableAt(h', t[k].cluster)[q])
        {
          OtherPosition(lay, h, role, off, t, i, j, d, k, q);
          assert DataOK(lay, h, role, k, q, TableAt(h, t[k].cluster)[q]);
        }
      }
    }
  }

  lemma PutLookup(lay: Layout, h: Host, h': Host, role: Roles, off: nat, t: seq<Entry>, i: nat, j: nat, d: nat,
                  secs: seq<Sector>, k: nat, q: nat)
    requires WellFormed(lay) && RootOK(lay, h, role, Root(off, t))
    requires DataPut(lay, h, h', t, i, j, d, secs) && FreshOrOwn(h, t, i, j, d)
    requires k < |t| && t[k].cluster != 0 && q < lay.l2Size
    ensures var e' := Pick(TableAt(h', t[k].cluster), q);
            var e := Pick(TableAt(h, t[k].cluster), q);
            if k == i && q == j then e'.cluster == d
            else e' == e && (e.cluster in h <==> e.cluster in h') && (e.cluster in h ==> h[e.cluster] == h'[e.cluster])
  {
    assert TableOK(lay, h, role, k, t[k]);
    OtherPosition(lay, h, role, off, t, i, j, d, k, q);
    assert DataOK(lay, h, role, k, q, TableAt(h, t[k].cluster)[q]);
  }

  lemma PutCluster(lay: Layout, h: Host, h': Host, role: Roles, off: nat, t: seq<Entry>, i: nat, j: nat, d: nat,
                   secs: seq<Sector>, g: nat)
    requires WellFormed(lay) && RootOK(lay, h, role, Root(off, t))
    requires DataPut(lay, h, h', t, i, j, d, secs) && FreshOrOwn(h, t, i, j, d)
    ensures var x := Lookup(lay, h, t, g);
            if Quot(g, lay.l2Size) == i && Rem(g, lay.l2Size) == j then Lookup(lay, h', t, g) == d
            else Lookup(lay, h', t, g) == x && (x != 0 ==> (x in h <==> x in h') && (x in h ==> h[x] == h'[x]))
  {
    var k, q := Quot(g, lay.l2Size), Rem(g, lay.l2Size);
    if k < |t| && t[k].cluster != 0 {
      PutLookup(lay, h, h', role, off, t, i, j, d, secs, k, q);
    }
  }

  /** Only guest cluster (i, j) changes, and it now holds `secs`. */
  lemma PutView(lay: Layout, h: Host, h': Host, role: Roles, off: nat, t: seq<Entry>, i: nat, j: nat, d: nat,
                secs: seq<Sector>, s: nat)
    requires WellFormed(lay) && RootOK(lay, h, role, Root(off, t))
    requires DataPut(lay, h, h', t, i, j, d, secs) && FreshOrOwn(h, t, i, j, d)
    ensures GuestSector(lay, h', t, s) ==
              if AtPosition(lay, s, i, j) then lay.cipher.dec(s, secs[Rem(s, lay.clusterSectors)])
              else GuestSector(lay, h, t, s)
  {
    PutCluster(lay, h, h', role, off, t, i, j, d, secs, Quot(s, lay.clusterSectors));
  }

  /** The count changes when position (i, j) passes from `was` to `now`. */
  function PutRc(rc: map<nat, nat>, was: nat, now: nat): map<nat, nat> {
    if was == now then rc else Replaced(rc, was, now)
  }

  ghost predicate CanPut(lay: Layout, m: Image, role: Roles, i: nat, j: nat, d: nat) {
    && WellFormed(lay) && Sound(lay, m, role)
    && i < |m.l1| && j < lay.l2Size
    && m.l1[i].copied
    && m.l1[i].cluster != 0 && IsTable(m.host, m.l1[i].cluster, lay.l2Size)
    && var e := TableAt(m.host, m.l1[i].cluster)[j];
       (e.copied && e.cluster == d && d != 0) || (!e.copied && Rc(m.refcounts, d) == 0)
  }

  lemma PutPrivate(lay: Layout, m: Image, role: Roles, i: nat, j: nat, d: nat)
    requires CanPut(lay, m, role, i, j, d)
    ensures Private(lay, m, m.l1[i].cluster) && Private(lay, m, d)
    ensures d != 0 && d != m.l1[i].cluster && FreshOrOwn(m.host, m.l1, i, j, d)
    ensures !InArea(m.l1Offset, Clusters(|m.l1|, lay.l2Size), d)
    ensures !InArea(m.l1Offset, Clusters(|m.l1|, lay.l2Size), m.l1[i].cluster)
  {
    ActiveRoot(lay, m, role);
    assert TableOK(lay, m.host, role, i, m.l1[i]) && EntryFlagged(m.host, m.l1[i], m.refcounts);
    ListedEntry(m.host, m.l1, i);
    OwnedPrivate(lay, m, role, m.l1[i].cluster);
    var e := TableAt(m.host, m.l1[i].cluster)[j];
    assert DataOK(lay, m.host, role, i, j, e);
    if e.copied {
      OwnedPrivate(lay, m, role, d);
    } else {
      FreeIsUnused(lay, m, d);
      UnusedPrivate(lay, m, d);
    }
  }

  /** A cluster of the active root with count one is private. */
  lemma OwnedPrivate(lay: Layout, m: Image, role: Roles, c: nat)
    requires WellFormed(lay) && Sound(lay, m, role)
    requires c != 0 && Rc(m.refcounts, c) == 1 && Lists(m.host, m.l1, c)
    ensures Private(lay, m, c) && !InArea(m.l1Offset, Clusters(|m.l1|, lay.l2Size), c)
  {
    SoleOwner(lay, m, c);
    ActiveRoot(lay, m, role);
    ListedRole(lay, m.host, role, Root(m.l1Offset, m.l1), c);
    forall a: nat | a < |m.snaps|
      ensures !InArea(m.snaps[a].l1Offset, Clusters(m.snaps[a].l1Size, lay.l2Size), c)
      ensures !Lists(m.host, SnapRoot(lay, m.host, m.snaps[a]).tab, c)
    {
      assert Roots(lay, m)[a + 1] == SnapRoot(lay, m.host, m.snaps[a]);
      assert AreaOK(lay, m.host, role, m.snaps[a].l1Offset, Clusters(m.snaps[a].l1Size, lay.l2Size));
    }
  }

  lemma PutRcEffect(lay: Layout, m: Image, m': Image, role: Roles, i: nat, j: nat, d: nat, secs: seq<Sector>, c: nat)
    requires CanPut(lay, m, role, i, j, d) && DataPut(lay, m.host, m'.host, m.l1, i, j, d, secs)
    requires CountsAre(m'.refcounts, PutRc(m.refcounts, TableAt(m.host, m.l1[i].cluster)[j].cluster, d))
    requires m'.l1 == m.l1
    ensures Rc(m'.refcounts, c) + L1Refs(m.host, m.l1, |m.l1|, c)
         == Rc(m.refcounts, c) + L1Refs(m'.host, m.l1, |m.l1|, c)
    ensures Rc(m'.refcounts, d) == 1
    ensures c != d && c != TableAt(m.host, m.l1[i].cluster)[j].cluster ==> Rc(m'.refcounts, c) == Rc(m.refcounts, c)
  {
    hide L1Refs, Private, Quot, Roots, Refs, Inverts, AreaOK;
    PutPrivate(lay, m, role, i, j, d);
    ActiveRoot(lay, m, role);
    PutCounts(lay, m.host, m'.host, role, m.l1Offset, m.l1, i, j, d, secs, c);
    var e := TableAt(m.host, m.l1[i].cluster)[j];
    assert EntryFlagged(m.host, m.l1[i], m.refcounts);
    ListedEntry(m.host, m.l1, i);
    if e.cluster != 0 {
      OldTableCounted(lay, m, role, e);
    }
    assert TableOK(lay, m.host, role, i, m.l1[i]);
    assert DataOK(lay, m.host, role, i, j, e);
  }

  /**
   * Putting sectors into a private cluster at (i, j): the image stays sound, no
   * snapshot changes, and on the active disk only guest cluster (i, j) changes.
   */
  lemma PutStep(lay: Layout, m: Image, m': Image, role: Roles, i: nat, j: nat, d: nat, secs: seq<Sector>)
    requires CanPut(lay, m, role, i, j, d) && DataPut(lay, m.host, m'.host, m.l1, i, j, d, secs)
    requires m' == m.(host := m'.host, refcounts := m'.refcounts)
    requires CountsAre(m'.refcounts, PutRc(m.refcounts, TableAt(m.host, m.l1[i].cluster)[j].cluster, d))
    ensures Sound(lay, m', role[d := DataAt(i, j)]) && SnapshotsKept(lay, m, m')
    ensures forall s: nat ::
              GuestSector(lay, m'.host, m'.l1, s) ==
                if AtPosition(lay, s, i, j) then lay.cipher.dec(s, secs[Rem(s, lay.clusterSectors)])
                else GuestSector(lay, m.host, m.l1, s)
  {
    var role' := role[d := DataAt(i, j)];
    var D := {m.l1[i].cluster, d};
    PutPrivate(lay, m, role, i, j, d);
    ActiveRoot(lay, m, role);
    PutTables(lay, m.host, m'.host, role, m.l1Offset, m.l1, i, j, d, secs);
    assert AreaOK(lay, m'.host, role', m.l1Offset, Clusters(|m.l1|, lay.l2Size));
    assert RootOK(lay, m'.host, role', Root(m.l1Offset, m'.l1));
    ReadFramed(m.host, m'.host, m.l1Offset, |m.l1|, lay.l2Size);
    forall c: nat
      ensures Rc(m'.refcounts, c) + L1Refs(m.host, m.l1, |m.l1|, c)
           == Rc(m.refcounts, c) + L1Refs(m'.host, m'.l1, |m'.l1|, c)
      ensures Rc(m'.refcounts, d) == 1
      ensures c != d && c != TableAt(m.host, m.l1[i].cluster)[j].cluster ==> Rc(m'.refcounts, c) == Rc(m.refcounts, c)
    {
      PutRcEffect(lay, m, m', role, i, j, d, secs, c);
    }
    assert Rc(m'.refcounts, d) == 1;
    PutFlags(lay, m.host, m'.host, role, m.l1Offset, m.l1, i, j, d, secs, m.refcounts, m'.refcounts);
    StepSound(lay, m, m', role, role', D);
    forall s: nat
      ensures GuestSector(lay, m'.host, m'.l1, s) ==
                if AtPosition(lay, s, i, j) then lay.cipher.dec(s, secs[Rem(s, lay.clusterSectors)])
                else GuestSector(lay, m.host, m.l1, s)
    {
      PutView(lay, m.host, m'.host, role, m.l1Offset, m.l1, i, j, d, secs, s);
    }
  }
}
