/**
 * Snapshots: how a pass over one root's counts and flags, a new root, a replaced
 * active root and a dropped root change an image, and what each leaves alone.
 */
module QcowSnapshots {
  import opened Division
  import opened QcowLayout
  import opened QcowSpec
  import opened QcowSteps

  // ---------------------------------------------------------------------------
  // Changing COPIED flags only
  // ---------------------------------------------------------------------------

  lemma SameShapeAt(h: Host, h': Host, c: nat)
    requires SameShape(h, h')
    ensures SamePointers(TableAt(h, c), TableAt(h', c))
    ensures forall n: nat :: IsTable(h, c, n) == IsTable(h', c, n)
    ensures forall n: nat :: IsData(h, c, n) == IsData(h', c, n)
    ensures c in h && !h[c].Table? ==> c in h' && h'[c] == h[c]
  {
    if c in h {
      assert SameContent(h[c], h'[c]);
    } else {
      assert c !in h';
    }
  }

  lemma ReadRunSame(h: Host, h': Host, off: nat, n: nat, l: nat)
    requires l > 0 && SameShape(h, h')
    ensures SamePointers(ReadRun(h, off, n, l), ReadRun(h', off, n, l))
  {
    forall i: nat | i < n
      ensures SamePointer(Slot(h, off, i, l), Slot(h', off, i, l))
    {
      SameShapeAt(h, h', off + Quot(i, l));
    }
  }

  lemma RetagEntry(lay: Layout, h: Host, h': Host, role: Roles, i: nat, e: Entry, e': Entry)
    requires SameShape(h, h') && SamePointer(e, e') && TableOK(lay, h, role, i, e)
    ensures TableOK(lay, h', role, i, e')
  {
    if e.cluster != 0 {
      SameShapeAt(h, h', e.cluster);
      forall j: nat | j < lay.l2Size
        ensures DataOK(lay, h', role, i, j, TableAt(h', e.cluster)[j])
      {
        var f := TableAt(h, e.cluster)[j];
        assert DataOK(lay, h, role, i, j, f);
        assert SamePointer(f, TableAt(h', e.cluster)[j]);
        SameShapeAt(h, h', f.cluster);
      }
    }
  }

  lemma RetagView(lay: Layout, h: Host, h': Host, t: seq<Entry>, t': seq<Entry>, s: nat)
    requires WellFormed(lay) && SameShape(h, h') && SamePointers(t, t')
    ensures GuestSector(lay, h', t', s) == GuestSector(lay, h, t, s)
  {
    var g := Quot(s, lay.clusterSectors);
    var e, e' := Pick(t, Quot(g, lay.l2Size)), Pick(t', Quot(g, lay.l2Size));
    assert SamePointer(e, e');
    if e.cluster != 0 {
      SameShapeAt(h, h', e.cluster);
    }
    SameShapeAt(h, h', Lookup(lay, h, t, g));
  }

  /** A root keeps its shape, its counts and its disk when only flags change. */
  lemma RetagRoot(lay: Layout, h: Host, h': Host, role: Roles, r: Root, r': Root)
    requires WellFormed(lay) && SameShape(h, h') && RootOK(lay, h, role, r)
    requires r'.off == r.off && SamePointers(r.tab, r'.tab)
    ensures RootOK(lay, h', role, r')
    ensures forall c: nat :: L1Refs(h', r'.tab, |r'.tab|, c) == L1Refs(h, r.tab, |r.tab|, c)
    ensures forall c: nat :: RootRefs(h', r', c, lay.l2Size) == RootRefs(h, r, c, lay.l2Size)
    ensures forall s: nat :: GuestSector(lay, h', r'.tab, s) == GuestSector(lay, h, r.tab, s)
  {
    forall i: nat | i < |r.tab|
      ensures TableOK(lay, h', role, i, r'.tab[i])
      ensures r.tab[i].cluster != 0 ==> SamePointers(TableAt(h, r.tab[i].cluster), TableAt(h', r.tab[i].cluster))
    {
      assert SamePointer(r.tab[i], r'.tab[i]);
      RetagEntry(lay, h, h', role, i, r.tab[i], r'.tab[i]);
      SameShapeAt(h, h', r.tab[i].cluster);
    }
    forall c: nat | InArea(r.off, Clusters(|r.tab|, lay.l2Size), c)
      ensures IsTable(h', c, lay.l2Size)
    {
      SameShapeAt(h, h', c);
    }
    forall c: nat
      ensures L1Refs(h', r'.tab, |r'.tab|, c) == L1Refs(h, r.tab, |r.tab|, c)
      ensures RootRefs(h', r', c, lay.l2Size) == RootRefs(h, r, c, lay.l2Size)
    {
      L1RefsSame(h, h', r.tab, r'.tab, |r.tab|, c);
    }
    forall s: nat
      ensures GuestSector(lay, h', r'.tab, s) == GuestSector(lay, h, r.tab, s)
    {
      RetagView(lay, h, h', r.tab, r'.tab, s);
    }
  }

  /** `m'` is `m` with other flags and other counts. */
  ghost predicate Retag(lay: Layout, m: Image, m': Image)
    requires lay.l2Size > 0
  {
    && m' == m.(host := m'.host, l1 := m'.l1, refcounts := m'.refcounts)
    && SameShape(m.host, m'.host) && SamePointers(m.l1, m'.l1)
    && ReadRun(m'.host, m'.l1Offset, |m'.l1|, lay.l2Size) == m'.l1
  }

  lemma RetagAt(lay: Layout, m: Image, m': Image, role: Roles, a: nat)
    requires WellFormed(lay) && Shaped(lay, m, role) && Retag(lay, m, m') && a <= |m.snaps|
    ensures RootOK(lay, m'.host, role, Roots(lay, m')[a])
    ensures forall c: nat :: RootRefs(m'.host, Roots(lay, m')[a], c, lay.l2Size)
                          == RootRefs(m.host, Roots(lay, m)[a], c, lay.l2Size)
    ensures forall c: nat :: L1Refs(m'.host, Roots(lay, m')[a].tab, |Roots(lay, m')[a].tab|, c)
                          == L1Refs(m.host, Roots(lay, m)[a].tab, |Roots(lay, m)[a].tab|, c)
    ensures forall s: nat :: GuestSector(lay, m'.host, Roots(lay, m')[a].tab, s)
                          == GuestSector(lay, m.host, Roots(lay, m)[a].tab, s)
  {
    var r, r' := Roots(lay, m)[a], Roots(lay, m')[a];
    if a > 0 {
      var sn := m.snaps[a - 1];
      assert r == SnapRoot(lay, m.host, sn) && r' == SnapRoot(lay, m'.host, sn);
      ReadRunSame(m.host, m'.host, sn.l1Offset, sn.l1Size, lay.l2Size);
    }
    RetagRoot(lay, m.host, m'.host, role, r, r');
  }

  lemma RetagRefs(lay: Layout, m: Image, m': Image, role: Roles, c: nat)
    requires WellFormed(lay) && Shaped(lay, m, role) && Retag(lay, m, m')
    ensures Refs(lay, m', c) == Refs(lay, m, c)
    ensures L1Refs(m'.host, m'.l1, |m'.l1|, c) == L1Refs(m.host, m.l1, |m.l1|, c)
  {
    var rs, rs' := Roots(lay, m), Roots(lay, m');
    forall a: nat | a <= |m.snaps|
      ensures RootRefs(m'.host, rs'[a], c, lay.l2Size) == RootRefs(m.host, rs[a], c, lay.l2Size)
    {
      RetagAt(lay, m, m', role, a);
    }
    RootsRefsSame(m.host, m'.host, rs, rs', |m.snaps| + 1, c, lay.l2Size);
    RetagAt(lay, m, m', role, 0);
    assert rs[0] == Root(m.l1Offset, m.l1) && rs'[0] == Root(m'.l1Offset, m'.l1);
  }

  lemma RetagViews(lay: Layout, m: Image, m': Image, role: Roles)
    requires WellFormed(lay) && Shaped(lay, m, role) && Retag(lay, m, m')
    ensures SnapshotsKept(lay, m, m')
    ensures forall s: nat :: GuestSector(lay, m'.host, m'.l1, s) == GuestSector(lay, m.host, m.l1, s)
  {
    forall s: nat
      ensures GuestSector(lay, m'.host, m'.l1, s) == GuestSector(lay, m.host, m.l1, s)
    {
      RetagView(lay, m.host, m'.host, m.l1, m'.l1, s);
    }
    forall a: nat, s: nat | a < |m.snaps|
      ensures GuestSector(lay, m'.host, SnapRoot(lay, m'.host, m.snaps[a]).tab, s)
           == GuestSector(lay, m.host, SnapRoot(lay, m.host, m.snaps[a]).tab, s)
    {
      ReadRunSame(m.host, m'.host, m.snaps[a].l1Offset, m.snaps[a].l1Size, lay.l2Size);
      RetagView(lay, m.host, m'.host, SnapRoot(lay, m.host, m.snaps[a]).tab, SnapRoot(lay, m'.host, m.snaps[a]).tab, s);
    }
  }

  /** A pass over counts and flags keeps every reference and every disk. */
  lemma RetagImage(lay: Layout, m: Image, m': Image, role: Roles)
    requires WellFormed(lay) && Shaped(lay, m, role) && Retag(lay, m, m')
    ensures Shaped(lay, m', role) && SnapshotsKept(lay, m, m')
    ensures forall c: nat :: Refs(lay, m', c) == Refs(lay, m, c)
    ensures forall c: nat :: L1Refs(m'.host, m'.l1, |m'.l1|, c) == L1Refs(m.host, m.l1, |m.l1|, c)
    ensures forall s: nat :: GuestSector(lay, m'.host, m'.l1, s) == GuestSector(lay, m.host, m.l1, s)
  {
    forall a: nat | a <= |m.snaps|
      ensures RootOK(lay, m'.host, role, Roots(lay, m')[a])
    {
      RetagAt(lay, m, m', role, a);
    }
    forall c: nat
      ensures Refs(lay, m', c) == Refs(lay, m, c)
      ensures L1Refs(m'.host, m'.l1, |m'.l1|, c) == L1Refs(m.host, m.l1, |m.l1|, c)
    {
      RetagRefs(lay, m, m', role, c);
    }
    RetagViews(lay, m, m', role);
  }

  /** Writing a table back with other flags changes only flags. */
  lemma WriteRunSame(h: Host, off: nat, t: seq<Entry>, l: nat)
    requires l > 0 && SamePointers(ReadRun(h, off, |t|, l), t)
    requires forall c: nat | InArea(off, Clusters(|t|, l), c) :: IsTable(h, c, l)
    ensures SameShape(h, WriteRun(h, off, t, l))
  {
    var h' := WriteRun(h, off, t, l);
    forall c: nat | c in h
      ensures c in h' && SameContent(h[c], h'[c])
    {
      if InArea(off, Clusters(|t|, l), c) {
        var q := c - off;
        assert h'[c] == Table(ChunkOf(TableAt(h, c), t, q, l));
        forall w: nat | w < l
          ensures SamePointer(h[c].entries[w], h'[c].entries[w])
        {
          if q * l + w < |t| {
            QuotRemUnique(q, w, l);
            assert SamePointer(ReadRun(h, off, |t|, l)[q * l + w], t[q * l + w]);
          }
        }
      }
    }
    assert h.Keys == h'.Keys;
  }

  // ---------------------------------------------------------------------------
  // Writing to clusters that nothing uses
  // ---------------------------------------------------------------------------

  /** The clusters of an area, as a set. */
  function AreaSet(off: nat, n: nat): set<nat> {
    set c: nat | off <= c < off + n && InArea(off, n, c)
  }

  lemma UnusedChangeAt(lay: Layout, m: Image, h': Host, role: Roles, role': Roles, D: set<nat>, a: nat)
    requires WellFormed(lay) && Shaped(lay, m, role) && a <= |m.snaps|
    requires AgreeOutside(m.host, h', D) && RolesOutside(role, role', D)
    requires forall c: nat | c in D :: Unused(lay, m, c)
    ensures Roots(lay, m.(host := h'))[a] == Roots(lay, m)[a]
    ensures RootOK(lay, h', role', Roots(lay, m)[a])
    ensures forall c: nat :: RootRefs(h', Roots(lay, m)[a], c, lay.l2Size)
                          == RootRefs(m.host, Roots(lay, m)[a], c, lay.l2Size)
    ensures forall s: nat :: GuestSector(lay, h', Roots(lay, m)[a].tab, s)
                          == GuestSector(lay, m.host, Roots(lay, m)[a].tab, s)
  {
    var r := Roots(lay, m)[a];
    RootUntouched(lay, m.host, h', role, role', r, D);
    if a > 0 {
      var sn := m.snaps[a - 1];
      assert r == SnapRoot(lay, m.host, sn);
      forall c: nat | InArea(sn.l1Offset, Clusters(sn.l1Size, lay.l2Size), c)
        ensures TableAt(m.host, c) == TableAt(h', c)
      {
        assert c !in D;
      }
      ReadFramed(m.host, h', sn.l1Offset, sn.l1Size, lay.l2Size);
    }
  }

  lemma UnusedChangeShape(lay: Layout, m: Image, m': Image, role: Roles, role': Roles, D: set<nat>)
    requires WellFormed(lay) && Shaped(lay, m, role) && m' == m.(host := m'.host)
    requires AgreeOutside(m.host, m'.host, D) && RolesOutside(role, role', D)
    requires forall c: nat | c in D :: Unused(lay, m, c)
    ensures Roots(lay, m') == Roots(lay, m) && Shaped(lay, m', role')
  {
    var rs := Roots(lay, m);
    forall a: nat | a <= |m.snaps|
      ensures Roots(lay, m')[a] == rs[a] && RootOK(lay, m'.host, role', rs[a])
    {
      UnusedChangeAt(lay, m, m'.host, role, role', D, a);
    }
    assert Roots(lay, m') == rs;
    assert rs[0] == Root(m.l1Offset, m.l1);
    ReadFramed(m.host, m'.host, m.l1Offset, |m.l1|, lay.l2Size);
  }

  lemma UnusedChangeRefs(lay: Layout, m: Image, m': Image, role: Roles, role': Roles, D: set<nat>, c: nat)
    requires WellFormed(lay) && Shaped(lay, m, role) && m' == m.(host := m'.host)
    requires AgreeOutside(m.host, m'.host, D) && RolesOutside(role, role', D)
    requires forall c: nat | c in D :: Unused(lay, m, c)
    requires Roots(lay, m') == Roots(lay, m)
    ensures Refs(lay, m', c) == Refs(lay, m, c)
    ensures L1Refs(m'.host, m.l1, |m.l1|, c) == L1Refs(m.host, m.l1, |m.l1|, c)
  {
    var rs := Roots(lay, m);
    forall a: nat | a <= |m.snaps|
      ensures RootRefs(m'.host, rs[a], c, lay.l2Size) == RootRefs(m.host, rs[a], c, lay.l2Size)
    {
      UnusedChangeAt(lay, m, m'.host, role, role', D, a);
    }
    RootsRefsSame(m.host, m'.host, rs, rs, |m.snaps| + 1, c, lay.l2Size);
    assert rs[0] == Root(m.l1Offset, m.l1);
    assert RootRefs(m'.host, rs[0], c, lay.l2Size) == RootRefs(m.host, rs[0], c, lay.l2Size);
  }

  /** A change confined to unused clusters keeps all roots, references and disks. */
  lemma UnusedChange(lay: Layout, m: Image, m': Image, role: Roles, role': Roles, D: set<nat>)
    requires WellFormed(lay) && Shaped(lay, m, role) && m' == m.(host := m'.host)
    requires AgreeOutside(m.host, m'.host, D) && RolesOutside(role, role', D)
    requires forall c: nat | c in D :: Unused(lay, m, c)
    ensures Roots(lay, m') == Roots(lay, m) && Shaped(lay, m', role') && SnapshotsKept(lay, m, m')
    ensures forall c: nat :: Refs(lay, m', c) == Refs(lay, m, c)
    ensures forall c: nat :: L1Refs(m'.host, m.l1, |m.l1|, c) == L1Refs(m.host, m.l1, |m.l1|, c)
    ensures forall s: nat :: GuestSector(lay, m'.host, m'.l1, s) == GuestSector(lay, m.host, m.l1, s)
    ensures forall i: nat | i < |m.l1| && m.l1[i].cluster != 0 ::
              TableAt(m'.host, m.l1[i].cluster) == TableAt(m.host, m.l1[i].cluster)
  {
    UnusedChangeShape(lay, m, m', role, role', D);
    forall c: nat
      ensures Refs(lay, m', c) == Refs(lay, m, c)
      ensures L1Refs(m'.host, m.l1, |m.l1|, c) == L1Refs(m.host, m.l1, |m.l1|, c)
    {
      UnusedChangeRefs(lay, m, m', role, role', D, c);
    }
    UnusedChangeViews(lay, m, m', role, role', D);
  }

  lemma UnusedChangeViews(lay: Layout, m: Image, m': Image, role: Roles, role': Roles, D: set<nat>)
    requires WellFormed(lay) && Shaped(lay, m, role) && m' == m.(host := m'.host)
    requires AgreeOutside(m.host, m'.host, D) && RolesOutside(role, role', D)
    requires forall c: nat | c in D :: Unused(lay, m, c)
    requires Roots(lay, m') == Roots(lay, m)
    ensures SnapshotsKept(lay, m, m')
    ensures forall s: nat :: GuestSector(lay, m'.host, m'.l1, s) == GuestSector(lay, m.host, m.l1, s)
    ensures forall i: nat | i < |m.l1| && m.l1[i].cluster != 0 ::
              TableAt(m'.host, m.l1[i].cluster) == TableAt(m.host, m.l1[i].cluster)
  {
    var rs := Roots(lay, m);
    assert rs[0] == Root(m.l1Offset, m.l1);
    UnusedChangeAt(lay, m, m'.host, role, role', D, 0);
    forall a: nat, s: nat | a < |m.snaps|
      ensures GuestSector(lay, m'.host, SnapRoot(lay, m'.host, m.snaps[a]).tab, s)
           == GuestSector(lay, m.host, SnapRoot(lay, m.host, m.snaps[a]).tab, s)
    {
      UnusedChangeAt(lay, m, m'.host, role, role', D, a + 1);
      assert rs[a + 1] == SnapRoot(lay, m.host, m.snaps[a]) &&
             Roots(lay, m')[a + 1] == SnapRoot(lay, m'.host, m.snaps[a]);
    }
    forall i: nat | i < |m.l1| && m.l1[i].cluster != 0
      ensures TableAt(m'.host, m.l1[i].cluster) == TableAt(m.host, m.l1[i].cluster)
    {
      ListedEntry(m.host, m.l1, i);
    }
  }

  /** Flags stay right when counts change only on clusters the table does not list. */
  lemma FlagsFramed(h: Host, h': Host, t: seq<Entry>, rc: map<nat, nat>, rc': map<nat, nat>)
    requires Flagged(h, t, rc)
    requires forall i: nat | i < |t| && t[i].cluster != 0 :: TableAt(h', t[i].cluster) == TableAt(h, t[i].cluster)
    requires forall c: nat | c != 0 && Lists(h, t, c) :: Rc(rc', c) == Rc(rc, c)
    ensures Flagged(h', t, rc')
  {
    forall i: nat | i < |t|
      ensures EntryFlagged(h', t[i], rc')
    {
      assert EntryFlagged(h, t[i], rc);
      if t[i].cluster != 0 {
        ListedEntry(h, t, i);
      }
    }
  }

  /** Every count in the area moved by one; nothing else moved. */
  ghost predicate AreaTaken(rc: map<nat, nat>, rc': map<nat, nat>, off: nat, n: nat) {
    forall c: nat :: Rc(rc', c) == Rc(rc, c) + AreaRefs(off, n, c)
  }

  // ---------------------------------------------------------------------------
  // The three snapshot operations
  // ---------------------------------------------------------------------------

  /** Counts include the active root twice: the state in which a snapshot is taken. */
  ghost predicate CountedTwice(lay: Layout, m: Image)
    requires lay.l2Size > 0
  {
    forall c: nat :: Rc(m.refcounts, c) == Refs(lay, m, c) + L1Refs(m.host, m.l1, |m.l1|, c)
  }

  function Assigned(role: Roles, D: set<nat>, r: Role): Roles {
    role + map c: nat | c in D :: r
  }

  /** The image after the active L1 table was stored a second time, at `off`. */
  function WithSnapshot(lay: Layout, m: Image, rc': map<nat, nat>, sn: Snapshot): Image
    requires lay.l2Size > 0
  {
    m.(host := WriteRun(m.host, sn.l1Offset, m.l1, lay.l2Size), refcounts := rc', snaps := m.snaps + [sn])
  }

  lemma NewRootStored(lay: Layout, m: Image, role: Roles, h': Host, role': Roles, off: nat, n: nat)
    requires WellFormed(lay) && Shaped(lay, m, role) && n == Clusters(|m.l1|, lay.l2Size)
    requires h' == WriteRun(m.host, off, m.l1, lay.l2Size) && role' == Assigned(role, AreaSet(off, n), L1Area(off))
    requires forall c: nat | InArea(off, n, c) :: Unused(lay, m, c)
    ensures ReadRun(h', off, |m.l1|, lay.l2Size) == m.l1
    ensures AreaOK(lay, h', role', off, n)
    ensures AgreeOutside(m.host, h', AreaSet(off, n)) && RolesOutside(role, role', AreaSet(off, n))
    ensures forall c: nat | c in AreaSet(off, n) :: Unused(lay, m, c)
  {
    ReadWritten(m.host, off, m.l1, lay.l2Size);
    forall c: nat | InArea(off, n, c)
      ensures c in role' && role'[c] == L1Area(off) && IsTable(h', c, lay.l2Size)
    {
      assert c in AreaSet(off, n);
      assert h'[c] == Table(ChunkOf(TableAt(m.host, c), m.l1, c - off, lay.l2Size));
    }
  }

  lemma FreshAreaOffset(lay: Layout, m: Image, role: Roles, off: nat, n: nat)
    requires WellFormed(lay) && Shaped(lay, m, role) && n > 0
    requires forall c: nat | InArea(off, n, c) :: Unused(lay, m, c)
    ensures off != m.l1Offset && forall a: nat | a < |m.snaps| :: m.snaps[a].l1Offset != off
  {
    assert InArea(off, n, off);
    var rs := Roots(lay, m);
    ActiveRoot(lay, m, role);
    assert rs[0] == Root(m.l1Offset, m.l1);
    ClustersPositive(|m.l1|, lay.l2Size);
    assert !InArea(m.l1Offset, Clusters(|m.l1|, lay.l2Size), off);
    forall a: nat | a < |m.snaps|
      ensures m.snaps[a].l1Offset != off
    {
      assert rs[a + 1] == SnapRoot(lay, m.host, m.snaps[a]);
      ClustersPositive(m.snaps[a].l1Size, lay.l2Size);
    }
  }

  lemma ClustersPositive(n: nat, l: nat)
    requires l > 0 && n > 0
    ensures Clusters(n, l) > 0
  {
    SlotInArea(0, n, l);
  }

  /**
   * Taking a snapshot: the active L1 table is stored again under a root of its
   * own.  The new snapshot's disk is the active disk; nothing else changes.
   */
  lemma CreateStep(lay: Layout, m: Image, role: Roles, rc': map<nat, nat>, sn: Snapshot, n: nat)
    requires WellFormed(lay) && Shaped(lay, m, role) && CountedTwice(lay, m) && Flagged(m.host, m.l1, m.refcounts)
    requires sn.l1Size == |m.l1| && n == Clusters(|m.l1|, lay.l2Size)
    requires forall c: nat | InArea(sn.l1Offset, n, c) :: Rc(m.refcounts, c) == 0
    requires AreaTaken(m.refcounts, rc', sn.l1Offset, n)
    ensures var m' := WithSnapshot(lay, m, rc', sn);
            && Sound(lay, m', Assigned(role, AreaSet(sn.l1Offset, n), L1Area(sn.l1Offset)))
            && (forall s: nat :: GuestSector(lay, m'.host, m'.l1, s) == GuestSector(lay, m.host, m.l1, s))
            && (forall a: nat, s: nat | a < |m.snaps| ::
                  GuestSector(lay, m'.host, SnapRoot(lay, m'.host, m.snaps[a]).tab, s)
                  == GuestSector(lay, m.host, SnapRoot(lay, m.host, m.snaps[a]).tab, s))
            && SnapRoot(lay, m'.host, sn).tab == m'.l1
            && (forall c: nat :: L1Refs(m'.host, m.l1, |m.l1|, c) == L1Refs(m.host, m.l1, |m.l1|, c))
  {
    hide Unused, Private, GuestSector, TableOK, Quot, WriteRun, L1Refs, EntryFlagged, Inverts;
    var off := sn.l1Offset;
    var D := AreaSet(off, n);
    var role' := Assigned(role, D, L1Area(off));
    var m' := WithSnapshot(lay, m, rc', sn);
    forall c: nat | InArea(off, n, c)
      ensures Unused(lay, m, c)
    {
      NoRefsUnused(lay, m, c);
    }
    NewRootStored(lay, m, role, m'.host, role', off, n);
    var m1 := m.(host := m'.host);
    UnusedChange(lay, m, m1, role, role', D);
    ActiveRoot(lay, m1, role');
    ClustersPositive(|m.l1|, lay.l2Size);
    FreshAreaOffset(lay, m, role, off, n);
    assert RootOK(lay, m'.host, role', SnapRoot(lay, m'.host, sn));
    AddedRootShaped(lay, m1, m', role', sn);
    forall c: nat
      ensures Rc(rc', c) == Refs(lay, m', c)
    {
      AddedRootRefs(lay, m1, m', sn, c);
    }
    forall c: nat | c != 0 && Lists(m.host, m.l1, c)
      ensures Rc(rc', c) == Rc(m.refcounts, c)
    {
      if InArea(off, n, c) {
        UnusedPrivate(lay, m, c);
      }
    }
    FlagsFramed(m.host, m'.host, m.l1, m.refcounts, rc');
  }

  lemma AddedRootShaped(lay: Layout, m: Image, m': Image, role: Roles, sn: Snapshot)
    requires WellFormed(lay) && Shaped(lay, m, role)
    requires m' == m.(refcounts := m'.refcounts, snaps := m.snaps + [sn])
    requires RootOK(lay, m.host, role, SnapRoot(lay, m.host, sn))
    requires sn.l1Offset != m.l1Offset && forall a: nat | a < |m.snaps| :: m.snaps[a].l1Offset != sn.l1Offset
    ensures Shaped(lay, m', role)
  {
    var rs, rs' := Roots(lay, m), Roots(lay, m');
    forall a: nat | a <= |m'.snaps|
      ensures RootOK(lay, m'.host, role, rs'[a])
    {
      if a <= |m.snaps| {
        assert rs'[a] == rs[a];
      } else {
        assert rs'[a] == SnapRoot(lay, m.host, sn);
      }
    }
  }

  lemma AddedRootRefs(lay: Layout, m: Image, m': Image, sn: Snapshot, c: nat)
    requires lay.l2Size > 0
    requires m' == m.(refcounts := m'.refcounts, snaps := m.snaps + [sn])
    ensures Refs(lay, m', c) == Refs(lay, m, c) + RootRefs(m.host, SnapRoot(lay, m.host, sn), c, lay.l2Size)
  {
    var rs, rs' := Roots(lay, m), Roots(lay, m');
    assert rs'[|m.snaps| + 1] == SnapRoot(lay, m.host, sn);
    forall a: nat | a <= |m.snaps|
      ensures rs'[a] == rs[a]
    {
    }
    RootsRefsSame(m.host, m.host, rs, rs', |m.snaps| + 1, c, lay.l2Size);
  }

  /** Counts leave the active root out: the state in which it is replaced. */
  ghost predicate CountedWithout(lay: Layout, m: Image)
    requires lay.l2Size > 0
  {
    forall c: nat :: Rc(m.refcounts, c) + L1Refs(m.host, m.l1, |m.l1|, c) == Refs(lay, m, c)
  }

  /** A cluster without count, while the active root is left out, is safe to overwrite. */
  lemma FreeWithoutPrivate(lay: Layout, m: Image, role: Roles, c: nat)
    requires WellFormed(lay) && Shaped(lay, m, role) && CountedWithout(lay, m) && Rc(m.refcounts, c) == 0
    ensures Private(lay, m, c) && !InArea(m.l1Offset, Clusters(|m.l1|, lay.l2Size), c)
  {
    var rs := Roots(lay, m);
    assert rs[0] == Root(m.l1Offset, m.l1);
    ActiveRoot(lay, m, role);
    RootUsesOnce(lay, m.host, role, m.l1, |m.l1|, c);
    assert Refs(lay, m, c) == L1Refs(m.host, m.l1, |m.l1|, c);
    RootsRefsAtLeast(m.host, rs, 0, |rs|, c, lay.l2Size);
    assert c != 0;
    forall a: nat | a < |m.snaps|
      ensures !InArea(m.snaps[a].l1Offset, Clusters(m.snaps[a].l1Size, lay.l2Size), c)
      ensures !Lists(m.host, SnapRoot(lay, m.host, m.snaps[a]).tab, c)
    {
      var r := SnapRoot(lay, m.host, m.snaps[a]);
      assert rs[a + 1] == r;
      RootsRefsTwo(m.host, rs, 0, a + 1, |rs|, c, lay.l2Size);
      if Lists(m.host, r.tab, c) {
        ListsCounted(m.host, r.tab, c);
      }
    }
  }

  /** Clusters of an `n`-cluster area that a table of `k` entries leaves unused. */
  function Tail(off: nat, n: nat, k: nat, l: nat): set<nat>
    requires l > 0
  {
    AreaSet(off, n) - AreaSet(off, Clusters(k, l))
  }

  /**
   * Going to snapshot `k`: the active root becomes a copy of the snapshot's root,
   * stored at the head of the `n` clusters at `off`.  What the copy does not fill
   * of them is lost: it stays counted, and nothing refers to it.
   */
  ghost predicate WentTo(lay: Layout, m: Image, m': Image, k: nat, off: nat, n: nat)
    requires lay.l2Size > 0
  {
    && k < |m.snaps|
    && var t := SnapRoot(lay, m.host, m.snaps[k]).tab;
       && m' == m.(host := m'.host, refcounts := m'.refcounts, l1Offset := off, l1 := t,
                   reserved := m.reserved + Tail(off, n, |t|, lay.l2Size))
       && Clusters(|t|, lay.l2Size) <= n
       && AgreeOutside(m.host, m'.host, AreaSet(off, n))
       && (forall c: nat | InArea(off, Clusters(|t|, lay.l2Size), c) :: IsTable(m'.host, c, lay.l2Size))
       && ReadRun(m'.host, off, |t|, lay.l2Size) == t
       && (forall a: nat | a < |m.snaps| :: m.snaps[a].l1Offset != off)
       && (forall c: nat | c in AreaSet(off, n) :: Private(lay, m, c))
       && forall c: nat ::
            Rc(m'.refcounts, c) + RootRefs(m.host, Root(m.l1Offset, m.l1), c, lay.l2Size)
            == Refs(lay, m, c) + AreaRefs(off, n, c)
  }

  function MovedRoles(role: Roles, off: nat, n: nat, k: nat, l: nat): Roles
    requires l > 0
  {
    Assigned(Assigned(role, AreaSet(off, n), Meta), AreaSet(off, Clusters(k, l)), L1Area(off))
  }

  /** The moved roles differ inside the area only: Meta for what is lost, L1 area for the rest. */
  lemma MovedRolesAt(role: Roles, off: nat, n: nat, k: nat, l: nat)
    requires l > 0 && Clusters(k, l) <= n
    ensures var role' := MovedRoles(role, off, n, k, l);
            && RolesOutside(role, role', AreaSet(off, n))
            && (forall c: nat | c in AreaSet(off, Clusters(k, l)) :: c in role' && role'[c] == L1Area(off))
            && (forall c: nat | c in Tail(off, n, k, l) :: c in role' && role'[c] == Meta)
  {
    hide Clusters;
  }

  /** No snapshot's root is touched. */
  lemma WentToRoots(lay: Layout, m: Image, m': Image, role: Roles, k: nat, off: nat, n: nat)
    requires WellFormed(lay) && Shaped(lay, m, role) && WentTo(lay, m, m', k, off, n)
    ensures forall a: nat | 0 < a <= |m.snaps| ::
              && Roots(lay, m')[a] == Roots(lay, m)[a]
              && RootOK(lay, m'.host, MovedRoles(role, off, n, |m'.l1|, lay.l2Size), Roots(lay, m')[a])
              && (forall c: nat :: RootRefs(m'.host, Roots(lay, m')[a], c, lay.l2Size)
                                == RootRefs(m.host, Roots(lay, m)[a], c, lay.l2Size))
    ensures SnapshotsKept(lay, m, m')
  {
    hide Private, Shaped, RootOK, Clusters, RootRefs, GuestSector, Inverts, MovedRoles, RolesOutside, ReadRun;
    MovedRolesAt(role, off, n, |m'.l1|, lay.l2Size);
    SnapshotsUntouched(lay, m, m', role, MovedRoles(role, off, n, |m'.l1|, lay.l2Size), AreaSet(off, n));
    forall a: nat, s: nat | a < |m.snaps|
      ensures GuestSector(lay, m'.host, SnapRoot(lay, m'.host, m.snaps[a]).tab, s)
           == GuestSector(lay, m.host, SnapRoot(lay, m.host, m.snaps[a]).tab, s)
    {
      assert Roots(lay, m)[a + 1] == SnapRoot(lay, m.host, m.snaps[a]);
      assert Roots(lay, m')[a + 1] == SnapRoot(lay, m'.host, m.snaps[a]);
    }
  }

  lemma WentToShape(lay: Layout, m: Image, m': Image, role: Roles, k: nat, off: nat, n: nat)
    requires WellFormed(lay) && Shaped(lay, m, role) && WentTo(lay, m, m', k, off, n)
    ensures Shaped(lay, m', MovedRoles(role, off, n, |m'.l1|, lay.l2Size))
  {
    hide Private, Shaped, RootOK, Clusters, RootRefs, GuestSector, Inverts, MovedRoles, RolesOutside, ReadRun,
         SnapshotsKept, Roots;
    var role' := MovedRoles(role, off, n, |m'.l1|, lay.l2Size);
    MovedRolesAt(role, off, n, |m'.l1|, lay.l2Size);
    WentToRoots(lay, m, m', role, k, off, n);
    WentToActive(lay, m, m', role', k, off, n);
    WentToReserved(lay, m, m', role, role', AreaSet(off, n));
  }

  lemma WentToActive(lay: Layout, m: Image, m': Image, role': Roles, k: nat, off: nat, n: nat)
    requires WellFormed(lay) && WentTo(lay, m, m', k, off, n)
    requires forall c: nat | c in AreaSet(off, Clusters(|m'.l1|, lay.l2Size)) :: c in role' && role'[c] == L1Area(off)
    requires RootOK(lay, m'.host, role', Roots(lay, m)[k + 1])
    ensures RootOK(lay, m'.host, role', Root(off, m'.l1))
  {
    hide Private;
    assert Roots(lay, m)[k + 1] == SnapRoot(lay, m.host, m.snaps[k]);
    forall c: nat | InArea(off, Clusters(|m'.l1|, lay.l2Size), c)
      ensures c in role' && role'[c] == L1Area(off)
    {
      assert c in AreaSet(off, Clusters(|m'.l1|, lay.l2Size));
    }
  }

  lemma WentToReserved(lay: Layout, m: Image, m': Image, role: Roles, role': Roles, D: set<nat>)
    requires WellFormed(lay) && Shaped(lay, m, role)
    requires m'.snaps == m.snaps && forall a: nat | a < |m.snaps| :: m.snaps[a].l1Offset != m'.l1Offset
    requires m'.dirOffset == m.dirOffset && m'.dirClusters == m.dirClusters
    requires m.reserved <= m'.reserved <= m.reserved + D
    requires forall c: nat | c in m'.reserved - m.reserved :: c in role' && role'[c] == Meta
    requires RolesOutside(role, role', D)
    requires forall c: nat | c in D :: Private(lay, m, c)
    requires RootOK(lay, m'.host, role', Root(m'.l1Offset, m'.l1))
    requires ReadRun(m'.host, m'.l1Offset, |m'.l1|, lay.l2Size) == m'.l1
    requires forall a: nat | 0 < a <= |m.snaps| :: RootOK(lay, m'.host, role', Roots(lay, m')[a])
    ensures Shaped(lay, m', role')
  {
    var m1 := m'.(reserved := m.reserved);
    assert Roots(lay, m1) == Roots(lay, m');
    StepShaped(lay, m, m1, role, role', D);
  }

  lemma WentToCounts(lay: Layout, m: Image, m': Image, k: nat, off: nat, n: nat, c: nat)
    requires WellFormed(lay) && WentTo(lay, m, m', k, off, n)
    requires forall a: nat | 0 < a <= |m.snaps| ::
               RootRefs(m'.host, Roots(lay, m')[a], c, lay.l2Size) == RootRefs(m.host, Roots(lay, m)[a], c, lay.l2Size)
    ensures Rc(m'.refcounts, c) + L1Refs(m'.host, m'.l1, |m'.l1|, c) == Refs(lay, m', c)
  {
    hide L1Refs, RootsRefs;
    var m1 := m'.(reserved := m.reserved);
    assert Roots(lay, m1) == Roots(lay, m');
    ActiveRefs(lay, m, m1, c);
    assert Refs(lay, m', c) == Refs(lay, m1, c) + (if c in Tail(off, n, |m'.l1|, lay.l2Size) then 1 else 0) by {
      if c in AreaSet(off, n) {
        assert Private(lay, m, c);
      }
    }
  }

  /** After going to a snapshot the counts still leave the active root out; the snapshots keep their disks. */
  lemma GotoStep(lay: Layout, m: Image, m': Image, role: Roles, k: nat, off: nat, n: nat)
    requires WellFormed(lay) && Shaped(lay, m, role) && WentTo(lay, m, m', k, off, n)
    ensures Shaped(lay, m', MovedRoles(role, off, n, |m'.l1|, lay.l2Size))
    ensures CountedWithout(lay, m') && SnapshotsKept(lay, m, m')
    ensures m'.l1 == SnapRoot(lay, m'.host, m.snaps[k]).tab
  {
    hide Shaped, SnapshotsKept, Private, AgreeOutside;
    WentToShape(lay, m, m', role, k, off, n);
    WentToRoots(lay, m, m', role, k, off, n);
    forall c: nat
      ensures Rc(m'.refcounts, c) + L1Refs(m'.host, m'.l1, |m'.l1|, c) == Refs(lay, m', c)
    {
      WentToCounts(lay, m, m', k, off, n, c);
    }
    WentToTable(lay, m, m', k, off, n);
  }

  lemma WentToTable(lay: Layout, m: Image, m': Image, k: nat, off: nat, n: nat)
    requires lay.l2Size > 0 && WentTo(lay, m, m', k, off, n)
    requires Roots(lay, m')[k + 1] == Roots(lay, m)[k + 1]
    ensures m'.l1 == SnapRoot(lay, m'.host, m.snaps[k]).tab
  {
    assert Roots(lay, m)[k + 1] == SnapRoot(lay, m.host, m.snaps[k]);
    assert Roots(lay, m')[k + 1] == SnapRoot(lay, m'.host, m.snaps[k]);
  }

  // ---------------------------------------------------------------------------
  // A longer active L1 table
  // ---------------------------------------------------------------------------

  function Longer(t: seq<Entry>, k: nat): seq<Entry> {
    t + seq(k, i => NONE)
  }

  lemma {:induction false} LongerRefs(h: Host, t: seq<Entry>, k: nat, n: nat, c: nat)
    requires n <= |t| + k
    ensures L1Refs(h, Longer(t, k), n, c) == L1Refs(h, t, if n <= |t| then n else |t|, c)
  {
    if n > 0 {
      LongerRefs(h, t, k, n - 1, c);
      assert n > |t| ==> Longer(t, k)[n - 1] == NONE;
    }
  }

  lemma LongerView(lay: Layout, h: Host, t: seq<Entry>, k: nat, s: nat)
    requires WellFormed(lay)
    ensures GuestSector(lay, h, Longer(t, k), s) == GuestSector(lay, h, t, s)
  {
    var i := Quot(Quot(s, lay.clusterSectors), lay.l2Size);
    assert Pick(Longer(t, k), i) == Pick(t, i);
  }

  /** The active L1 table moved to `n` fresh clusters at `off` and became `k` entries longer. */
  ghost predicate Grown(lay: Layout, m: Image, m': Image, k: nat, off: nat, n: nat)
    requires lay.l2Size > 0
  {
    && m' == m.(host := m'.host, refcounts := m'.refcounts, l1Offset := off, l1 := Longer(m.l1, k))
    && n == Clusters(|m'.l1|, lay.l2Size)
    && AgreeOutside(m.host, m'.host, AreaSet(off, n))
    && (forall c: nat | InArea(off, n, c) :: IsTable(m'.host, c, lay.l2Size) && Rc(m.refcounts, c) == 0)
    && ReadRun(m'.host, off, |m'.l1|, lay.l2Size) == m'.l1
    && forall c: nat ::
         Rc(m'.refcounts, c) + AreaRefs(m.l1Offset, Clusters(|m.l1|, lay.l2Size), c)
         == Rc(m.refcounts, c) + AreaRefs(off, n, c)
  }

  lemma GrownShape(lay: Layout, m: Image, m': Image, role: Roles, k: nat, off: nat, n: nat)
    requires WellFormed(lay) && Shaped(lay, m, role) && Grown(lay, m, m', k, off, n)
    requires forall c: nat | c in AreaSet(off, n) :: Unused(lay, m, c)
    requires Shaped(lay, m.(host := m'.host), Assigned(role, AreaSet(off, n), L1Area(off)))
    ensures Shaped(lay, m', Assigned(role, AreaSet(off, n), L1Area(off)))
  {
    hide DataOK, Quot, L1Refs, GuestSector, Inverts;
    var role' := Assigned(role, AreaSet(off, n), L1Area(off));
    var m1 := m.(host := m'.host);
    ActiveRoot(lay, m1, role');
    ClustersPositive(|m'.l1|, lay.l2Size);
    forall c: nat | InArea(off, n, c)
      ensures Unused(lay, m, c) && c in role' && role'[c] == L1Area(off)
    {
      assert c in AreaSet(off, n);
    }
    FreshAreaOffset(lay, m, role, off, n);
    forall i: nat | i < |m'.l1|
      ensures TableOK(lay, m'.host, role', i, m'.l1[i])
    {
      if i < |m.l1| {
        assert TableOK(lay, m'.host, role', i, m.l1[i]);
      }
    }
    assert RootOK(lay, m'.host, role', Root(off, m'.l1));
    forall a: nat | 0 < a <= |m.snaps|
      ensures RootOK(lay, m'.host, role', Roots(lay, m')[a])
    {
      assert Roots(lay, m')[a] == SnapRoot(lay, m'.host, m.snaps[a - 1]);
    }
    assert Roots(lay, m')[0] == Root(off, m'.l1);
  }

  lemma GrownCounts(lay: Layout, m: Image, m': Image, k: nat, off: nat, n: nat, c: nat)
    requires WellFormed(lay) && Counted(lay, m) && Grown(lay, m, m', k, off, n)
    requires Refs(lay, m.(host := m'.host), c) == Refs(lay, m, c)
    ensures Rc(m'.refcounts, c) == Refs(lay, m', c)
  {
    var m1 := m.(host := m'.host);
    forall a: nat | 0 < a <= |m.snaps|
      ensures RootRefs(m'.host, Roots(lay, m')[a], c, lay.l2Size) == RootRefs(m1.host, Roots(lay, m1)[a], c, lay.l2Size)
    {
      assert Roots(lay, m')[a] == SnapRoot(lay, m'.host, m.snaps[a - 1]);
      assert Roots(lay, m1)[a] == SnapRoot(lay, m'.host, m.snaps[a - 1]);
    }
    ActiveRefs(lay, m1, m', c);
    LongerRefs(m'.host, m.l1, k, |m'.l1|, c);
  }

  lemma GrownFlags(lay: Layout, m: Image, m': Image, role: Roles, k: nat, off: nat, n: nat)
    requires WellFormed(lay) && Shaped(lay, m, role) && Grown(lay, m, m', k, off, n) &&
             Flagged(m.host, m.l1, m.refcounts)
    requires forall c: nat | c in AreaSet(off, n) :: Unused(lay, m, c)
    requires forall i: nat | i < |m.l1| && m.l1[i].cluster != 0 ::
               TableAt(m'.host, m.l1[i].cluster) == TableAt(m.host, m.l1[i].cluster)
    ensures Flagged(m'.host, m'.l1, m'.refcounts)
  {
    ActiveRoot(lay, m, role);
    forall c: nat | c != 0 && Lists(m.host, m.l1, c)
      ensures Rc(m'.refcounts, c) == Rc(m.refcounts, c)
    {
      ListedRole(lay, m.host, role, Root(m.l1Offset, m.l1), c);
      if InArea(off, n, c) {
        assert c in AreaSet(off, n);
        UnusedPrivate(lay, m, c);
      }
    }
    FlagsFramed(m.host, m'.host, m.l1, m.refcounts, m'.refcounts);
    forall i: nat | i < |m'.l1|
      ensures EntryFlagged(m'.host, m'.l1[i], m'.refcounts)
    {
      if i < |m.l1| {
        assert EntryFlagged(m'.host, m.l1[i], m'.refcounts);
      }
    }
  }

  /** A longer L1 table keeps the image sound and all disks. */
  lemma GrowStep(lay: Layout, m: Image, m': Image, role: Roles, k: nat, off: nat, n: nat)
    requires WellFormed(lay) && Sound(lay, m, role) && Grown(lay, m, m', k, off, n)
    ensures Sound(lay, m', Assigned(role, AreaSet(off, n), L1Area(off))) && SnapshotsKept(lay, m, m')
    ensures forall s: nat :: GuestSector(lay, m'.host, m'.l1, s) == GuestSector(lay, m.host, m.l1, s)
  {
    hide Unused, L1Refs, GuestSector;
    var D := AreaSet(off, n);
    var role' := Assigned(role, D, L1Area(off));
    forall c: nat | c in D
      ensures Unused(lay, m, c)
    {
      FreeIsUnused(lay, m, c);
    }
    var m1 := m.(host := m'.host);
    UnusedChange(lay, m, m1, role, role', D);
    GrownShape(lay, m, m', role, k, off, n);
    forall c: nat
      ensures Rc(m'.refcounts, c) == Refs(lay, m', c)
    {
      GrownCounts(lay, m, m', k, off, n, c);
    }
    GrownFlags(lay, m, m', role, k, off, n);
    forall s: nat
      ensures GuestSector(lay, m'.host, m'.l1, s) == GuestSector(lay, m.host, m.l1, s)
    {
      LongerView(lay, m'.host, m.l1, k, s);
    }
  }

  /** With the active root counted in again, a replaced image is sound. */
  lemma RecountedSound(lay: Layout, m: Image, m': Image, role: Roles)
    requires WellFormed(lay) && Shaped(lay, m, role) && CountedWithout(lay, m) && Retag(lay, m, m')
    requires forall c: nat :: Rc(m'.refcounts, c) == Rc(m.refcounts, c) + L1Refs(m.host, m.l1, |m.l1|, c)
    requires Flagged(m'.host, m'.l1, m'.refcounts)
    ensures Sound(lay, m', role)
  {
    RetagImage(lay, m, m', role);
  }

  /** Snapshot `k` is no longer counted, except for its stored L1 table. */
  ghost predicate CountedButSnapshot(lay: Layout, m: Image, k: nat)
    requires lay.l2Size > 0 && k < |m.snaps|
  {
    forall c: nat ::
      var t := SnapRoot(lay, m.host, m.snaps[k]).tab;
      Rc(m.refcounts, c) + L1Refs(m.host, t, |t|, c) == Refs(lay, m, c)
  }

  /** The image after snapshot `k` was taken off the list. */
  function WithoutSnapshot(m: Image, rc': map<nat, nat>, k: nat): Image
    requires k < |m.snaps|
  {
    m.(refcounts := rc', snaps := m.snaps[..k] + m.snaps[k + 1..])
  }

  lemma RootsWithout(lay: Layout, m: Image, rc': map<nat, nat>, k: nat)
    requires lay.l2Size > 0 && k < |m.snaps|
    ensures var rs := Roots(lay, m);
            Roots(lay, WithoutSnapshot(m, rc', k)) == rs[..k + 1] + rs[k + 2..]
  {
  }

  lemma DeletedShape(lay: Layout, m: Image, role: Roles, rc': map<nat, nat>, k: nat)
    requires WellFormed(lay) && k < |m.snaps| && Shaped(lay, m, role)
    ensures Shaped(lay, WithoutSnapshot(m, rc', k), role)
  {
    var m' := WithoutSnapshot(m, rc', k);
    RootsWithout(lay, m, rc', k);
    var rs, rs' := Roots(lay, m), Roots(lay, m');
    forall a: nat | a <= |m'.snaps|
      ensures RootOK(lay, m'.host, role, rs'[a])
    {
      assert rs'[a] == if a <= k then rs[a] else rs[a + 1];
    }
  }

  lemma DeletedRefs(lay: Layout, m: Image, rc': map<nat, nat>, k: nat, c: nat)
    requires lay.l2Size > 0 && k < |m.snaps|
    ensures Refs(lay, WithoutSnapshot(m, rc', k), c) +
            RootRefs(m.host, SnapRoot(lay, m.host, m.snaps[k]), c, lay.l2Size)
         == Refs(lay, m, c)
  {
    RootsWithout(lay, m, rc', k);
    var rs := Roots(lay, m);
    assert rs[k + 1] == SnapRoot(lay, m.host, m.snaps[k]);
    RootsRefsRemove(m.host, rs, k + 1, |rs|, c, lay.l2Size);
  }

  /** Deleting a snapshot keeps the image sound and every other disk. */
  lemma DeleteStep(lay: Layout, m: Image, role: Roles, rc': map<nat, nat>, k: nat)
    requires WellFormed(lay) && k < |m.snaps| && Shaped(lay, m, role) && CountedButSnapshot(lay, m, k)
    requires Flagged(m.host, m.l1, m.refcounts)
    requires AreaTaken(rc', m.refcounts, m.snaps[k].l1Offset, Clusters(m.snaps[k].l1Size, lay.l2Size))
    ensures Sound(lay, WithoutSnapshot(m, rc', k), role)
  {
    DeletedShape(lay, m, role, rc', k);
    forall c: nat
      ensures Rc(rc', c) == Refs(lay, WithoutSnapshot(m, rc', k), c)
    {
      DeletedRefs(lay, m, rc', k, c);
    }
    DeletedFlags(lay, m, role, rc', m.snaps[k]);
  }

  lemma DeletedFlags(lay: Layout, m: Image, role: Roles, rc': map<nat, nat>, sn: Snapshot)
    requires WellFormed(lay) && Shaped(lay, m, role) && sn in m.snaps
    requires Flagged(m.host, m.l1, m.refcounts)
    requires AreaTaken(rc', m.refcounts, sn.l1Offset, Clusters(sn.l1Size, lay.l2Size))
    ensures Flagged(m.host, m.l1, rc')
  {
    ActiveRoot(lay, m, role);
    assert AreaOK(lay, m.host, role, sn.l1Offset, Clusters(sn.l1Size, lay.l2Size));
    forall c: nat | c != 0 && Lists(m.host, m.l1, c)
      ensures Rc(rc', c) == Rc(m.refcounts, c)
    {
      ListedRole(lay, m.host, role, Root(m.l1Offset, m.l1), c);
    }
    FlagsFramed(m.host, m.host, m.l1, m.refcounts, rc');
  }

  /** The image after the snapshot directory moved to `n` clusters at `off`. */
  function WithDirectory(m: Image, rc': map<nat, nat>, off: nat, n: nat): Image {
    m.(host := m.host + map c: nat | c in AreaSet(off, n) :: Directory(m.snaps),
       refcounts := rc', dirOffset := off, dirClusters := n)
  }

  /** Moving the snapshot directory keeps the image sound and every disk. */
  lemma DirectoryStep(lay: Layout, m: Image, role: Roles, rc': map<nat, nat>, off: nat, n: nat)
    requires WellFormed(lay) && Sound(lay, m, role)
    requires forall c: nat | InArea(off, n, c) :: Rc(m.refcounts, c) == 0
    requires forall c: nat ::
               Rc(rc', c) + AreaRefs(m.dirOffset, m.dirClusters, c) == Rc(m.refcounts, c) + AreaRefs(off, n, c)
    ensures var m' := WithDirectory(m, rc', off, n);
            && Sound(lay, m', Assigned(role, AreaSet(off, n), DirectoryArea))
            && SnapshotsKept(lay, m, m')
            && (forall s: nat :: GuestSector(lay, m'.host, m'.l1, s) == GuestSector(lay, m.host, m.l1, s))
            && (forall c: nat :: L1Refs(m'.host, m.l1, |m.l1|, c) == L1Refs(m.host, m.l1, |m.l1|, c))
  {
    hide Unused, GuestSector, RootOK, Quot, Inverts, EntryFlagged, RootsRefs, Private;
    var m' := WithDirectory(m, rc', off, n);
    var D := AreaSet(off, n);
    var role' := Assigned(role, D, DirectoryArea);
    forall c: nat | c in D
      ensures Unused(lay, m, c)
    {
      FreeIsUnused(lay, m, c);
    }
    var m1 := m.(host := m'.host);
    UnusedChange(lay, m, m1, role, role', D);
    MovedDirectory(lay, m1, m', role', off, n);
    DirectoryCounts(lay, m, m1, m', off, n);
    DirectoryFlags(lay, m, m'.host, role, rc', off, n);
  }

  lemma DirectoryCounts(lay: Layout, m: Image, m1: Image, m': Image, off: nat, n: nat)
    requires lay.l2Size > 0 && Counted(lay, m)
    requires forall c: nat ::
               Rc(m'.refcounts, c) + AreaRefs(m.dirOffset, m.dirClusters, c) == Rc(m.refcounts, c) + AreaRefs(off, n, c)
    requires forall c: nat :: Refs(lay, m1, c) == Refs(lay, m, c)
    requires forall c: nat ::
               Refs(lay, m', c) + AreaRefs(m.dirOffset, m.dirClusters, c) == Refs(lay, m1, c) + AreaRefs(off, n, c)
    ensures Counted(lay, m')
  {
    forall c: nat
      ensures Rc(m'.refcounts, c) == Refs(lay, m', c)
    {
      assert Refs(lay, m1, c) == Refs(lay, m, c);
    }
  }

  lemma DirectoryFlags(lay: Layout, m: Image, h': Host, role: Roles, rc': map<nat, nat>, off: nat, n: nat)
    requires WellFormed(lay) && Shaped(lay, m, role) && Flagged(m.host, m.l1, m.refcounts)
    requires forall c: nat | c in AreaSet(off, n) :: Unused(lay, m, c)
    requires forall c: nat ::
               Rc(rc', c) + AreaRefs(m.dirOffset, m.dirClusters, c) == Rc(m.refcounts, c) + AreaRefs(off, n, c)
    requires forall i: nat | i < |m.l1| && m.l1[i].cluster != 0 ::
               TableAt(h', m.l1[i].cluster) == TableAt(m.host, m.l1[i].cluster)
    ensures Flagged(h', m.l1, rc')
  {
    ActiveRoot(lay, m, role);
    forall c: nat | c != 0 && Lists(m.host, m.l1, c)
      ensures Rc(rc', c) == Rc(m.refcounts, c)
    {
      ListedRole(lay, m.host, role, Root(m.l1Offset, m.l1), c);
      if InArea(off, n, c) {
        assert c in AreaSet(off, n);
        UnusedPrivate(lay, m, c);
      }
    }
    FlagsFramed(m.host, h', m.l1, m.refcounts, rc');
  }

  lemma MovedDirectory(lay: Layout, m: Image, m': Image, role: Roles, off: nat, n: nat)
    requires WellFormed(lay) && Shaped(lay, m, role)
    requires m' == m.(refcounts := m'.refcounts, dirOffset := off, dirClusters := n)
    requires forall c: nat | InArea(off, n, c) :: c in role && role[c] == DirectoryArea
    ensures Shaped(lay, m', role)
    ensures forall c: nat ::
              Refs(lay, m', c) + AreaRefs(m.dirOffset, m.dirClusters, c) == Refs(lay, m, c) + AreaRefs(off, n, c)
  {
    assert Roots(lay, m') == Roots(lay, m);
  }

  // ---------------------------------------------------------------------------
  // One root uses a cluster at most once, so counts stay below the root count
  // ---------------------------------------------------------------------------

  lemma {:induction false} TableUsesOnce(lay: Layout, h: Host, role: Roles, i: nat, es: seq<Entry>, n: nat, c: nat)
    requires n <= |es| && forall j: nat | j < n :: DataOK(lay, h, role, i, j, es[j])
    ensures TableRefs(es, n, c) <= (if c in role && role[c].DataAt? && role[c].i == i && role[c].j < n then 1 else 0)
  {
    if n > 0 {
      TableUsesOnce(lay, h, role, i, es, n - 1, c);
      assert DataOK(lay, h, role, i, n - 1, es[n - 1]);
    }
  }

  predicate PlacedBelow(role: Roles, c: nat, n: nat) {
    c in role && ((role[c].L2At? && role[c].i < n) || (role[c].DataAt? && role[c].i < n))
  }

  lemma {:induction false} RootUsesOnce(lay: Layout, h: Host, role: Roles, t: seq<Entry>, n: nat, c: nat)
    requires n <= |t| && forall i: nat | i < |t| :: TableOK(lay, h, role, i, t[i])
    ensures L1Refs(h, t, n, c) <= (if PlacedBelow(role, c, n) then 1 else 0)
  {
    if n > 0 {
      RootUsesOnce(lay, h, role, t, n - 1, c);
      assert TableOK(lay, h, role, n - 1, t[n - 1]);
      if t[n - 1].cluster != 0 {
        TableUsesOnce(lay, h, role, n - 1, TableAt(h, t[n - 1].cluster), lay.l2Size, c);
      }
    }
  }

  lemma {:induction false} RootsUse(lay: Layout, h: Host, role: Roles, rs: seq<Root>, n: nat, c: nat)
    requires WellFormed(lay) && n <= |rs| && forall a: nat | a < |rs| :: RootOK(lay, h, role, rs[a])
    requires c in role && (role[c].L2At? || role[c].DataAt?)
    ensures RootsRefs(h, rs, n, c, lay.l2Size) <= n
  {
    if n > 0 {
      RootsUse(lay, h, role, rs, n - 1, c);
      var r := rs[n - 1];
      assert RootOK(lay, h, role, r);
      RootUsesOnce(lay, h, role, r.tab, |r.tab|, c);
    }
  }

  /** A cluster that the active root lists has at most one reference per root. */
  lemma ListedBound(lay: Layout, m: Image, role: Roles, c: nat)
    requires WellFormed(lay) && Shaped(lay, m, role)
    ensures L1Refs(m.host, m.l1, |m.l1|, c) <= 1
    ensures L1Refs(m.host, m.l1, |m.l1|, c) > 0 ==> Refs(lay, m, c) <= |m.snaps| + 1
  {
    ActiveRoot(lay, m, role);
    RootUsesOnce(lay, m.host, role, m.l1, |m.l1|, c);
    if PlacedBelow(role, c, |m.l1|) {
      RootsUse(lay, m.host, role, Roots(lay, m), |m.snaps| + 1, c);
    }
  }
}
