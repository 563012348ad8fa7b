/**
 * Counts that reach the end of their 16 bits.  Next to the stored counts stand the
 * counts that unlimited numbers would have given; the two agree as long as these
 * fit, and an image is sound exactly when they do.
 */
module QcowLimits {
  import opened Division
  import opened QcowLayout
  import opened QcowSpec
  import opened QcowSteps
  import opened QcowSnapshots
  import opened QcowFlat
  import opened QcowPass
  import opened QcowView

  /** `rc` is what 16 bits hold of the counts `v`. */
  ghost predicate Clamped(rc: map<nat, nat>, v: map<nat, nat>) {
    forall c: nat :: Rc(rc, c) == Clamp(Rc(v, c))
  }

  lemma ClampedFlags(h: Host, t: seq<Entry>, rc: map<nat, nat>, v: map<nat, nat>)
    requires Clamped(rc, v)
    ensures Flagged(h, t, rc) <==> Flagged(h, t, v)
  {
    forall i: nat | i < |t|
      ensures EntryFlagged(h, t[i], rc) <==> EntryFlagged(h, t[i], v)
    {
      forall e: Entry
        ensures FlagOK(rc, e) <==> FlagOK(v, e)
      {
      }
    }
  }

  lemma SameRoots(lay: Layout, m: Image, v: map<nat, nat>, role: Roles)
    requires lay.l2Size > 0
    ensures Shaped(lay, m.(refcounts := v), role) <==> Shaped(lay, m, role)
    ensures forall c: nat :: Refs(lay, m.(refcounts := v), c) == Refs(lay, m, c)
  {
    hide RootOK;
    assert Roots(lay, m.(refcounts := v)) == Roots(lay, m);
  }

  /** With the counts cut off, an image is sound exactly when no count was. */
  lemma ClampedSound(lay: Layout, m: Image, v: map<nat, nat>, role: Roles)
    requires lay.l2Size > 0 && Clamped(m.refcounts, v) && Sound(lay, m.(refcounts := v), role)
    ensures Sound(lay, m, role) <==> SixteenBit(v)
    ensures Counted(lay, m) <==> SixteenBit(v)
    ensures SixteenBit(m.refcounts)
  {
    hide Shaped, Refs, Flagged;
    SameRoots(lay, m, v, role);
    ClampedFlags(m.host, m.l1, m.refcounts, v);
    if c: nat :| Rc(v, c) > COUNT_LIMIT {
      assert Rc(v, c) == Refs(lay, m.(refcounts := v), c);
      assert Rc(m.refcounts, c) != Refs(lay, m, c);
    }
  }

  lemma SameFlat(lay: Layout, m: Image, v: map<nat, nat>)
    requires lay.l2Size > 0 && lay.clusterSectors > 0
    ensures FlatOf(lay, m.(refcounts := v)) == FlatOf(lay, m)
  {
    hide DiskOf;
  }

  // ---- areas come and go --------------------------------------------------------

  ghost function Plus(v: map<nat, nat>, off: nat, n: nat): map<nat, nat> {
    map c: nat | c in v.Keys + AreaSet(off, n) :: Rc(v, c) + AreaRefs(off, n, c)
  }

  lemma PlusClamped(rc: map<nat, nat>, rc': map<nat, nat>, v: map<nat, nat>, off: nat, n: nat)
    requires Clamped(rc, v) && AreaTaken(rc, rc', off, n) && forall c: nat | InArea(off, n, c) :: Rc(rc, c) == 0
    ensures Clamped(rc', Plus(v, off, n)) && AreaTaken(v, Plus(v, off, n), off, n)
    ensures SixteenBit(v) <==> SixteenBit(Plus(v, off, n))
    ensures forall c: nat | InArea(off, n, c) :: Rc(v, c) == 0
  {
    var v' := Plus(v, off, n);
    forall c: nat
      ensures Rc(v', c) == Rc(v, c) + AreaRefs(off, n, c)
      ensures InArea(off, n, c) ==> Rc(v, c) == 0
    {
      assert InArea(off, n, c) <==> c in AreaSet(off, n);
    }
  }

  ghost function Minus(v: map<nat, nat>, off: nat, n: nat): map<nat, nat> {
    map c: nat | c in v :: if AreaRefs(off, n, c) <= v[c] then v[c] - AreaRefs(off, n, c) else 0
  }

  lemma MinusClamped(rc: map<nat, nat>, rc': map<nat, nat>, v: map<nat, nat>, off: nat, n: nat)
    requires Clamped(rc, v) && AreaTaken(rc', rc, off, n) && forall c: nat | InArea(off, n, c) :: Rc(v, c) == 1
    ensures Clamped(rc', Minus(v, off, n)) && AreaTaken(Minus(v, off, n), v, off, n)
    ensures SixteenBit(v) <==> SixteenBit(Minus(v, off, n))
  {
    var v' := Minus(v, off, n);
    forall c: nat
      ensures Rc(v, c) == Rc(v', c) + AreaRefs(off, n, c)
    {
    }
  }

  // ---- the directory is referred to once ------------------------------------------

  lemma {:induction false} RootsMiss(lay: Layout, h: Host, role: Roles, rs: seq<Root>, n: nat, c: nat)
    requires WellFormed(lay) && n <= |rs| && forall a: nat | a < |rs| :: RootOK(lay, h, role, rs[a])
    requires c in role && role[c].DirectoryArea?
    ensures RootsRefs(h, rs, n, c, lay.l2Size) == 0
  {
    if n > 0 {
      RootsMiss(lay, h, role, rs, n - 1, c);
      var r := rs[n - 1];
      assert RootOK(lay, h, role, r);
      RootUsesOnce(lay, h, role, r.tab, |r.tab|, c);
    }
  }

  lemma DirectoryOnce(lay: Layout, m: Image, role: Roles, c: nat)
    requires WellFormed(lay) && Shaped(lay, m, role) && InArea(m.dirOffset, m.dirClusters, c)
    ensures Refs(lay, m, c) == 1
  {
    RootsMiss(lay, m.host, role, Roots(lay, m), |m.snaps| + 1, c);
  }

  /** What the active root lists is referred to, and is no part of the directory. */
  lemma ListedCounted(lay: Layout, m: Image, role: Roles, c: nat)
    requires WellFormed(lay) && Shaped(lay, m, role) && L1Refs(m.host, m.l1, |m.l1|, c) > 0
    ensures Refs(lay, m, c) > 0 && !InArea(m.dirOffset, m.dirClusters, c)
  {
    var rs := Roots(lay, m);
    assert rs[0] == Root(m.l1Offset, m.l1);
    ActiveRoot(lay, m, role);
    RootsRefsAtLeast(m.host, rs, 0, |rs|, c, lay.l2Size);
    RootUsesOnce(lay, m.host, role, m.l1, |m.l1|, c);
  }

  // ---- counts of what the active root lists -----------------------------------------

  function ActiveUse(m: Image, c: nat): nat {
    L1Refs(m.host, m.l1, |m.l1|, c)
  }

  /** What the active root lists stays listed, and its counts stay. */
  ghost predicate ListedKept(m: Image, m': Image) {
    forall c: nat | ActiveUse(m, c) > 0 ::
      ActiveUse(m', c) == ActiveUse(m, c) && Rc(m'.refcounts, c) == Rc(m.refcounts, c)
  }

  /** What the active root lists stays listed, and is counted once more as far as 16 bits go. */
  ghost predicate ListedAgain(m: Image, m': Image) {
    forall c: nat | ActiveUse(m, c) > 0 ::
      && ActiveUse(m', c) == ActiveUse(m, c)
      && Rc(m'.refcounts, c) == Clamp(Rc(m.refcounts, c) + ActiveUse(m, c))
  }

  /** The counts with the active root counted once more, in unlimited numbers. */
  ghost function Raised(m: Image, role: Roles): map<nat, nat> {
    map c: nat | c in m.refcounts.Keys + role.Keys :: Rc(m.refcounts, c) + ActiveUse(m, c)
  }

  lemma RaisedCounts(lay: Layout, m: Image, role: Roles)
    requires WellFormed(lay) && Shaped(lay, m, role)
    ensures forall c: nat :: Rc(Raised(m, role), c) == Rc(m.refcounts, c) + ActiveUse(m, c)
  {
    ActiveRoot(lay, m, role);
    forall c: nat
      ensures Rc(Raised(m, role), c) == Rc(m.refcounts, c) + ActiveUse(m, c)
    {
      RootUsesOnce(lay, m.host, role, m.l1, |m.l1|, c);
    }
  }

  lemma AgainThenKept(m: Image, m1: Image, m2: Image)
    requires ListedAgain(m, m1) && ListedKept(m1, m2)
    ensures ListedAgain(m, m2)
  {
    hide ActiveUse, Clamp;
  }

  // ---- counts of what a snapshot lists ------------------------------------------------

  function SnapshotUse(lay: Layout, m: Image, k: nat, c: nat): nat
    requires lay.l2Size > 0 && k < |m.snaps|
  {
    var t := SnapRoot(lay, m.host, m.snaps[k]).tab;
    L1Refs(m.host, t, |t|, c)
  }

  /** With the active root left out of the counts, the root of snapshot `k` can be counted once more. */
  ghost predicate JoinRoom(lay: Layout, m: Image, k: nat)
    requires lay.l2Size > 0 && k < |m.snaps|
  {
    forall c: nat :: Rc(m.refcounts, c) + SnapshotUse(lay, m, k, c) <= COUNT_LIMIT
  }

  /** The active root can be replaced by that of snapshot `k` in the counts. */
  ghost predicate SwapRoom(lay: Layout, m: Image, k: nat)
    requires lay.l2Size > 0 && k < |m.snaps|
  {
    forall c: nat :: Rc(m.refcounts, c) - ActiveUse(m, c) + SnapshotUse(lay, m, k, c) <= COUNT_LIMIT
  }

  ghost predicate ActiveRoom(m: Image) {
    forall c: nat :: Rc(m.refcounts, c) + ActiveUse(m, c) <= COUNT_LIMIT
  }

  /** Leaving the active root out of the counts. */
  lemma LeftRoom(lay: Layout, m: Image, m1: Image, role: Roles, k: nat)
    requires WellFormed(lay) && Shaped(lay, m, role) && Retag(lay, m, m1) && k < |m.snaps|
    requires forall c: nat :: Rc(m1.refcounts, c) == Rc(m.refcounts, c) - ActiveUse(m, c)
    ensures JoinRoom(lay, m1, k) <==> SwapRoom(lay, m, k)
  {
    hide L1Refs, Shaped, ActiveUse, RootRefs;
    RetagAt(lay, m, m1, role, k + 1);
    assert Roots(lay, m)[k + 1] == SnapRoot(lay, m.host, m.snaps[k]);
    assert Roots(lay, m1)[k + 1] == SnapRoot(lay, m1.host, m1.snaps[k]);
    assert forall c: nat :: SnapshotUse(lay, m1, k, c) == SnapshotUse(lay, m, k, c);
  }

  /** What snapshot `k` lists is no part of an L1 area. */
  lemma ListedApart(lay: Layout, m: Image, role: Roles, k: nat, c: nat)
    requires WellFormed(lay) && Shaped(lay, m, role) && k < |m.snaps| && SnapshotUse(lay, m, k, c) > 0
    ensures c in role && (role[c].L2At? || role[c].DataAt?)
    ensures !InArea(m.l1Offset, Clusters(|m.l1|, lay.l2Size), c)
    ensures !Private(lay, m, c)
  {
    ActiveRoot(lay, m, role);
    var r := SnapRoot(lay, m.host, m.snaps[k]);
    assert Roots(lay, m)[k + 1] == r;
    RootUsesOnce(lay, m.host, role, r.tab, |r.tab|, c);
    if Private(lay, m, c) {
      UsedListed(m.host, r.tab, |r.tab|, c);
    }
  }

  lemma {:induction false} UsedListed(h: Host, t: seq<Entry>, n: nat, c: nat)
    requires n <= |t| && L1Refs(h, t, n, c) > 0
    ensures Lists(h, t, c)
  {
    if L1Refs(h, t, n - 1, c) > 0 {
      UsedListed(h, t, n - 1, c);
    } else {
      var e := t[n - 1];
      assert EntryRefs(h, e, c) > 0;
      if Hit(e, c) == 0 {
        TableHit(TableAt(h, e.cluster), |TableAt(h, e.cluster)|, c);
      }
      assert ListedBy(h, e, c);
    }
  }

  lemma {:induction false} TableHit(es: seq<Entry>, n: nat, c: nat)
    requires n <= |es| && TableRefs(es, n, c) > 0
    ensures exists j: nat :: j < |es| && es[j].cluster == c && c != 0
  {
    if TableRefs(es, n - 1, c) > 0 {
      TableHit(es, n - 1, c);
    } else {
      assert Hit(es[n - 1], c) > 0;
    }
  }

  lemma AdoptedCount(lay: Layout, m: Image, m': Image, role: Roles, k: nat, off: nat, n: nat, c: nat)
    requires WellFormed(lay) && Shaped(lay, m, role) && CountedWithout(lay, m) && WentTo(lay, m, m', k, off, n)
    requires RootRefs(m'.host, Roots(lay, m')[k + 1], c, lay.l2Size) ==
             RootRefs(m.host, Roots(lay, m)[k + 1], c, lay.l2Size)
    requires Roots(lay, m')[k + 1] == Roots(lay, m)[k + 1]
    ensures ActiveUse(m', c) == SnapshotUse(lay, m, k, c)
    ensures SnapshotUse(lay, m, k, c) > 0 ==> Rc(m'.refcounts, c) == Rc(m.refcounts, c)
  {
    hide L1Refs, Shaped, Private, AgreeOutside;
    assert Roots(lay, m)[k + 1] == SnapRoot(lay, m.host, m.snaps[k]);
    if SnapshotUse(lay, m, k, c) > 0 {
      ListedApart(lay, m, role, k, c);
      assert c !in AreaSet(off, n);
      assert Rc(m.refcounts, c) + ActiveUse(m, c) == Refs(lay, m, c);
    }
  }

  /** The snapshot's root in place of the active one, still left out of the counts. */
  lemma AdoptedRoom(lay: Layout, m: Image, m': Image, role: Roles, k: nat, off: nat, n: nat)
    requires WellFormed(lay) && Shaped(lay, m, role) && CountedWithout(lay, m) && WentTo(lay, m, m', k, off, n)
    requires SixteenBit(m.refcounts) && SixteenBit(m'.refcounts)
    ensures JoinRoom(lay, m, k) <==> ActiveRoom(m')
  {
    hide Shaped, CountedWithout, ActiveUse, SnapshotUse, RootRefs;
    WentToRoots(lay, m, m', role, k, off, n);
    forall c: nat
      ensures Rc(m.refcounts, c) + SnapshotUse(lay, m, k, c) <= COUNT_LIMIT <==>
              Rc(m'.refcounts, c) + ActiveUse(m', c) <= COUNT_LIMIT
    {
      AdoptedCount(lay, m, m', role, k, off, n, c);
    }
  }

  /** Of what snapshot `k` lists, the roots other than the active one have at most one reference each. */
  lemma SnapshotBound(lay: Layout, m: Image, role: Roles, k: nat, c: nat)
    requires WellFormed(lay) && Shaped(lay, m, role) && k < |m.snaps|
    ensures SnapshotUse(lay, m, k, c) <= 1
    ensures SnapshotUse(lay, m, k, c) > 0 ==> Refs(lay, m, c) - ActiveUse(m, c) <= |m.snaps|
  {
    var rs, r := Roots(lay, m), SnapRoot(lay, m.host, m.snaps[k]);
    assert rs[k + 1] == r && rs[0] == Root(m.l1Offset, m.l1);
    RootUsesOnce(lay, m.host, role, r.tab, |r.tab|, c);
    if SnapshotUse(lay, m, k, c) > 0 {
      ListedApart(lay, m, role, k, c);
      SnapshotsUse(lay, m.host, role, rs, |rs|, c);
    }
  }

  lemma {:induction false} SnapshotsUse(lay: Layout, h: Host, role: Roles, rs: seq<Root>, n: nat, c: nat)
    requires WellFormed(lay) && 0 < n <= |rs| && forall a: nat | a < |rs| :: RootOK(lay, h, role, rs[a])
    requires c in role && (role[c].L2At? || role[c].DataAt?)
    ensures RootsRefs(h, rs, n, c, lay.l2Size) <= L1Refs(h, rs[0].tab, |rs[0].tab|, c) + n - 1
  {
    var r := rs[n - 1];
    assert RootOK(lay, h, role, r);
    if n > 1 {
      SnapshotsUse(lay, h, role, rs, n - 1, c);
      RootUsesOnce(lay, h, role, r.tab, |r.tab|, c);
    } else {
      assert RootsRefs(h, rs, 0, c, lay.l2Size) == 0;
    }
  }
}
