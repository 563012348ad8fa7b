/**
 * A pass over one root: what it does to the counts and flags of everything the
 * root refers to, entry by entry, and what it leaves alone.
 */
module QcowPass {
  import opened Division
  import opened QcowLayout
  import opened QcowSpec
  import opened QcowSteps
  import opened QcowSnapshots

  /** `x` references added, removed, or left alone. */
  function Scale(addend: int, x: nat): int {
    if addend == 1 then x else if addend == -1 then 0 - x as int else 0
  }

  /** What a count of 16 bits makes of a sum: additions that leave the range are refused one by one. */
  function Clamp(x: int): (n: nat)
    ensures n <= COUNT_LIMIT
  {
    if x < 0 then 0 else if x > COUNT_LIMIT then COUNT_LIMIT else x
  }

  lemma ClampTwice(a: nat, addend: int, x: nat, y: nat)
    requires a <= COUNT_LIMIT
    ensures Clamp(Clamp(a + Scale(addend, x)) + Scale(addend, y)) == Clamp(a + Scale(addend, x + y))
  {
  }

  ghost predicate Distinct(es: seq<Entry>) {
    forall x: nat, y: nat | x < y < |es| && es[x].cluster != 0 :: es[x].cluster != es[y].cluster
  }

  /** What a pass over a root does for one L1 entry. */
  ghost predicate EntryPassed(h: Host, h': Host, rc: map<nat, nat>, rc': map<nat, nat>, e: Entry, e': Entry,
                              addend: int) {
    && SamePointer(e, e')
    && AgreeOutside(h, h', if e.cluster == 0 then {} else {e.cluster})
    && (e.cluster != 0 ==>
          e.cluster in h' && h'[e.cluster].Table? && SamePointers(TableAt(h, e.cluster), TableAt(h', e.cluster)))
    && EntryFlagged(h', e', rc')
    && forall c: nat :: Rc(rc', c) == Clamp(Rc(rc, c) + Scale(addend, EntryRefs(h, e, c)))
  }

  /** What a pass over the root `t0` has done after `i` entries. */
  ghost predicate Passed(h0: Host, h: Host, role: Roles, t0: seq<Entry>, t: seq<Entry>, rc0: map<nat, nat>,
                         rc: map<nat, nat>, i: nat, addend: int) {
    && i <= |t0| && SamePointers(t0, t)
    && (forall x: nat | i <= x < |t0| :: t[x] == t0[x])
    && SameShape(h0, h)
    && (forall x: nat | i <= x < |t0| && t0[x].cluster != 0 :: TableAt(h, t0[x].cluster) == TableAt(h0, t0[x].cluster))
    && (forall c: nat | c in role && role[c].L1Area? && c in h0 :: h[c] == h0[c])
    && (forall x: nat | x < i :: EntryFlagged(h, t[x], rc))
    && forall c: nat :: Rc(rc, c) == Clamp(Rc(rc0, c) + Scale(addend, L1Refs(h0, t0, i, c)))
  }

  lemma EntryElsewhere(lay: Layout, h: Host, role: Roles, i: nat, e: Entry, c: nat)
    requires TableOK(lay, h, role, i, e)
    requires c in role && !(role[c].L2At? && role[c].i == i) && !(role[c].DataAt? && role[c].i == i)
    ensures EntryRefs(h, e, c) == 0
  {
    if e.cluster != 0 {
      TableUsesOnce(lay, h, role, i, TableAt(h, e.cluster), lay.l2Size, c);
    }
  }

  /** Entries dealt with earlier stay right. */
  lemma PassKeepsFlags(lay: Layout, h1: Host, h2: Host, role: Roles, x: nat, f: Entry, i: nat, e: Entry, e': Entry,
                       rc1: map<nat, nat>, rc2: map<nat, nat>, addend: int)
    requires x != i && TableOK(lay, h1, role, x, f) && TableOK(lay, h1, role, i, e)
    requires EntryFlagged(h1, f, rc1) && EntryPassed(h1, h2, rc1, rc2, e, e', addend) && SixteenBit(rc1)
    ensures EntryFlagged(h2, f, rc2)
  {
    if f.cluster != 0 {
      EntryElsewhere(lay, h1, role, i, e, f.cluster);
      forall j: nat | j < lay.l2Size
        ensures FlagOK(rc2, TableAt(h1, f.cluster)[j])
      {
        var d := TableAt(h1, f.cluster)[j];
        assert DataOK(lay, h1, role, x, j, d);
        assert FlagOK(rc1, d);
        if d.cluster != 0 {
          EntryElsewhere(lay, h1, role, i, e, d.cluster);
        }
      }
      assert f.cluster != e.cluster;
      assert TableAt(h2, f.cluster) == TableAt(h1, f.cluster);
    }
  }

  lemma PassShape(h0: Host, h1: Host, h2: Host, rc1: map<nat, nat>, rc2: map<nat, nat>, e: Entry, e': Entry,
                  addend: int)
    requires SameShape(h0, h1) && EntryPassed(h1, h2, rc1, rc2, e, e', addend)
    requires e.cluster != 0 ==>
               e.cluster in h1 && h1[e.cluster].Table? && TableAt(h1, e.cluster) == TableAt(h0, e.cluster)
    ensures SameShape(h0, h2)
  {
    forall c: nat | c in h0
      ensures c in h2 && SameContent(h0[c], h2[c])
    {
      assert SameContent(h0[c], h1[c]);
    }
    forall c: nat | c in h2
      ensures c in h0
    {
    }
    assert h0.Keys == h2.Keys;
  }

  lemma PassStep(lay: Layout, h0: Host, h1: Host, h2: Host, role: Roles, t0: seq<Entry>, t1: seq<Entry>,
                 rc0: map<nat, nat>, rc1: map<nat, nat>, rc2: map<nat, nat>, i: nat, e': Entry, addend: int)
    requires i < |t0| && Passed(h0, h1, role, t0, t1, rc0, rc1, i, addend) && SixteenBit(rc0)
    requires forall x: nat | x < |t0| :: TableOK(lay, h0, role, x, t0[x])
    requires EntryPassed(h1, h2, rc1, rc2, t0[i], e', addend)
    ensures Passed(h0, h2, role, t0, t1[i := e'], rc0, rc2, i + 1, addend)
  {
    hide EntryRefs, TableRefs, L1Refs, Clamp, Scale;
    var e := t0[i];
    assert SixteenBit(rc1);
    forall x: nat | x < |t0|
      ensures TableOK(lay, h1, role, x, t1[x])
    {
      assert SamePointer(t0[x], t1[x]);
      RetagEntry(lay, h0, h1, role, x, t0[x], t1[x]);
    }
    assert TableOK(lay, h1, role, i, e);
    PassShape(h0, h1, h2, rc1, rc2, e, e', addend);
    forall x: nat | x < i
      ensures EntryFlagged(h2, t1[x], rc2)
    {
      PassKeepsFlags(lay, h1, h2, role, x, t1[x], i, e, e', rc1, rc2, addend);
    }
    forall x: nat | i < x < |t0| && t0[x].cluster != 0
      ensures TableAt(h2, t0[x].cluster) == TableAt(h0, t0[x].cluster)
    {
      assert TableOK(lay, h1, role, x, t1[x]);
    }
    var n, t := i + 1, t1[i := e'];
    forall c: nat
      ensures Rc(rc2, c) == Clamp(Rc(rc0, c) + Scale(addend, L1Refs(h0, t0, n, c)))
    {
      EntrySameTable(h0, h1, e, c);
      L1RefsNext(h0, t0, i, c);
      ClampTwice(Rc(rc0, c), addend, L1Refs(h0, t0, i, c), EntryRefs(h0, e, c));
    }
    forall c: nat | c in role && role[c].L1Area? && c in h0
      ensures c in h2 && h2[c] == h0[c]
    {
      assert c in h1 && h1[c] == h0[c];
    }
    assert forall x: nat | x < n :: EntryFlagged(h2, t[x], rc2);
    assert SamePointers(t0, t);
  }

  lemma L1RefsNext(h: Host, t: seq<Entry>, i: nat, c: nat)
    requires i < |t|
    ensures L1Refs(h, t, i + 1, c) == L1Refs(h, t, i, c) + EntryRefs(h, t[i], c)
  {
  }

  lemma EntrySameTable(h0: Host, h1: Host, e: Entry, c: nat)
    requires e.cluster != 0 ==> TableAt(h1, e.cluster) == TableAt(h0, e.cluster)
    ensures EntryRefs(h1, e, c) == EntryRefs(h0, e, c)
  {
  }

  lemma SameShapeTrans(a: Host, b: Host, c: Host)
    requires SameShape(a, b) && SameShape(b, c)
    ensures SameShape(a, c)
  {
    forall x: nat | x in a
      ensures SameContent(a[x], c[x])
    {
      assert SameContent(a[x], b[x]) && SameContent(b[x], c[x]);
      if a[x].Table? {
        forall i: nat | i < |a[x].entries|
          ensures SamePointer(a[x].entries[i], c[x].entries[i])
        {
          assert SamePointer(a[x].entries[i], b[x].entries[i]) && SamePointer(b[x].entries[i], c[x].entries[i]);
        }
      }
    }
  }

  lemma RootEntries(lay: Layout, h: Host, role: Roles, r: Root)
    requires lay.l2Size > 0 && RootOK(lay, h, role, r)
    ensures |r.tab| > 0 && forall x: nat | x < |r.tab| :: TableOK(lay, h, role, x, r.tab[x])
  {
  }

  lemma PassCounts(h0: Host, h1: Host, role: Roles, t0: seq<Entry>, t: seq<Entry>, rc0: map<nat, nat>,
                   rc1: map<nat, nat>, addend: int)
    requires Passed(h0, h1, role, t0, t, rc0, rc1, |t0|, addend)
    ensures SamePointers(t0, t)
    ensures forall c: nat :: Rc(rc1, c) == Clamp(Rc(rc0, c) + Scale(addend, L1Refs(h0, t0, |t0|, c)))
  {
  }

  /** A pass leaves stored L1 tables alone. */
  lemma PassReads(lay: Layout, h0: Host, h1: Host, role: Roles, r: Root, t0: seq<Entry>, t: seq<Entry>,
                  rc0: map<nat, nat>, rc1: map<nat, nat>, addend: int)
    requires WellFormed(lay) && RootOK(lay, h0, role, r)
    requires Passed(h0, h1, role, t0, t, rc0, rc1, |t0|, addend)
    ensures ReadRun(h1, r.off, |r.tab|, lay.l2Size) == ReadRun(h0, r.off, |r.tab|, lay.l2Size)
    ensures forall c: nat | InArea(r.off, Clusters(|r.tab|, lay.l2Size), c) :: IsTable(h1, c, lay.l2Size)
  {
    forall c: nat | InArea(r.off, Clusters(|r.tab|, lay.l2Size), c)
      ensures TableAt(h0, c) == TableAt(h1, c) && IsTable(h1, c, lay.l2Size)
    {
      assert h1[c] == h0[c];
      assert c in h1;
    }
    ReadFramed(h0, h1, r.off, |r.tab|, lay.l2Size);
  }

  /** Writing the renewed L1 table back. */
  lemma PassStored(lay: Layout, h0: Host, h1: Host, h2: Host, role: Roles, r: Root, t: seq<Entry>, rc0: map<nat, nat>,
                   rc1: map<nat, nat>, addend: int)
    requires WellFormed(lay) && RootOK(lay, h0, role, r) && ReadRun(h0, r.off, |r.tab|, lay.l2Size) == r.tab
    requires Passed(h0, h1, role, r.tab, t, rc0, rc1, |r.tab|, addend)
    requires h2 == if t != r.tab then WriteRun(h1, r.off, t, lay.l2Size) else h1
    ensures SameShape(h0, h2) && ReadRun(h2, r.off, |t|, lay.l2Size) == t
    ensures AgreeOutside(h1, h2, AreaSet(r.off, Clusters(|r.tab|, lay.l2Size)))
    ensures Flagged(h2, t, rc1)
  {
    hide L1Refs, DataOK;
    PassReads(lay, h0, h1, role, r, r.tab, t, rc0, rc1, addend);
    if t != r.tab {
      WriteRunSame(h1, r.off, t, lay.l2Size);
      SameShapeTrans(h0, h1, h2);
      ReadWritten(h1, r.off, t, lay.l2Size);
    }
    forall x: nat | x < |t|
      ensures EntryFlagged(h2, t[x], rc1)
    {
      assert EntryFlagged(h1, t[x], rc1) && SamePointer(r.tab[x], t[x]);
      assert TableOK(lay, h0, role, x, r.tab[x]);
      if t[x].cluster in AreaSet(r.off, Clusters(|r.tab|, lay.l2Size)) {
        assert role[t[x].cluster] == L1Area(r.off);
      }
      assert t[x].cluster != 0 ==> TableAt(h2, t[x].cluster) == TableAt(h1, t[x].cluster);
    }
  }
}
