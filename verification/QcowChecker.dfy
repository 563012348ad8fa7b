/**
 * The image checker: it counts references root by root into a table of 16-bit
 * counters, compares the table with the stored counts, and compares the COPIED
 * flags of the active root with the stored counts.
 */
module QcowChecker {
  import opened Division
  import opened QcowLayout
  import opened QcowSpec

  const COUNTER_RANGE: nat := 0x10000

  /** All counted clusters are inside the file, and no counter wraps around. */
  ghost predicate Fine(refs: nat -> nat, clusters: nat) {
    forall c: nat :: refs(c) > 0 ==> c < clusters && refs(c) < COUNTER_RANGE
  }

  /** As long as nothing went wrong `counts` holds `refs`; `fine` says whether anything did. */
  ghost predicate Tallied(counts: array<nat>, refs: nat -> nat, fine: bool)
    reads counts
  {
    && (fine <==> Fine(refs, counts.Length))
    && (fine ==> forall k: nat | k < counts.Length :: counts[k] == refs(k))
  }

  /** Count cluster `c` once more. */
  method Increment(counts: array<nat>, c: nat, fine: bool, ghost refs: nat -> nat)
      returns (fine': bool, ghost refs': nat -> nat)
    requires Tallied(counts, refs, fine)
    modifies counts
    ensures Tallied(counts, refs', fine')
    ensures forall x: nat :: refs'(x) == refs(x) + (if x == c then 1 else 0)
  {
    refs' := (x: nat) => refs(x) + (if x == c then 1 else 0);
    if c >= counts.Length {
      fine' := false;
      assert refs'(c) > 0;
    } else {
      counts[c] := (counts[c] + 1) % COUNTER_RANGE;
      fine' := fine && counts[c] != 0;
      FineStep(refs, refs', c, counts.Length);
    }
  }

  lemma FineStep(before: nat -> nat, after: nat -> nat, c: nat, clusters: nat)
    requires c < clusters && forall x: nat :: after(x) == before(x) + (if x == c then 1 else 0)
    ensures Fine(after, clusters) <==> Fine(before, clusters) && after(c) < COUNTER_RANGE
  {
    if Fine(after, clusters) {
      forall x: nat | before(x) > 0
        ensures x < clusters && before(x) < COUNTER_RANGE
      {
        assert after(x) > 0;
      }
    }
    if Fine(before, clusters) && after(c) < COUNTER_RANGE {
      forall x: nat | after(x) > 0
        ensures x < clusters && after(x) < COUNTER_RANGE
      {
        assert x != c ==> before(x) > 0;
      }
    }
  }

  /** Count the `n` clusters from `off` on. */
  method IncRefcounts(counts: array<nat>, off: nat, n: nat, fine: bool, ghost refs: nat -> nat)
      returns (fine': bool, ghost refs': nat -> nat)
    requires Tallied(counts, refs, fine)
    modifies counts
    ensures Tallied(counts, refs', fine')
    ensures forall x: nat :: refs'(x) == refs(x) + AreaRefs(off, n, x)
  {
    hide Tallied;
    fine', refs' := fine, refs;
    var k := 0;
    while k < n
      invariant k <= n
      invariant Tallied(counts, refs', fine')
      invariant forall x: nat :: refs'(x) == refs(x) + AreaRefs(off, k, x)
    {
      fine', refs' := Increment(counts, off + k, fine', refs');
      k := k + 1;
    }
  }

  /** The flag of an allocated entry, against the stored count. */
  method CheckCopied(rc: map<nat, nat>, e: Entry) returns (ok: bool)
    requires e.cluster != 0
    ensures ok <==> FlagOK(rc, e)
  {
    ok := (Rc(rc, e.cluster) == 1) == e.copied;
  }

  /** Count what the L2 table `es` lists, and check its flags if asked to. */
  method CheckTable(counts: array<nat>, rc: map<nat, nat>, es: seq<Entry>, copied: bool,
                    fine: bool, ghost refs: nat -> nat)
      returns (fine': bool, flags: bool, ghost refs': nat -> nat)
    requires Tallied(counts, refs, fine)
    modifies counts
    ensures Tallied(counts, refs', fine')
    ensures flags <==> copied ==> forall j: nat | j < |es| :: FlagOK(rc, es[j])
    ensures forall x: nat :: refs'(x) == refs(x) + TableRefs(es, |es|, x)
  {
    hide Tallied;
    fine', flags, refs' := fine, true, refs;
    var j := 0;
    while j < |es|
      invariant j <= |es|
      invariant Tallied(counts, refs', fine')
      invariant flags <==> copied ==> forall k: nat | k < j :: FlagOK(rc, es[k])
      invariant forall x: nat :: refs'(x) == refs(x) + TableRefs(es, j, x)
    {
      if es[j].cluster != 0 {
        if copied {
          var ok := CheckCopied(rc, es[j]);
          flags := flags && ok;
        }
        fine', refs' := IncRefcounts(counts, es[j].cluster, 1, fine', refs');
      }
      j := j + 1;
    }
  }

  /** Count one L1 entry: what its table lists, then the table. */
  method CheckEntry(counts: array<nat>, rc: map<nat, nat>, h: Host, e: Entry, copied: bool,
                    fine: bool, ghost refs: nat -> nat)
      returns (fine': bool, flags: bool, ghost refs': nat -> nat)
    requires Tallied(counts, refs, fine)
    modifies counts
    ensures Tallied(counts, refs', fine')
    ensures flags <==> copied ==> EntryFlagged(h, e, rc)
    ensures forall x: nat :: refs'(x) == refs(x) + EntryRefs(h, e, x)
  {
    hide Tallied;
    fine', flags, refs' := fine, true, refs;
    if e.cluster != 0 {
      var ok := true;
      if copied {
        ok := CheckCopied(rc, e);
      }
      fine', flags, refs' := CheckTable(counts, rc, TableAt(h, e.cluster), copied, fine', refs');
      flags := flags && ok;
      fine', refs' := IncRefcounts(counts, e.cluster, 1, fine', refs');
    }
  }

  /** Count one root: its L1 area, then entry by entry. */
  method CheckL1(counts: array<nat>, rc: map<nat, nat>, h: Host, r: Root, l: nat, copied: bool,
                 fine: bool, ghost refs: nat -> nat)
      returns (fine': bool, flags: bool, ghost refs': nat -> nat)
    requires l > 0 && Tallied(counts, refs, fine)
    modifies counts
    ensures Tallied(counts, refs', fine')
    ensures flags <==> copied ==> Flagged(h, r.tab, rc)
    ensures forall x: nat :: refs'(x) == refs(x) + RootRefs(h, r, x, l)
  {
    hide EntryFlagged, EntryRefs, Tallied;
    var n := Clusters(|r.tab|, l);
    fine', refs' := IncRefcounts(counts, r.off, n, fine, refs);
    flags := true;
    var i := 0;
    while i < |r.tab|
      invariant i <= |r.tab|
      invariant Tallied(counts, refs', fine')
      invariant flags <==> copied ==> forall k: nat | k < i :: EntryFlagged(h, r.tab[k], rc)
      invariant forall x: nat :: refs'(x) == refs(x) + AreaRefs(r.off, n, x) + L1Refs(h, r.tab, i, x)
    {
      var ok;
      fine', ok, refs' := CheckEntry(counts, rc, h, r.tab[i], copied, fine', refs');
      flags := flags && ok;
      i := i + 1;
    }
  }

  /** The image as the checker sees it: tables from the file, and no notion of lost clusters. */
  function OnDisk(lay: Layout, m: Image): Image
    requires lay.l2Size > 0
  {
    m.(reserved := lay.meta, l1 := ReadRun(m.host, m.l1Offset, |m.l1|, lay.l2Size))
  }

  /** The verdict, said without the counting. */
  ghost predicate Clean(lay: Layout, m: Image, clusters: nat)
    requires lay.l2Size > 0
  {
    var d := OnDisk(lay, m);
    && (forall c: nat :: Refs(lay, d, c) > 0 ==> c < clusters && Refs(lay, d, c) < COUNTER_RANGE)
    && (forall c: nat | c < clusters :: Rc(m.refcounts, c) == Refs(lay, d, c))
    && Flagged(m.host, d.l1, m.refcounts)
  }

  /** Count all roots. */
  method CheckRoots(counts: array<nat>, lay: Layout, m: Image, rs: seq<Root>, fine: bool, ghost refs: nat -> nat)
      returns (fine': bool, flags: bool, ghost refs': nat -> nat)
    requires lay.l2Size > 0 && |rs| > 0 && Tallied(counts, refs, fine)
    modifies counts
    ensures Tallied(counts, refs', fine')
    ensures flags <==> Flagged(m.host, rs[0].tab, m.refcounts)
    ensures forall x: nat :: refs'(x) == refs(x) + RootsRefs(m.host, rs, |rs|, x, lay.l2Size)
  {
    hide Flagged, RootRefs, Tallied;
    fine', flags, refs' := CheckL1(counts, m.refcounts, m.host, rs[0], lay.l2Size, true, fine, refs);
    var a := 1;
    while a < |rs|
      invariant a <= |rs|
      invariant Tallied(counts, refs', fine')
      invariant forall x: nat :: refs'(x) == refs(x) + RootsRefs(m.host, rs, a, x, lay.l2Size)
    {
      var ok;
      fine', ok, refs' := CheckL1(counts, m.refcounts, m.host, rs[a], lay.l2Size, false, fine', refs');
      a := a + 1;
    }
  }

  /** Count the clusters of a set, each once. */
  method CheckSet(counts: array<nat>, s: set<nat>, fine: bool, ghost refs: nat -> nat)
      returns (fine': bool, ghost refs': nat -> nat)
    requires Tallied(counts, refs, fine)
    modifies counts
    ensures Tallied(counts, refs', fine')
    ensures forall x: nat :: refs'(x) == refs(x) + (if x in s then 1 else 0)
  {
    hide Tallied;
    fine', refs' := fine, refs;
    var rest := s;
    while rest != {}
      invariant rest <= s
      invariant Tallied(counts, refs', fine')
      invariant forall x: nat :: refs'(x) == refs(x) + (if x in s - rest then 1 else 0)
      decreases rest
    {
      var c :| c in rest;
      fine', refs' := IncRefcounts(counts, c, 1, fine', refs');
      rest := rest - {c};
    }
  }

  /** The comparison at the end. */
  method CompareCounts(counts: array<nat>, rc: map<nat, nat>) returns (ok: bool)
    ensures ok <==> forall k: nat | k < counts.Length :: Rc(rc, k) == counts[k]
  {
    ok := true;
    var k := 0;
    while k < counts.Length
      invariant k <= counts.Length
      invariant ok <==> forall i: nat | i < k :: Rc(rc, i) == counts[i]
    {
      ok := ok && Rc(rc, k) == counts[k];
      k := k + 1;
    }
  }

  lemma CleanTally(lay: Layout, m: Image, counts: seq<nat>, refs: nat -> nat, fine: bool, flags: bool, same: bool)
    requires lay.l2Size > 0 && forall c: nat :: refs(c) == Refs(lay, OnDisk(lay, m), c)
    requires fine <==> Fine(refs, |counts|)
    requires fine ==> forall k: nat | k < |counts| :: counts[k] == refs(k)
    requires flags <==> Flagged(m.host, OnDisk(lay, m).l1, m.refcounts)
    requires same <==> forall k: nat | k < |counts| :: Rc(m.refcounts, k) == counts[k]
    ensures fine && flags && same <==> Clean(lay, m, |counts|)
  {
    hide Flagged, Refs, OnDisk;
    var d := OnDisk(lay, m);
    assert Fine(refs, |counts|) <==>
      forall c: nat :: Refs(lay, d, c) > 0 ==> c < |counts| && Refs(lay, d, c) < COUNTER_RANGE;
  }

  /** The references, in the order in which the checker counts them. */
  lemma CountingOrder(lay: Layout, d: Image, c: nat)
    requires lay.l2Size > 0 && d.reserved == lay.meta && 0 in lay.meta
    ensures Refs(lay, d, c) ==
            AreaRefs(0, 1, c) + RootsRefs(d.host, Roots(lay, d), |Roots(lay, d)|, c, lay.l2Size)
            + AreaRefs(d.dirOffset, d.dirClusters, c) + (if c in lay.meta - {0} then 1 else 0)
  {
    hide RootsRefs;
  }

  /** Count everything in `d`. */
  method CountAll(counts: array<nat>, lay: Layout, d: Image)
      returns (fine: bool, flags: bool, ghost refs: nat -> nat)
    requires lay.l2Size > 0 && d.reserved == lay.meta && 0 in lay.meta
    requires forall k: nat | k < counts.Length :: counts[k] == 0
    modifies counts
    ensures Tallied(counts, refs, fine)
    ensures flags <==> Flagged(d.host, d.l1, d.refcounts)
    ensures forall c: nat :: refs(c) == Refs(lay, d, c)
  {
    hide Flagged, RootsRefs, Refs, AreaRefs;
    refs := (c: nat) => 0;
    fine, refs := IncRefcounts(counts, 0, 1, true, refs);
    fine, flags, refs := CheckRoots(counts, lay, d, Roots(lay, d), fine, refs);
    fine, refs := IncRefcounts(counts, d.dirOffset, d.dirClusters, fine, refs);
    fine, refs := CheckSet(counts, lay.meta - {0}, fine, refs);
    forall c: nat
      ensures refs(c) == Refs(lay, d, c)
    {
      CountingOrder(lay, d, c);
    }
  }

  /**
   * The whole check of an open image whose file has `clusters` clusters: no
   * complaint if and only if the image is clean.
   */
  method CheckRefcounts(lay: Layout, m: Image, clusters: nat) returns (ok: bool)
    requires lay.l2Size > 0 && 0 in lay.meta
    ensures ok <==> Clean(lay, m, clusters)
  {
    hide Flagged, Refs, Clean;
    var counts := new nat[clusters](_ => 0);
    var fine, flags, refs := CountAll(counts, lay, OnDisk(lay, m));
    var same := CompareCounts(counts, m.refcounts);
    ok := fine && flags && same;
    CleanTally(lay, m, counts[..], refs, fine, flags, same);
  }
}
