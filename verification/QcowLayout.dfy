/**
 * The host file of a QCOW2 image, seen cluster by cluster, and the reference
 * counts that its tables imply.
 *
 * A cluster holds either a table of 64-bit entries (part of an L1 table, or one
 * L2 table), or guest sectors, or part of the snapshot directory.  Offsets are
 * cluster numbers; cluster 0 is the header, so 0 doubles as "not allocated".
 */
module QcowLayout {
  import opened Division

  datatype Sector = Sector(bytes: seq<bv8>)

  /** An L1 or L2 entry: a cluster number and the QCOW_OFLAG_COPIED bit. */
  datatype Entry = Entry(cluster: nat, copied: bool)

  /** The all-zero entry: nothing allocated. */
  const NONE: Entry := Entry(0, false)

  datatype Snapshot = Snapshot(l1Offset: nat, l1Size: nat, id: string, name: string)

  datatype Content =
    | Table(entries: seq<Entry>)
    | Data(sectors: seq<Sector>)
    | Directory(snaps: seq<Snapshot>)

  type Host = map<nat, Content>

  // ---------------------------------------------------------------------------
  // Tables inside the host file
  // ---------------------------------------------------------------------------

  predicate IsTable(h: Host, c: nat, n: nat) {
    c in h && h[c].Table? && |h[c].entries| == n
  }

  predicate IsData(h: Host, c: nat, n: nat) {
    c in h && h[c].Data? && |h[c].sectors| == n
  }

  function TableAt(h: Host, c: nat): seq<Entry> {
    if c in h && h[c].Table? then h[c].entries else []
  }

  function Pick(t: seq<Entry>, i: nat): Entry {
    if i < |t| then t[i] else NONE
  }

  /** Clusters needed for `n` entries when a cluster holds `l` of them. */
  function Clusters(n: nat, l: nat): nat
    requires l > 0
  {
    Quot(n + l - 1, l)
  }

  predicate InArea(off: nat, n: nat, c: nat) {
    off <= c < off + n
  }

  /** Entry `i` of the table that starts at cluster `off`. */
  function Slot(h: Host, off: nat, i: nat, l: nat): Entry
    requires l > 0
  {
    Pick(TableAt(h, off + Quot(i, l)), Rem(i, l))
  }

  /** The `n`-entry table that starts at cluster `off`. */
  function ReadRun(h: Host, off: nat, n: nat, l: nat): seq<Entry>
    requires l > 0
  {
    seq(n, i requires 0 <= i < n => Slot(h, off, i, l))
  }

  /** Table cluster `es` after entries `q * l ..` of `t` were written over it. */
  function ChunkOf(es: seq<Entry>, t: seq<Entry>, q: nat, l: nat): seq<Entry> {
    seq(l, w requires 0 <= w < l => if q * l + w < |t| then t[q * l + w] else Pick(es, w))
  }

  function Chunked(h: Host, off: nat, t: seq<Entry>, n: nat, l: nat): Host {
    map c: nat | off <= c < off + n && InArea(off, n, c) :: Table(ChunkOf(TableAt(h, c), t, c - off, l))
  }

  /** Write a whole table at cluster `off`; what follows it in its last cluster stays. */
  function WriteRun(h: Host, off: nat, t: seq<Entry>, l: nat): Host
    requires l > 0
  {
    h + Chunked(h, off, t, Clusters(|t|, l), l)
  }

  /** Overwrite entry `i` of the table that starts at cluster `off`. */
  function WriteSlot(h: Host, off: nat, i: nat, e: Entry, l: nat): Host
    requires l > 0 && IsTable(h, off + Quot(i, l), l)
  {
    var c := off + Quot(i, l);
    h[c := Table(h[c].entries[Rem(i, l) := e])]
  }

  lemma {:induction false} SlotInArea(i: nat, n: nat, l: nat)
    requires l > 0 && i < n
    ensures Quot(i, l) < Clusters(n, l)
  {
    if i >= l { SlotInArea(i - l, n - l, l); }
  }

  lemma ChunkAt(es: seq<Entry>, t: seq<Entry>, i: nat, l: nat)
    requires l > 0 && i < |t|
    ensures ChunkOf(es, t, Quot(i, l), l)[Rem(i, l)] == t[i]
  {
    QuotRem(i, l);
  }

  lemma SlotWritten(h: Host, off: nat, t: seq<Entry>, i: nat, l: nat)
    requires l > 0 && i < |t|
    ensures Slot(WriteRun(h, off, t, l), off, i, l) == t[i]
  {
    var c := off + Quot(i, l);
    SlotInArea(i, |t|, l);
    ChunkAt(TableAt(h, c), t, i, l);
    assert InArea(off, Clusters(|t|, l), c);
    assert WriteRun(h, off, t, l)[c] == Table(ChunkOf(TableAt(h, c), t, Quot(i, l), l));
  }

  lemma ReadWritten(h: Host, off: nat, t: seq<Entry>, l: nat)
    requires l > 0
    ensures ReadRun(WriteRun(h, off, t, l), off, |t|, l) == t
  {
    forall i: nat | i < |t|
      ensures Slot(WriteRun(h, off, t, l), off, i, l) == t[i]
    {
      SlotWritten(h, off, t, i, l);
    }
  }

  lemma ReadAfterSlot(h: Host, off: nat, n: nat, i: nat, e: Entry, l: nat)
    requires l > 0 && IsTable(h, off + Quot(i, l), l) && i < n
    ensures ReadRun(WriteSlot(h, off, i, e, l), off, n, l) == ReadRun(h, off, n, l)[i := e]
  {
    var h' := WriteSlot(h, off, i, e, l);
    forall k: nat | k < n
      ensures Slot(h', off, k, l) == if k == i then e else Slot(h, off, k, l)
    {
      if k != i && Quot(k, l) == Quot(i, l) && Rem(k, l) == Rem(i, l) {
        QuotRemInjective(i, k, l);
      }
    }
  }

  lemma ReadFramed(h: Host, h': Host, off: nat, n: nat, l: nat)
    requires l > 0
    requires forall c: nat | InArea(off, Clusters(n, l), c) :: TableAt(h, c) == TableAt(h', c)
    ensures ReadRun(h, off, n, l) == ReadRun(h', off, n, l)
  {
    forall i: nat | i < n
      ensures Slot(h, off, i, l) == Slot(h', off, i, l)
    {
      SlotInArea(i, n, l);
      assert InArea(off, Clusters(n, l), off + Quot(i, l));
    }
  }

  // ---------------------------------------------------------------------------
  // Reference counting, root by root
  // ---------------------------------------------------------------------------

  /** A root: an L1 table and the cluster where it is stored. */
  datatype Root = Root(off: nat, tab: seq<Entry>)

  function Hit(e: Entry, c: nat): nat {
    if e.cluster != 0 && e.cluster == c then 1 else 0
  }

  /** References to `c` among the first `n` entries of an L2 table. */
  function TableRefs(es: seq<Entry>, n: nat, c: nat): nat
    requires n <= |es|
  {
    if n == 0 then 0 else TableRefs(es, n - 1, c) + Hit(es[n - 1], c)
  }

  /** References to `c` made by one L1 entry: the L2 table itself and what it lists. */
  function EntryRefs(h: Host, e: Entry, c: nat): nat {
    if e.cluster == 0 then 0
    else Hit(e, c) + TableRefs(TableAt(h, e.cluster), |TableAt(h, e.cluster)|, c)
  }

  function L1Refs(h: Host, t: seq<Entry>, n: nat, c: nat): nat
    requires n <= |t|
  {
    if n == 0 then 0 else L1Refs(h, t, n - 1, c) + EntryRefs(h, t[n - 1], c)
  }

  function AreaRefs(off: nat, n: nat, c: nat): nat {
    if InArea(off, n, c) then 1 else 0
  }

  function RootRefs(h: Host, r: Root, c: nat, l: nat): nat
    requires l > 0
  {
    AreaRefs(r.off, Clusters(|r.tab|, l), c) + L1Refs(h, r.tab, |r.tab|, c)
  }

  function RootsRefs(h: Host, rs: seq<Root>, n: nat, c: nat, l: nat): nat
    requires l > 0 && n <= |rs|
  {
    if n == 0 then 0 else RootsRefs(h, rs, n - 1, c, l) + RootRefs(h, rs[n - 1], c, l)
  }

  // ---- how the sums react to changes ------------------------------------------

  predicate SamePointer(e: Entry, f: Entry) {
    e.cluster == f.cluster && (e.cluster == 0 ==> e == f)
  }

  /** Two tables that differ at most in the COPIED flags of allocated entries. */
  predicate SamePointers(s: seq<Entry>, t: seq<Entry>) {
    |s| == |t| && forall i: nat | i < |s| :: SamePointer(s[i], t[i])
  }

  predicate SameContent(x: Content, y: Content) {
    if x.Table? then y.Table? && SamePointers(x.entries, y.entries) else y == x
  }

  /** Two host files that differ at most in COPIED flags. */
  ghost predicate SameShape(h: Host, h': Host) {
    h.Keys == h'.Keys && forall c: nat | c in h :: SameContent(h[c], h'[c])
  }

  lemma {:induction false} TableRefsSame(s: seq<Entry>, t: seq<Entry>, n: nat, c: nat)
    requires SamePointers(s, t) && n <= |s|
    ensures TableRefs(s, n, c) == TableRefs(t, n, c)
  {
    if n > 0 { TableRefsSame(s, t, n - 1, c); }
  }

  lemma EntryRefsSame(h: Host, h': Host, e: Entry, e': Entry, c: nat)
    requires e.cluster == e'.cluster
    requires e.cluster != 0 ==> SamePointers(TableAt(h, e.cluster), TableAt(h', e.cluster))
    ensures EntryRefs(h, e, c) == EntryRefs(h', e', c)
  {
    if e.cluster != 0 {
      TableRefsSame(TableAt(h, e.cluster), TableAt(h', e.cluster), |TableAt(h, e.cluster)|, c);
    }
  }

  /** Every table that `t` lists has the same pointers in both files. */
  ghost predicate SameTables(h: Host, h': Host, t: seq<Entry>) {
    forall i: nat | i < |t| && t[i].cluster != 0 ::
      SamePointers(TableAt(h, t[i].cluster), TableAt(h', t[i].cluster))
  }

  lemma {:induction false} L1RefsSame(h: Host, h': Host, t: seq<Entry>, t': seq<Entry>, n: nat, c: nat)
    requires SamePointers(t, t') && SameTables(h, h', t) && n <= |t|
    ensures L1Refs(h, t, n, c) == L1Refs(h', t', n, c)
  {
    if n > 0 {
      L1RefsSame(h, h', t, t', n - 1, c);
      EntryRefsSame(h, h', t[n - 1], t'[n - 1], c);
    }
  }

  lemma RootRefsSame(h: Host, h': Host, r: Root, r': Root, c: nat, l: nat)
    requires l > 0 && r.off == r'.off && SamePointers(r.tab, r'.tab) && SameTables(h, h', r.tab)
    ensures RootRefs(h, r, c, l) == RootRefs(h', r', c, l)
  {
    L1RefsSame(h, h', r.tab, r'.tab, |r.tab|, c);
  }

  /** Changing entry `j` of a table moves exactly that entry's reference. */
  lemma {:induction false} TableRefsUpdate(es: seq<Entry>, j: nat, e: Entry, n: nat, c: nat)
    requires j < |es| && n <= |es|
    ensures TableRefs(es[j := e], n, c) + (if j < n then Hit(es[j], c) else 0)
         == TableRefs(es, n, c) + (if j < n then Hit(e, c) else 0)
  {
    if n > 0 { TableRefsUpdate(es, j, e, n - 1, c); }
  }

  /** Changing L1 entry `i` (and tables that no other entry lists) moves exactly its references. */
  lemma {:induction false} L1RefsUpdate(h: Host, h': Host, t: seq<Entry>, t': seq<Entry>, i: nat, n: nat, c: nat)
    requires i < |t| == |t'| && n <= |t|
    requires forall k: nat | k < |t| && k != i :: t'[k].cluster == t[k].cluster
    requires forall k: nat | k < |t| && k != i && t[k].cluster != 0 ::
               SamePointers(TableAt(h, t[k].cluster), TableAt(h', t[k].cluster))
    ensures L1Refs(h', t', n, c) + (if i < n then EntryRefs(h, t[i], c) else 0)
         == L1Refs(h, t, n, c) + (if i < n then EntryRefs(h', t'[i], c) else 0)
  {
    if n > 0 {
      L1RefsUpdate(h, h', t, t', i, n - 1, c);
      if n - 1 != i {
        EntryRefsSame(h, h', t[n - 1], t'[n - 1], c);
      }
    }
  }

  // ---- what a count tells about the references ---------------------------------

  lemma {:induction false} TableRefsHit(es: seq<Entry>, j: nat, n: nat, c: nat)
    requires j < n <= |es| && es[j].cluster == c != 0
    ensures TableRefs(es, n, c) >= 1
  {
    if j < n - 1 { TableRefsHit(es, j, n - 1, c); }
  }

  lemma EntryRefsHit(h: Host, e: Entry, c: nat)
    requires e.cluster != 0 && c != 0
    ensures e.cluster == c ==> EntryRefs(h, e, c) >= 1
    ensures forall j: nat | j < |TableAt(h, e.cluster)| ::
              TableAt(h, e.cluster)[j].cluster == c ==> EntryRefs(h, e, c) >= 1
  {
    var es := TableAt(h, e.cluster);
    forall j: nat | j < |es| && es[j].cluster == c
      ensures EntryRefs(h, e, c) >= 1
    {
      TableRefsHit(es, j, |es|, c);
    }
  }

  lemma {:induction false} L1RefsAtLeast(h: Host, t: seq<Entry>, i: nat, n: nat, c: nat)
    requires i < n <= |t|
    ensures L1Refs(h, t, n, c) >= EntryRefs(h, t[i], c)
  {
    if i < n - 1 { L1RefsAtLeast(h, t, i, n - 1, c); }
  }

  /** `t` lists cluster `c`, as an L2 table or through one. */
  ghost predicate Lists(h: Host, t: seq<Entry>, c: nat) {
    exists i: nat :: i < |t| && t[i].cluster != 0 && ListedBy(h, t[i], c)
  }

  predicate ListedBy(h: Host, e: Entry, c: nat) {
    || e.cluster == c
    || exists j: nat :: j < |TableAt(h, e.cluster)| && TableAt(h, e.cluster)[j].cluster == c
  }

  lemma ListsCounted(h: Host, t: seq<Entry>, c: nat)
    requires c != 0 && Lists(h, t, c)
    ensures L1Refs(h, t, |t|, c) >= 1
  {
    var i: nat :| i < |t| && t[i].cluster != 0 && ListedBy(h, t[i], c);
    EntryRefsHit(h, t[i], c);
    L1RefsAtLeast(h, t, i, |t|, c);
  }

  lemma {:induction false} RootsRefsAtLeast(h: Host, rs: seq<Root>, a: nat, n: nat, c: nat, l: nat)
    requires l > 0 && a < n <= |rs|
    ensures RootsRefs(h, rs, n, c, l) >= RootRefs(h, rs[a], c, l)
  {
    if a < n - 1 { RootsRefsAtLeast(h, rs, a, n - 1, c, l); }
  }

  /** Two different roots are counted separately. */
  lemma {:induction false} RootsRefsTwo(h: Host, rs: seq<Root>, a: nat, b: nat, n: nat, c: nat, l: nat)
    requires l > 0 && a < b < n <= |rs|
    ensures RootsRefs(h, rs, n, c, l) >= RootRefs(h, rs[a], c, l) + RootRefs(h, rs[b], c, l)
  {
    if b < n - 1 {
      RootsRefsTwo(h, rs, a, b, n - 1, c, l);
    } else {
      RootsRefsAtLeast(h, rs, a, b, c, l);
    }
  }

  /** Changing one root changes the total by the difference of that root's count. */
  lemma {:induction false} RootsRefsUpdate(h: Host, h': Host, rs: seq<Root>, rs': seq<Root>, a: nat, n: nat, c: nat,
                                           l: nat)
    requires l > 0 && a < |rs| == |rs'| && n <= |rs|
    requires forall k: nat | k < |rs| && k != a :: RootRefs(h', rs'[k], c, l) == RootRefs(h, rs[k], c, l)
    ensures RootsRefs(h', rs', n, c, l) + (if a < n then RootRefs(h, rs[a], c, l) else 0)
         == RootsRefs(h, rs, n, c, l) + (if a < n then RootRefs(h', rs'[a], c, l) else 0)
  {
    if n > 0 { RootsRefsUpdate(h, h', rs, rs', a, n - 1, c, l); }
  }

  lemma {:induction false} RootsRefsSame(h: Host, h': Host, rs: seq<Root>, rs': seq<Root>, n: nat, c: nat, l: nat)
    requires l > 0 && n <= |rs| && n <= |rs'|
    requires forall k: nat | k < n :: RootRefs(h', rs'[k], c, l) == RootRefs(h, rs[k], c, l)
    ensures RootsRefs(h', rs', n, c, l) == RootsRefs(h, rs, n, c, l)
  {
    if n > 0 { RootsRefsSame(h, h', rs, rs', n - 1, c, l); }
  }

  /** Dropping root `a` subtracts exactly that root's count. */
  lemma {:induction false} RootsRefsRemove(h: Host, rs: seq<Root>, a: nat, n: nat, c: nat, l: nat)
    requires l > 0 && a < n <= |rs|
    ensures RootsRefs(h, rs[..a] + rs[a + 1..], n - 1, c, l) + RootRefs(h, rs[a], c, l)
         == RootsRefs(h, rs, n, c, l)
  {
    var rs' := rs[..a] + rs[a + 1..];
    if a == n - 1 {
      RootsRefsSame(h, h, rs, rs', n - 1, c, l);
    } else {
      RootsRefsRemove(h, rs, a, n - 1, c, l);
      assert rs'[n - 2] == rs[n - 1];
    }
  }
}
