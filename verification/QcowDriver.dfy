/**
 * The QCOW2 driver itself: an open image with its in-memory L1 table, its
 * reference counts and its L2 cache, and the operations that change them.
 */
module QcowDriver {
  import opened Division
  import opened QcowLayout
  import opened QcowSpec
  import opened QcowSteps
  import opened QcowSnapshots
  import opened QcowFlat
  import opened QcowIds
  import opened QcowPass
  import opened QcowView
  import opened QcowLimits
  import opened QcowBlank

  const L2_CACHE_SIZE: nat := 16
  const HIT_LIMIT: nat := 0xffff_ffff
  const EINVAL: int := 22

  /** A run of `n` clusters with count zero, starting at `b`. */
  ghost predicate FreeRun(rc: map<nat, nat>, b: nat, n: nat) {
    forall c: nat | InArea(b, n, c) :: Rc(rc, c) == 0
  }

  /** A count after an addition, which is refused where the sum leaves 16 bits. */
  function Added(count: nat, addend: int): nat {
    if 0 <= count + addend <= COUNT_LIMIT then count + addend else count
  }

  ghost predicate CountsMoved(rc: map<nat, nat>, rc': map<nat, nat>, off: nat, n: nat, addend: int) {
    forall c: nat :: Rc(rc', c) == if InArea(off, n, c) then Added(Rc(rc, c), addend) else Rc(rc, c)
  }

  ghost predicate RoomIn(rc: map<nat, nat>, off: nat, n: nat, addend: int) {
    forall c: nat | InArea(off, n, c) :: 0 <= Rc(rc, c) + addend <= COUNT_LIMIT
  }

  /** From some cluster on, nothing has a count. */
  lemma {:induction false} CountsEnd(ks: set<nat>) returns (bound: nat)
    ensures forall c: nat | c in ks :: c < bound
  {
    if ks == {} {
      bound := 0;
    } else {
      var k :| k in ks;
      var b := CountsEnd(ks - {k});
      bound := if k < b then b else k + 1;
      assert forall c: nat | c in ks :: c == k || c in ks - {k};
    }
  }

  /** `base` with `part` written over it from index `k` on. */
  function Overlay(base: seq<Sector>, k: nat, part: seq<Sector>): (r: seq<Sector>)
    requires k + |part| <= |base|
    ensures |r| == |base| && forall x: nat | x < |base| :: r[x] == if k <= x < k + |part| then part[x - k] else base[x]
  {
    base[..k] + part + base[k + |part|..]
  }

  lemma ShapeIgnoresCounts(lay: Layout, m: Image, role: Roles, rc': map<nat, nat>, c: nat)
    requires lay.l2Size > 0 && Shaped(lay, m, role)
    ensures Shaped(lay, m.(refcounts := rc'), role)
    ensures Unused(lay, m, c) ==> Unused(lay, m.(refcounts := rc'), c)
  {
    assert Roots(lay, m.(refcounts := rc')) == Roots(lay, m);
  }

  lemma CountsChanged(rc: map<nat, nat>, rc': map<nat, nat>, was: nat, now: nat)
    requires CountsAre(rc', Replaced(rc, was, now))
    ensures Rc(rc', now) == 1
    ensures forall c: nat | c != was && c != now :: Rc(rc', c) == Rc(rc, c)
    ensures was != 0 && was != now && Rc(rc, was) > 0 ==> Rc(rc', was) == Rc(rc, was) - 1
  {
  }

  lemma DetachedStays(h: Host, h': Host, t: seq<Entry>, d: nat)
    requires AgreeOutside(h, h', {d}) && !Lists(h, t, d) && d in h' && !h'[d].Table?
    ensures !Lists(h', t, d)
  {
    forall i: nat | i < |t| && t[i].cluster != 0
      ensures !ListedBy(h', t[i], d)
    {
      assert !ListedBy(h, t[i], d);
      assert TableAt(h', t[i].cluster) == TableAt(h, t[i].cluster);
    }
  }

  // ---- the size of the snapshot directory ---------------------------------------

  const SNAPSHOT_HEADER: nat := 40
  const SECTOR_SIZE: nat := 512

  function Align8(x: nat): nat {
    (x + 7) / 8 * 8
  }

  /** Bytes taken by the directory: each header is aligned to 8, then id and name follow. */
  function DirectoryBytes(sns: seq<Snapshot>, n: nat): nat
    requires n <= |sns|
  {
    if n == 0 then 0
    else Align8(DirectoryBytes(sns, n - 1)) + SNAPSHOT_HEADER + |sns[n - 1].id| + |sns[n - 1].name|
  }

  class QcowDisk {
    const lay: Layout
    /** What a cluster that never held sectors reads as. */
    const junk: seq<Sector>

    var host: Host
    var refcounts: map<nat, nat>
    var freeClusterIndex: nat
    var l1Offset: nat
    var l1: seq<Entry>
    var snaps: seq<Snapshot>
    var dirOffset: nat
    var dirClusters: nat

    var cacheOffsets: seq<nat>
    var cacheCounts: seq<nat>
    var cacheTables: seq<seq<Entry>>

    ghost var role: Roles
    /** Clusters that are counted although nothing refers to them any more. */
    ghost var lost: set<nat>

    ghost function View(): Image
      reads this
    {
      Image(lay.meta + lost, host, refcounts, l1Offset, l1, snaps, dirOffset, dirClusters)
    }

    ghost predicate Fixed()
      reads this
    {
      WellFormed(lay) && |junk| == lay.clusterSectors
    }

    /** Create an image with an L1 table of `l1Size` entries, and open it. */
    constructor (lay: Layout, junk: seq<Sector>, l1Size: nat)
      requires WellFormed(lay) && |junk| == lay.clusterSectors && l1Size > 0
      requires lay.meta == NewMeta(l1Size, lay.l2Size)
      ensures Valid() && this.lay == lay && lost == {} && snaps == [] && |l1| == l1Size
      ensures forall s: nat :: FlatOf(lay, View()).disk[s] == BackingSector(lay, s)
    {
      this.lay, this.junk := lay, junk;
      host, refcounts, freeClusterIndex := NewHost(l1Size, lay.l2Size), map[], 0;
      l1Offset, l1, snaps, dirOffset, dirClusters := 1, Holes(l1Size), [], 0, 0;
      cacheOffsets, cacheCounts, cacheTables := [], [], [];
      role, lost := NewRoles(l1Size, lay.l2Size), {};
      new;
      hide Sound, FlatOf, Blank, NewHost, NewRoles, NewMeta, WellFormed, SixteenBit, CacheShape;
      CacheReset();
      CountNew(Clusters(l1Size, lay.l2Size));
      assert View() == Image(lay.meta, host, refcounts, 1, Holes(l1Size), [], 0, 0);
      BlankImage(lay, View(), l1Size);
      BlankSound(lay, View(), l1Size);
      BlankReads(lay, View(), l1Size);
      NewCountsSmall(refcounts, Clusters(l1Size, lay.l2Size));
      EmptyCache();
    }

    /** Count the clusters of a new image: header, L1 area of `n` clusters, refcount table and block. */
    method CountNew(n: nat)
      requires refcounts == map[] && l1Offset == 1
      modifies this`refcounts, this`freeClusterIndex
      ensures NewCounts(refcounts, n)
    {
      UpdateRefcount(0, 1, 1);
      UpdateRefcount(l1Offset, n, 1);
      UpdateRefcount(1 + n, 1, 1);
      UpdateRefcount(2 + n, 1, 1);
    }

    lemma EmptyCache()
      requires CacheEmpty()
      ensures CacheOK() && CacheLive()
    {
    }

    // -------------------------------------------------------------------------
    // Reference counts
    // -------------------------------------------------------------------------

    /** Add `addend` to one count; refuse to leave the 16-bit range. */
    method UpdateClusterRefcount(c: nat, addend: int) returns (r: int)
      requires addend == 1 || addend == -1
      modifies this`refcounts, this`freeClusterIndex
      ensures 0 <= Rc(old(refcounts), c) + addend <= COUNT_LIMIT ==>
                r == Rc(old(refcounts), c) + addend && refcounts == old(refcounts)[c := r]
      ensures !(0 <= Rc(old(refcounts), c) + addend <= COUNT_LIMIT) ==>
                r == -EINVAL && refcounts == old(refcounts)
      ensures freeClusterIndex == if r == 0 && c < old(freeClusterIndex) then c else old(freeClusterIndex)
    {
      r := Rc(refcounts, c) + addend;
      if r < 0 || r > COUNT_LIMIT {
        return -EINVAL;
      }
      if r == 0 && c < freeClusterIndex {
        freeClusterIndex := c;
      }
      refcounts := refcounts[c := r];
    }

    /**
     * Add `addend` to the counts of `n` clusters from `off` on, as far as they have
     * room; if all of them have, exactly the range moves.
     */
    method UpdateRefcount(off: nat, n: nat, addend: int)
      requires addend == 1 || addend == -1
      modifies this`refcounts, this`freeClusterIndex
      ensures CountsMoved(old(refcounts), refcounts, off, n, addend)
      ensures old(RoomIn(refcounts, off, n, addend)) && addend == 1 ==> AreaTaken(old(refcounts), refcounts, off, n)
      ensures old(RoomIn(refcounts, off, n, addend)) && addend == -1 ==> AreaTaken(refcounts, old(refcounts), off, n)
      ensures old(SixteenBit(refcounts)) ==> SixteenBit(refcounts)
    {
      var c := off;
      while c < off + n
        invariant off <= c <= off + n
        invariant CountsMoved(old(refcounts), refcounts, off, c - off, addend)
      {
        var r := UpdateClusterRefcount(c, addend);
        c := c + 1;
      }
    }

    /**
     * Find `n` consecutive clusters with count zero, scanning upwards from the
     * free index; the first such run is returned.
     */
    method AllocClustersNoref(n: nat) returns (off: nat)
      modifies this`freeClusterIndex
      ensures FreeRun(refcounts, off, n)
      ensures n > 0 ==> old(freeClusterIndex) <= off && freeClusterIndex == off + n
      ensures n > 0 ==> forall b: nat | old(freeClusterIndex) <= b < off :: !FreeRun(refcounts, b, n)
    {
      ghost var bound := CountsEnd(refcounts.Keys);
      while true
        invariant old(freeClusterIndex) <= freeClusterIndex
        invariant n > 0 ==> forall b: nat | old(freeClusterIndex) <= b < freeClusterIndex :: !FreeRun(refcounts, b, n)
        decreases bound - freeClusterIndex
      {
        ghost var start := freeClusterIndex;
        if Rc(refcounts, freeClusterIndex) == 0 {
          freeClusterIndex := freeClusterIndex + 1;
          var i := 1;
          while i < n && Rc(refcounts, freeClusterIndex) == 0
            invariant 1 <= i && (n > 0 ==> i <= n)
            invariant freeClusterIndex == start + i
            invariant FreeRun(refcounts, start, i)
          {
            freeClusterIndex := freeClusterIndex + 1;
            i := i + 1;
          }
          if i >= n {
            return freeClusterIndex - n;
          }
        }
        forall b: nat | start <= b <= freeClusterIndex && n > 0
          ensures !FreeRun(refcounts, b, n)
        {
          assert InArea(b, n, freeClusterIndex);
        }
        freeClusterIndex := freeClusterIndex + 1;
      }
    }

    /** Allocate `n` clusters: a free run whose counts become one. */
    method AllocClusters(n: nat) returns (off: nat)
      modifies this`refcounts, this`freeClusterIndex
      ensures FreeRun(old(refcounts), off, n) && AreaTaken(old(refcounts), refcounts, off, n)
      ensures n > 0 ==> old(freeClusterIndex) <= off
      ensures n > 0 ==> forall b: nat | old(freeClusterIndex) <= b < off :: !FreeRun(old(refcounts), b, n)
      ensures old(SixteenBit(refcounts)) ==> SixteenBit(refcounts)
    {
      off := AllocClustersNoref(n);
      UpdateRefcount(off, n, 1);
    }

    // -------------------------------------------------------------------------
    // The L2 cache
    // -------------------------------------------------------------------------

    ghost predicate CacheShape()
      reads this
    {
      && |cacheOffsets| == |cacheCounts| == |cacheTables| == L2_CACHE_SIZE
      && forall k: nat | k < L2_CACHE_SIZE :: cacheCounts[k] < HIT_LIMIT
    }

    /** Each occupied slot mirrors the file; no table is cached twice. */
    ghost predicate CacheOK()
      reads this
    {
      && CacheShape()
      && (forall k: nat | k < L2_CACHE_SIZE && cacheOffsets[k] != 0 ::
            IsTable(host, cacheOffsets[k], lay.l2Size) && cacheTables[k] == TableAt(host, cacheOffsets[k]))
      && (forall k: nat, x: nat | k < x < L2_CACHE_SIZE && cacheOffsets[k] != 0 ::
            cacheOffsets[k] != cacheOffsets[x])
    }

    /** Cluster `c` holds an L2 table that is in use. */
    ghost predicate LiveTable(c: nat)
      reads this
    {
      Rc(refcounts, c) >= 1 && c in role && role[c].L2At?
    }

    /** Only L2 tables that are in use are cached. */
    ghost predicate CacheLive()
      reads this
    {
      forall k: nat | k < |cacheOffsets| && cacheOffsets[k] != 0 :: LiveTable(cacheOffsets[k])
    }

    /** Nothing is cached. */
    ghost predicate CacheEmpty()
      reads this
    {
      CacheShape() && forall k: nat | k < L2_CACHE_SIZE :: cacheOffsets[k] == 0
    }

    method CacheReset()
      modifies this`cacheOffsets, this`cacheCounts, this`cacheTables
      ensures CacheEmpty()
    {
      cacheTables := seq(L2_CACHE_SIZE, k => []);
      cacheOffsets := seq(L2_CACHE_SIZE, k => 0);
      cacheCounts := seq(L2_CACHE_SIZE, k => 0);
    }

    /** The least used slot. */
    method CacheNewEntry() returns (slot: nat)
      requires CacheShape()
      ensures slot < L2_CACHE_SIZE
      ensures forall k: nat | k < L2_CACHE_SIZE :: cacheCounts[slot] <= cacheCounts[k]
      ensures forall k: nat | k < slot :: cacheCounts[slot] < cacheCounts[k]
    {
      slot := 0;
      var minCount := HIT_LIMIT;
      for i := 0 to L2_CACHE_SIZE
        invariant slot < L2_CACHE_SIZE
        invariant i == 0 ==> slot == 0 && minCount == HIT_LIMIT
        invariant i > 0 ==> slot < i && minCount == cacheCounts[slot]
        invariant forall k: nat | k < i :: minCount <= cacheCounts[k]
        invariant forall k: nat | k < slot :: minCount < cacheCounts[k]
      {
        if cacheCounts[i] < minCount {
          minCount := cacheCounts[i];
          slot := i;
        }
      }
    }

    /** The slot of the table at cluster `off`, or the cache size. */
    method CacheFind(off: nat) returns (slot: nat)
      requires CacheShape()
      ensures slot <= L2_CACHE_SIZE
      ensures slot < L2_CACHE_SIZE ==> cacheOffsets[slot] == off
      ensures slot == L2_CACHE_SIZE ==> off !in cacheOffsets
    {
      slot := 0;
      while slot < L2_CACHE_SIZE && cacheOffsets[slot] != off
        invariant slot <= L2_CACHE_SIZE
        invariant off !in cacheOffsets[..slot]
      {
        slot := slot + 1;
      }
    }

    /** Count a hit on `slot`; when a counter would overflow, all are halved. */
    method CacheHit(slot: nat)
      requires CacheShape() && slot < L2_CACHE_SIZE
      modifies this`cacheCounts
      ensures CacheShape()
      ensures forall k: nat | k < L2_CACHE_SIZE ::
                var bumped := old(cacheCounts)[slot := old(cacheCounts)[slot] + 1];
                cacheCounts[k] == if bumped[slot] == HIT_LIMIT then bumped[k] / 2 else bumped[k]
    {
      cacheCounts := cacheCounts[slot := cacheCounts[slot] + 1];
      if cacheCounts[slot] == HIT_LIMIT {
        var j := 0;
        ghost var bumped := cacheCounts;
        while j < L2_CACHE_SIZE
          invariant j <= L2_CACHE_SIZE && |cacheCounts| == L2_CACHE_SIZE
          invariant forall k: nat | k < L2_CACHE_SIZE :: cacheCounts[k] == if k < j then bumped[k] / 2 else bumped[k]
        {
          cacheCounts := cacheCounts[j := cacheCounts[j] / 2];
          j := j + 1;
        }
      }
    }

    /** Take over `slot` for the table `es` at cluster `off`. */
    method CacheFill(slot: nat, off: nat, es: seq<Entry>)
      requires CacheShape() && slot < L2_CACHE_SIZE
      modifies this`cacheOffsets, this`cacheCounts, this`cacheTables
      ensures CacheShape()
      ensures cacheOffsets == old(cacheOffsets)[slot := off]
      ensures cacheTables == old(cacheTables)[slot := es]
      ensures cacheCounts == old(cacheCounts)[slot := 1]
    {
      cacheTables := cacheTables[slot := es];
      cacheOffsets := cacheOffsets[slot := off];
      cacheCounts := cacheCounts[slot := 1];
    }

    /**
     * Make the table at cluster `off` available in the cache.  A table that is
     * already cached stays where it is, and so does every other.
     */
    method CacheLoad(off: nat) returns (slot: nat)
      requires CacheOK() && CacheLive()
      requires off != 0 && IsTable(host, off, lay.l2Size) && LiveTable(off)
      modifies this`cacheOffsets, this`cacheCounts, this`cacheTables
      ensures CacheOK() && CacheLive()
      ensures slot < L2_CACHE_SIZE && cacheOffsets[slot] == off && cacheTables[slot] == TableAt(host, off)
      ensures off in old(cacheOffsets) ==> cacheOffsets == old(cacheOffsets) && cacheTables == old(cacheTables)
    {
      slot := CacheFind(off);
      if slot < L2_CACHE_SIZE {
        CacheHit(slot);
      } else {
        slot := CacheNewEntry();
        CacheFill(slot, off, TableAt(host, off));
      }
    }

    // -------------------------------------------------------------------------
    // Reading
    // -------------------------------------------------------------------------

    /** What a read relies on; weaker than soundness, as reads happen amid writes. */
    ghost predicate ReadReady()
      reads this
    {
      && Fixed()
      && RootOK(lay, host, role, Root(l1Offset, l1))
      && CacheOK() && CacheLive()
      && forall i: nat | i < |l1| && l1[i].cluster != 0 :: Rc(refcounts, l1[i].cluster) >= 1
    }

    /** The L2 table for guest cluster `g`, if there is one, is in the cache. */
    ghost predicate Cached(g: nat)
      requires lay.l2Size > 0
      reads this
    {
      var e := Pick(l1, Quot(g, lay.l2Size));
      e.cluster != 0 ==> e.cluster in cacheOffsets
    }

    /** The data cluster behind guest cluster `g`, or 0; nothing is allocated. */
    method FindCluster(g: nat) returns (d: nat)
      requires ReadReady()
      modifies this`cacheOffsets, this`cacheCounts, this`cacheTables
      ensures ReadReady()
      ensures d == Lookup(lay, host, l1, g)
      ensures old(Cached(g)) ==> cacheOffsets == old(cacheOffsets) && cacheTables == old(cacheTables)
    {
      var i := Quot(g, lay.l2Size);
      if i >= |l1| {
        return 0;
      }
      var e := l1[i];
      if e == NONE {
        return 0;
      }
      assert TableOK(lay, host, role, i, e);
      var slot := CacheLoad(e.cluster);
      d := cacheTables[slot][Rem(g, lay.l2Size)].cluster;
    }

    /** `n` sectors of the backing file, or of data cluster `d`. */
    method ReadCluster(d: nat, s: nat, n: nat) returns (buf: seq<Sector>)
      requires Fixed() && Rem(s, lay.clusterSectors) + n <= lay.clusterSectors
      requires d != 0 ==> IsData(host, d, lay.clusterSectors)
      ensures |buf| == n
      ensures forall x: nat | x < n :: buf[x] == SectorIn(lay, host, d, s + x)
    {
      if d == 0 {
        buf := seq(n, x requires 0 <= x < n => BackingSector(lay, s + x));
      } else {
        var k, secs := Rem(s, lay.clusterSectors), host[d].sectors;
        buf := seq(n, x requires 0 <= x < n && k + n <= |secs| => lay.cipher.dec(s + x, secs[k + x]));
        forall x: nat | x < n
          ensures buf[x] == SectorIn(lay, host, d, s + x)
        {
          QuotRemPlus(s, x, lay.clusterSectors);
        }
      }
    }

    lemma LookupIsData(g: nat)
      requires ReadReady()
      ensures var d := Lookup(lay, host, l1, g); d != 0 ==> IsData(host, d, lay.clusterSectors)
    {
      var i := Quot(g, lay.l2Size);
      if i < |l1| && l1[i].cluster != 0 {
        assert TableOK(lay, host, role, i, l1[i]);
        assert DataOK(lay, host, role, i, Rem(g, lay.l2Size), TableAt(host, l1[i].cluster)[Rem(g, lay.l2Size)]);
      }
    }

    /** The sectors from `s` to the end of its cluster, but at most `n`. */
    method ReadPart(s: nat, n: nat) returns (buf: seq<Sector>)
      requires ReadReady() && n > 0
      modifies this`cacheOffsets, this`cacheCounts, this`cacheTables
      ensures ReadReady()
      ensures 0 < |buf| <= n && Rem(s, lay.clusterSectors) + |buf| <= lay.clusterSectors
      ensures forall x: nat | x < |buf| :: buf[x] == GuestSector(lay, host, l1, s + x)
      ensures old(Cached(Quot(s, lay.clusterSectors))) ==>
                cacheOffsets == old(cacheOffsets) && cacheTables == old(cacheTables)
    {
      var d := FindCluster(Quot(s, lay.clusterSectors));
      LookupIsData(Quot(s, lay.clusterSectors));
      var len := lay.clusterSectors - Rem(s, lay.clusterSectors);
      if len > n {
        len := n;
      }
      buf := ReadCluster(d, s, len);
      forall x: nat | x < len
        ensures buf[x] == GuestSector(lay, host, l1, s + x)
      {
        QuotRemPlus(s, x, lay.clusterSectors);
      }
    }

    /** All tables for guest clusters `lo` to `hi` are cached. */
    ghost predicate CachedAll(lo: nat, hi: nat)
      requires lay.l2Size > 0
      reads this
    {
      forall g: nat | lo <= g <= hi :: Cached(g)
    }

    /** Read `n` guest sectors from `s` on.  Tables that are in the cache stay there. */
    method Read(s: nat, n: nat) returns (buf: seq<Sector>)
      requires ReadReady()
      modifies this`cacheOffsets, this`cacheCounts, this`cacheTables
      ensures ReadReady()
      ensures |buf| == n
      ensures forall x: nat | x < n :: buf[x] == GuestSector(lay, host, l1, s + x)
      ensures n > 0 && old(CachedAll(Quot(s, lay.clusterSectors), Quot(s + n - 1, lay.clusterSectors))) ==>
                cacheOffsets == old(cacheOffsets) && cacheTables == old(cacheTables)
    {
      buf := [];
      while |buf| < n
        invariant ReadReady() && |buf| <= n
        invariant forall x: nat | x < |buf| :: buf[x] == GuestSector(lay, host, l1, s + x)
        invariant n > 0 && old(CachedAll(Quot(s, lay.clusterSectors), Quot(s + n - 1, lay.clusterSectors))) ==>
                    cacheOffsets == old(cacheOffsets) && cacheTables == old(cacheTables)
      {
        QuotMonotone(s, s + |buf|, lay.clusterSectors);
        QuotMonotone(s + |buf|, s + n - 1, lay.clusterSectors);
        ghost var before, g := buf, Quot(s + |buf|, lay.clusterSectors);
        assert n > 0 && old(CachedAll(Quot(s, lay.clusterSectors), Quot(s + n - 1, lay.clusterSectors))) ==>
                 old(Cached(g));
        var part := ReadPart(s + |buf|, n - |buf|);
        buf := buf + part;
        assert forall x: nat | |before| <= x < |buf| :: buf[x] == part[x - |before|];
      }
    }

    // -------------------------------------------------------------------------
    // Writing
    // -------------------------------------------------------------------------

    /** The first sector of guest cluster `g`. */
    function FirstSector(g: nat): nat {
      g * lay.clusterSectors
    }

    lemma SectorsOf(g: nat, x: nat)
      requires x < lay.clusterSectors
      ensures Quot(FirstSector(g) + x, lay.clusterSectors) == g && Rem(FirstSector(g) + x, lay.clusterSectors) == x
    {
      QuotRemUnique(g, x, lay.clusterSectors);
    }

    lemma SectorSplit(s: nat)
      requires lay.clusterSectors > 0
      ensures s == FirstSector(Quot(s, lay.clusterSectors)) + Rem(s, lay.clusterSectors)
    {
      QuotRem(s, lay.clusterSectors);
    }

    ghost predicate Valid()
      reads this
    {
      && Fixed()
      && Sound(lay, View(), role)
      && SixteenBit(refcounts)
      && lost !! lay.meta
      && CacheOK() && CacheLive()
    }

    lemma ValidReads()
      requires Valid()
      ensures ReadReady()
    {
      ActiveRoot(lay, View(), role);
      forall i: nat | i < |l1| && l1[i].cluster != 0
        ensures Rc(refcounts, l1[i].cluster) >= 1
      {
        ListedEntry(host, l1, i);
        assert EntryFlagged(host, l1[i], refcounts);
        OldTableCounted(lay, View(), role, l1[i]);
      }
    }

    /** Drop the count of `was` (0: nothing), then allocate one cluster. */
    method ReplaceCluster(was: nat) returns (c: nat)
      requires SixteenBit(refcounts) && (was != 0 ==> Rc(refcounts, was) >= 2)
      modifies this`refcounts, this`freeClusterIndex
      ensures Rc(old(refcounts), c) == 0
      ensures CountsAre(refcounts, Replaced(old(refcounts), was, c)) && SixteenBit(refcounts)
    {
      if was != 0 {
        UpdateRefcount(was, 1, -1);
      }
      ghost var mid := refcounts;
      assert forall x: nat :: Rc(mid, x) == Rc(old(refcounts), x) - (if was != 0 && x == was then 1 else 0);
      c := AllocClusters(1);
      assert InArea(c, 1, c);
      assert forall x: nat :: Rc(refcounts, x) == Rc(mid, x) + (if x == c then 1 else 0);
    }

    /**
     * Give the active root a table of its own at L1 entry `i`, in the cache.  No
     * disk changes, neither the active one nor a snapshot's.
     */
    method EnsureTable(i: nat) returns (slot: nat)
      requires Valid() && i < |l1|
      modifies this`host, this`refcounts, this`freeClusterIndex, this`l1, this`role,
               this`cacheOffsets, this`cacheCounts, this`cacheTables
      ensures Valid() && |l1| == old(|l1|)
      ensures l1[i].copied && l1[i].cluster != 0
      ensures slot < L2_CACHE_SIZE && cacheOffsets[slot] == l1[i].cluster
      ensures cacheTables[slot] == TableAt(host, l1[i].cluster)
      ensures SnapshotsKept(lay, old(View()), View())
      ensures forall s: nat :: GuestSector(lay, host, l1, s) == old(GuestSector(lay, host, l1, s))
    {
      var e := l1[i];
      ActiveRoot(lay, View(), role);
      assert TableOK(lay, host, role, i, e);
      if e.copied {
        ValidReads();
        slot := CacheLoad(e.cluster);
      } else {
        slot := MakeTable(i);
      }
    }

    lemma UnflaggedTableShared(i: nat)
      requires Valid() && i < |l1| && !l1[i].copied && l1[i].cluster != 0
      ensures Rc(refcounts, l1[i].cluster) >= 2
    {
      ListedEntry(host, l1, i);
      assert EntryFlagged(host, l1[i], refcounts);
      OldTableCounted(lay, View(), role, l1[i]);
    }

    /** Record the use of a cluster that nothing used before. */
    ghost method FreshRole(c: nat, r: Role)
      requires Fixed() && Shaped(lay, View(), role) && Unused(lay, View(), c)
      requires CacheLive() && c !in cacheOffsets
      modifies this`role
      ensures role == old(role)[c := r] && Shaped(lay, View(), role) && CacheLive()
    {
      UnusedChangeShape(lay, View(), View(), role, role[c := r], {c});
      role := role[c := r];
    }

    /** Point L1 entry `i` at cluster `p` and store the table there. */
    method StoreTable(i: nat, p: nat) returns (es: seq<Entry>)
      requires Fixed() && Shaped(lay, View(), role) && i < |l1|
      requires Unused(lay, View(), p) && p !in cacheOffsets
      requires CacheOK() && CacheLive() && LiveTable(p)
      requires IsTable(host, l1Offset + Quot(i, lay.l2Size), lay.l2Size)
      modifies this`host, this`l1
      ensures View() == WithTable(lay, old(View()), i, p, refcounts)
      ensures IsTable(host, p, lay.l2Size) && es == TableAt(host, p)
      ensures CacheOK() && CacheLive()
    {
      hide AreaTaken, SnapRoot, Clusters, ReadRun, Unused;
      ghost var m, c0 := View(), l1Offset + Quot(i, lay.l2Size);
      var e := l1[i];
      L1SlotStored(lay, m, role, i);
      L1AreaPrivate(lay, m, role, c0);
      ActiveRoot(lay, m, role);
      assert TableOK(lay, host, role, i, e);
      if e.cluster != 0 {
        ListedEntry(host, l1, i);
      }
      l1 := l1[i := Entry(p, true)];
      host := WriteSlot(host, l1Offset, i, Entry(p, true), lay.l2Size);
      es := FreshTable(lay, host, e);
      host := host[p := Table(es)];
    }

    /** A cluster `p` with count zero is unused, and stays so when only counts change. */
    lemma TableFree(m: Image, was: nat, p: nat, rc': map<nat, nat>)
      requires Fixed() && Shaped(lay, m, role) && Counted(lay, m) && Rc(m.refcounts, p) == 0
      requires CountsAre(rc', Replaced(m.refcounts, was, p))
      ensures Shaped(lay, m.(refcounts := rc'), role) && Unused(lay, m.(refcounts := rc'), p) && Rc(rc', p) == 1
    {
      hide Counted, Unused, CountsAre, Replaced, RootOK;
      FreeIsUnused(lay, m, p);
      CountsChanged(m.refcounts, rc', was, p);
      ShapeIgnoresCounts(lay, m, role, rc', p);
    }

    /** Counts of other clusters than the two that changed keep cached tables alive. */
    lemma StillLive(rc: map<nat, nat>, was: nat, p: nat)
      requires CacheOK() && Rc(rc, p) == 0
      requires forall k: nat | k < |cacheOffsets| && cacheOffsets[k] != 0 ::
                 Rc(rc, cacheOffsets[k]) >= 1 && cacheOffsets[k] in role && role[cacheOffsets[k]].L2At?
      requires CountsAre(refcounts, Replaced(rc, was, p)) && (was != 0 ==> Rc(rc, was) >= 2)
      ensures CacheLive() && (p != 0 ==> p !in cacheOffsets)
    {
      forall k: nat | k < |cacheOffsets| && cacheOffsets[k] != 0
        ensures LiveTable(cacheOffsets[k]) && cacheOffsets[k] != p
      {
        assert Rc(refcounts, cacheOffsets[k]) == Rc(Replaced(rc, was, p), cacheOffsets[k]);
      }
    }

    /** Take a cluster for the table of L1 entry `i`; the shared one loses a reference. */
    method ReserveTable(i: nat) returns (p: nat)
      requires Valid() && i < |l1| && !l1[i].copied
      modifies this`refcounts, this`freeClusterIndex, this`role
      ensures role == old(role)[p := L2At(i)] && SixteenBit(refcounts)
      ensures Shaped(lay, View(), role) && Unused(lay, View(), p) && CacheOK() && CacheLive() && LiveTable(p)
      ensures p !in cacheOffsets && IsTable(host, l1Offset + Quot(i, lay.l2Size), lay.l2Size)
      ensures var m' := WithTable(lay, old(View()), i, p, refcounts);
              && Sound(lay, m', role) && SnapshotsKept(lay, old(View()), m')
              && forall s: nat :: GuestSector(lay, m'.host, m'.l1, s) == GuestSector(lay, host, l1, s)
    {
      hide Sound, Shaped, Counted, Flagged, Unused, SnapshotsKept, GuestSector, SixteenBit, CountsAre, Replaced,
           WithTable, IsTable;
      ghost var m, was := View(), l1[i].cluster;
      if l1[i].cluster != 0 {
        UnflaggedTableShared(i);
      }
      SoundParts(lay, m, role);
      L1SlotStored(lay, m, role, i);
      p := ReplaceCluster(l1[i].cluster);
      TableStep(lay, m, role, i, p, refcounts);
      TableFree(m, was, p, refcounts);
      StillLive(m.refcounts, was, p);
      UnusedNotZero(lay, m.(refcounts := refcounts), p);
      assert View() == m.(refcounts := refcounts);
      FreshRole(p, L2At(i));
    }

    /** Put the table `es` of cluster `p` into a cache slot. */
    method CacheTable(p: nat, es: seq<Entry>) returns (slot: nat)
      requires CacheOK() && CacheLive() && p !in cacheOffsets
      requires IsTable(host, p, lay.l2Size) && es == TableAt(host, p) && LiveTable(p)
      modifies this`cacheOffsets, this`cacheCounts, this`cacheTables
      ensures CacheOK() && CacheLive() && slot < L2_CACHE_SIZE && cacheOffsets[slot] == p && cacheTables[slot] == es
    {
      slot := CacheNewEntry();
      CacheFill(slot, p, es);
    }

    /** Allocate a table for L1 entry `i`: empty, or a copy of the shared one. */
    method MakeTable(i: nat) returns (slot: nat)
      requires Valid() && i < |l1| && !l1[i].copied
      modifies this`host, this`refcounts, this`freeClusterIndex, this`l1, this`role,
               this`cacheOffsets, this`cacheCounts, this`cacheTables
      ensures Valid() && |l1| == old(|l1|)
      ensures l1[i].copied && l1[i].cluster != 0
      ensures slot < L2_CACHE_SIZE && cacheOffsets[slot] == l1[i].cluster
      ensures cacheTables[slot] == TableAt(host, l1[i].cluster)
      ensures SnapshotsKept(lay, old(View()), View())
      ensures forall s: nat :: GuestSector(lay, host, l1, s) == old(GuestSector(lay, host, l1, s))
    {
      hide Sound, Shaped, Unused, SnapshotsKept, GuestSector, SixteenBit, CacheOK, CacheLive, IsTable, TableAt;
      ghost var m := View();
      var p := ReserveTable(i);
      ghost var m1 := View();
      UnusedNotZero(lay, m1, p);
      var es := StoreTable(i, p);
      assert View() == WithTable(lay, m, i, p, refcounts) by { SameWithTable(lay, m, m1, i, p); }
      slot := CacheTable(p, es);
    }

    /** Cluster `d` is out of the active root's sight: writing it changes no read. */
    ghost predicate Detached(d: nat)
      requires lay.l2Size > 0
      reads this
    {
      && d != 0 && IsData(host, d, lay.clusterSectors)
      && !Lists(host, l1, d) && d !in cacheOffsets
      && !InArea(l1Offset, Clusters(|l1|, lay.l2Size), d)
    }

    /** Overwrite sectors of a detached cluster. */
    method WriteDetached(d: nat, k: nat, part: seq<Sector>)
      requires ReadReady() && Detached(d) && k + |part| <= lay.clusterSectors
      modifies this`host
      ensures ReadReady() && Detached(d)
      ensures host == old(host)[d := Data(Overlay(old(host)[d].sectors, k, part))]
      ensures forall s: nat :: GuestSector(lay, host, l1, s) == old(GuestSector(lay, host, l1, s))
    {
      ghost var h, r := host, Root(l1Offset, l1);
      host := host[d := Data(Overlay(host[d].sectors, k, part))];
      RootUntouched(lay, h, host, role, role, r, {d});
      DetachedStays(h, host, l1, d);
    }

    /**
     * Copy sectors `nStart` to `nEnd` of guest cluster `g` into the new cluster
     * `d`.  The table in use keeps its place in the cache.
     */
    method CopySectors(g: nat, d: nat, nStart: nat, nEnd: nat)
      requires ReadReady() && Detached(d) && nEnd <= lay.clusterSectors && Cached(g)
      modifies this`host, this`cacheOffsets, this`cacheCounts, this`cacheTables
      ensures ReadReady() && Detached(d)
      ensures cacheOffsets == old(cacheOffsets) && cacheTables == old(cacheTables)
      ensures host == old(host)[d := host[d]]
      ensures forall x: nat | x < lay.clusterSectors ::
                host[d].sectors[x] ==
                  if nStart <= x < nEnd
                  then lay.cipher.enc(FirstSector(g) + x, old(GuestSector(lay, host, l1, FirstSector(g) + x)))
                  else old(host)[d].sectors[x]
      ensures forall s: nat :: GuestSector(lay, host, l1, s) == old(GuestSector(lay, host, l1, s))
    {
      hide FirstSector, RootOK, GuestSector, Lists, Quot, Rem, Inverts;
      if nEnd <= nStart {
        return;
      }
      var s, n := FirstSector(g) + nStart, nEnd - nStart;
      SectorsOf(g, nStart);
      SectorsOf(g, nEnd - 1);
      assert s + n - 1 == FirstSector(g) + (nEnd - 1);
      assert CachedAll(g, g);
      var buf := Read(s, n);
      var part := seq(n, x requires 0 <= x < n && n <= |buf| => lay.cipher.enc(s + x, buf[x]));
      WriteDetached(d, nStart, part);
    }

    /** What the sectors of cluster `d` read as before anything is written to it. */
    function AsSectors(h: Host, d: nat): (secs: seq<Sector>)
      requires |junk| == lay.clusterSectors
      ensures |secs| == lay.clusterSectors
    {
      if IsData(h, d, lay.clusterSectors) then h[d].sectors else junk
    }

    /** The active root owns guest cluster `g` alone: both its entries are COPIED. */
    ghost predicate Owns(g: nat)
      requires lay.l2Size > 0
      reads this
    {
      var i, j := Quot(g, lay.l2Size), Rem(g, lay.l2Size);
      && i < |l1| && l1[i].copied && l1[i].cluster != 0
      && IsTable(host, l1[i].cluster, lay.l2Size)
      && TableAt(host, l1[i].cluster)[j].copied
    }

    /** Claim the fresh cluster `d`: from now on its bytes count as sectors. */
    method ClaimData(d: nat, i: nat, j: nat)
      requires Fixed() && Shaped(lay, View(), role) && Unused(lay, View(), d)
      requires CacheOK() && CacheLive() && d !in cacheOffsets && ReadReady()
      modifies this`host, this`role
      ensures role == old(role)[d := DataAt(i, j)] && host == old(host)[d := Data(AsSectors(old(host), d))]
      ensures ReadReady() && Detached(d)
      ensures forall s: nat :: GuestSector(lay, host, l1, s) == old(GuestSector(lay, host, l1, s))
    {
      ghost var h, r, role0 := host, Root(l1Offset, l1), role;
      UnusedPrivate(lay, View(), d);
      host := host[d := Data(AsSectors(host, d))];
      role := role[d := DataAt(i, j)];
      RootUntouched(lay, h, host, role0, role, r, {d});
      DetachedStays(h, host, l1, d);
    }

    lemma UnflaggedDataShared(i: nat, j: nat)
      requires Valid() && i < |l1| && l1[i].cluster != 0 && j < |TableAt(host, l1[i].cluster)|
      requires var f := TableAt(host, l1[i].cluster)[j]; !f.copied && f.cluster != 0
      ensures var c := TableAt(host, l1[i].cluster)[j].cluster;
              Rc(refcounts, c) >= 2 && c in role && role[c] == DataAt(i, j)
    {
      ListedEntry(host, l1, i);
      assert EntryFlagged(host, l1[i], refcounts);
      OldTableCounted(lay, View(), role, TableAt(host, l1[i].cluster)[j]);
      ActiveRoot(lay, View(), role);
      assert TableOK(lay, host, role, i, l1[i]);
      assert DataOK(lay, host, role, i, j, TableAt(host, l1[i].cluster)[j]);
    }

    /** A fresh cluster in place of data cluster `was`; tables stay live. */
    method SwapData(was: nat) returns (d: nat)
      requires Valid()
      requires was != 0 ==> Rc(refcounts, was) >= 2 && was in role && role[was].DataAt?
      modifies this`refcounts, this`freeClusterIndex
      ensures Rc(old(refcounts), d) == 0 && Unused(lay, old(View()), d)
      ensures CountsAre(refcounts, Replaced(old(refcounts), was, d)) && SixteenBit(refcounts)
      ensures Shaped(lay, View(), role) && Unused(lay, View(), d)
      ensures ReadReady() && d !in cacheOffsets
    {
      hide Sound, Shaped, Counted, Flagged, Unused, SixteenBit, CountsAre, Replaced;
      ghost var m := View();
      SoundParts(lay, m, role);
      ValidReads();
      d := ReplaceCluster(was);
      FreeIsUnused(lay, m, d);
      CountsChanged(m.refcounts, refcounts, was, d);
      ShapeIgnoresCounts(lay, m, role, refcounts, d);
      assert View() == m.(refcounts := refcounts);
      forall i: nat | i < |l1| && l1[i].cluster != 0
        ensures Rc(refcounts, l1[i].cluster) >= 1
      {
        assert TableOK(lay, host, role, i, l1[i]);
      }
    }

    /**
     * Allocate a data cluster in place of `was` for guest cluster `g` and copy
     * into it all sectors that the coming write to `nStart .. nEnd` leaves alone.
     */
    method PrepareData(was: nat, g: nat, nStart: nat, nEnd: nat) returns (d: nat)
      requires Valid() && Cached(g) && nStart < nEnd <= lay.clusterSectors
      requires was != 0 ==> Rc(refcounts, was) >= 2 && was in role && role[was].DataAt?
      modifies this`host, this`refcounts, this`freeClusterIndex, this`role,
               this`cacheOffsets, this`cacheCounts, this`cacheTables
      ensures Rc(old(refcounts), d) == 0 && Unused(lay, old(View()), d)
      ensures CountsAre(refcounts, Replaced(old(refcounts), was, d)) && SixteenBit(refcounts)
      ensures role == old(role)[d := DataAt(Quot(g, lay.l2Size), Rem(g, lay.l2Size))]
      ensures ReadReady() && Detached(d)
      ensures cacheOffsets == old(cacheOffsets) && cacheTables == old(cacheTables)
      ensures host == old(host)[d := host[d]]
      ensures forall x: nat | x < nStart || nEnd <= x < lay.clusterSectors ::
                host[d].sectors[x] ==
                  lay.cipher.enc(FirstSector(g) + x, old(GuestSector(lay, host, l1, FirstSector(g) + x)))
    {
      hide Sound, Shaped, Unused, SixteenBit, CountsAre, RootOK, GuestSector, Lists, FirstSector;
      d := SwapData(was);
      ClaimData(d, Quot(g, lay.l2Size), Rem(g, lay.l2Size));
      if nEnd - nStart < lay.clusterSectors {
        CopySectors(g, d, 0, nStart);
        CopySectors(g, d, nEnd, lay.clusterSectors);
      }
    }

    /** The sectors of guest cluster `g` from `nStart` to `nEnd`: what a write is about to fill. */
    ghost predicate InWindow(s: nat, g: nat, nStart: nat, nEnd: nat)
      requires lay.clusterSectors > 0
    {
      Quot(s, lay.clusterSectors) == g && nStart <= Rem(s, lay.clusterSectors) < nEnd
    }

    /** Enter cluster `d` at entry `j` of the table in `slot`, in the cache and in the file. */
    method EnterData(slot: nat, p: nat, j: nat, d: nat)
      requires CacheOK() && CacheLive() && slot < L2_CACHE_SIZE && j < lay.l2Size
      requires p != 0 && cacheOffsets[slot] == p
      modifies this`host, this`cacheTables
      ensures CacheOK() && CacheLive()
      ensures host == old(host)[p := Table(TableAt(old(host), p)[j := Entry(d, true)])]
      ensures IsTable(host, p, lay.l2Size)
    {
      var e := Entry(d, true);
      cacheTables := cacheTables[slot := cacheTables[slot][j := e]];
      host := host[p := Table(TableAt(host, p)[j := e])];
    }

    /** After the new cluster is entered, only the write window may read differently. */
    lemma WindowOnly(m: Image, h': Host, g: nat, nStart: nat, nEnd: nat, d: nat, secs: seq<Sector>, s: nat)
      requires Fixed() && |secs| == lay.clusterSectors && nStart <= nEnd <= lay.clusterSectors
      requires forall x: nat | x < nStart || nEnd <= x < lay.clusterSectors ::
                 secs[x] == lay.cipher.enc(FirstSector(g) + x, GuestSector(lay, m.host, m.l1, FirstSector(g) + x))
      requires GuestSector(lay, h', m.l1, s) ==
                 if AtPosition(lay, s, Quot(g, lay.l2Size), Rem(g, lay.l2Size))
                 then lay.cipher.dec(s, secs[Rem(s, lay.clusterSectors)])
                 else GuestSector(lay, m.host, m.l1, s)
      ensures InWindow(s, g, nStart, nEnd) || GuestSector(lay, h', m.l1, s) == GuestSector(lay, m.host, m.l1, s)
    {
      hide GuestSector, FirstSector, Quot, Rem;
      if AtPosition(lay, s, Quot(g, lay.l2Size), Rem(g, lay.l2Size)) {
        QuotRemInjective(Quot(s, lay.clusterSectors), g, lay.l2Size);
        SectorSplit(s);
      }
    }

    /** A data cluster of its own for guest cluster `g`, whose table is in `slot`. */
    method MakeData(slot: nat, g: nat, nStart: nat, nEnd: nat) returns (d: nat)
      requires Valid() && nStart < nEnd <= lay.clusterSectors && slot < L2_CACHE_SIZE
      requires var i, j := Quot(g, lay.l2Size), Rem(g, lay.l2Size);
               && i < |l1| && l1[i].copied && l1[i].cluster != 0 && cacheOffsets[slot] == l1[i].cluster
               && IsTable(host, l1[i].cluster, lay.l2Size)
               && !TableAt(host, l1[i].cluster)[j].copied
      modifies this`host, this`refcounts, this`freeClusterIndex, this`role,
               this`cacheOffsets, this`cacheCounts, this`cacheTables
      ensures Valid() && Owns(g) && d != 0 && d == Lookup(lay, host, l1, g)
      ensures SnapshotsKept(lay, old(View()), View())
      ensures forall s: nat ::
                InWindow(s, g, nStart, nEnd) || GuestSector(lay, host, l1, s) == old(GuestSector(lay, host, l1, s))
    {
      hide Sound, Shaped, Counted, Flagged, Unused, SixteenBit, CountsAre, RootOK, GuestSector, Lists, SnapshotsKept,
           Private, FirstSector, Quot, Rem, Inverts;
      ghost var m, role0 := View(), role;
      var i, j := Quot(g, lay.l2Size), Rem(g, lay.l2Size);
      var p := l1[i].cluster;
      var was := cacheTables[slot][j].cluster;
      if was != 0 {
        UnflaggedDataShared(i, j);
      }
      d := PrepareData(was, g, nStart, nEnd);
      ghost var secs := host[d].sectors;
      PutPrivate(lay, m, role0, i, j, d);
      EnterData(slot, p, j, d);
      assert DataPut(lay, m.host, host, m.l1, i, j, d, secs);
      PutStep(lay, m, View(), role0, i, j, d, secs);
      forall s: nat
        ensures InWindow(s, g, nStart, nEnd) || GuestSector(lay, host, l1, s) == GuestSector(lay, m.host, m.l1, s)
      {
        WindowOnly(m, host, g, nStart, nEnd, d, secs, s);
      }
    }

    /**
     * Move the L1 table to a larger, freshly allocated area if it has fewer than
     * `minSize` entries.
     */
    method GrowL1(minSize: nat) returns (ghost k: nat, ghost n: nat)
      requires lay.l2Size > 0 && SixteenBit(refcounts) && |l1| > 0
      requires forall c: nat | InArea(l1Offset, Clusters(|l1|, lay.l2Size), c) :: Rc(refcounts, c) >= 1
      modifies this`host, this`refcounts, this`freeClusterIndex, this`l1, this`l1Offset
      ensures SixteenBit(refcounts)
      ensures minSize <= |l1| == GrownSize(old(|l1|), minSize)
      ensures minSize <= old(|l1|) ==>
                && host == old(host) && refcounts == old(refcounts) && l1 == old(l1) && l1Offset == old(l1Offset)
      ensures minSize > old(|l1|) ==>
                && l1 == Longer(old(l1), k) && n == Clusters(|l1|, lay.l2Size)
                && host == WriteRun(old(host), l1Offset, l1, lay.l2Size)
                && FreeRun(old(refcounts), l1Offset, n)
                && forall c: nat ::
                     Rc(refcounts, c) + AreaRefs(old(l1Offset), Clusters(old(|l1|), lay.l2Size), c)
                     == Rc(old(refcounts), c) + AreaRefs(l1Offset, n, c)
    {
      k, n := 0, 0;
      if minSize <= |l1| {
        return;
      }
      var size := |l1|;
      while minSize > size
        invariant size >= |l1| && GrownSize(size, minSize) == GrownSize(|l1|, minSize)
        decreases minSize - size
      {
        size := (size * 3 + 1) / 2;
      }
      var t := Longer(l1, size - |l1|);
      k, n := size - |l1|, Clusters(size, lay.l2Size);
      var off := AllocClusters(Clusters(size, lay.l2Size));
      host := WriteRun(host, off, t, lay.l2Size);
      UpdateRefcount(l1Offset, Clusters(|l1|, lay.l2Size), -1);
      l1Offset, l1 := off, t;
    }

    lemma ActiveAreaCounted()
      requires Valid()
      ensures |l1| > 0
      ensures forall c: nat | InArea(l1Offset, Clusters(|l1|, lay.l2Size), c) :: Rc(refcounts, c) >= 1
    {
      ActiveRoot(lay, View(), role);
      var rs := Roots(lay, View());
      assert rs[0] == Root(l1Offset, l1);
      forall c: nat | InArea(l1Offset, Clusters(|l1|, lay.l2Size), c)
        ensures Rc(refcounts, c) >= 1
      {
        RootsRefsAtLeast(host, rs, 0, |rs|, c, lay.l2Size);
        assert Rc(refcounts, c) == Refs(lay, View(), c);
      }
    }

    /** The cache as it was for the image `m`. */
    ghost predicate CacheFor(m: Image, role0: Roles)
      reads this
    {
      && CacheShape()
      && (forall k: nat | k < L2_CACHE_SIZE && cacheOffsets[k] != 0 ::
            && IsTable(m.host, cacheOffsets[k], lay.l2Size) && cacheTables[k] == TableAt(m.host, cacheOffsets[k])
            && Rc(m.refcounts, cacheOffsets[k]) >= 1 && cacheOffsets[k] in role0 && role0[cacheOffsets[k]].L2At?)
      && (forall k: nat, x: nat | k < x < L2_CACHE_SIZE && cacheOffsets[k] != 0 ::
            cacheOffsets[k] != cacheOffsets[x])
    }

    /** Cached tables are unaffected when the L1 table moves to clusters without count. */
    lemma CacheApart(m: Image, role0: Roles, n: nat)
      requires Fixed() && Shaped(lay, m, role0) && CacheFor(m, role0)
      requires AgreeOutside(m.host, host, AreaSet(l1Offset, n)) && FreeRun(m.refcounts, l1Offset, n)
      requires role == Assigned(role0, AreaSet(l1Offset, n), L1Area(l1Offset))
      requires forall c: nat :: Rc(refcounts, c) + AreaRefs(m.l1Offset, Clusters(|m.l1|, lay.l2Size), c)
                             == Rc(m.refcounts, c) + AreaRefs(l1Offset, n, c)
      ensures CacheOK() && CacheLive()
    {
      ActiveRoot(lay, m, role0);
      forall k: nat | k < L2_CACHE_SIZE && cacheOffsets[k] != 0
        ensures cacheOffsets[k] !in AreaSet(l1Offset, n) && LiveTable(cacheOffsets[k])
      {
      }
    }

    lemma GrownFacts(m: Image, h': Host, rc': map<nat, nat>, k: nat, off: nat, n: nat)
      requires Fixed() && h' == WriteRun(m.host, off, Longer(m.l1, k), lay.l2Size)
      requires n == Clusters(|m.l1| + k, lay.l2Size) && FreeRun(m.refcounts, off, n)
      requires forall c: nat :: Rc(rc', c) + AreaRefs(m.l1Offset, Clusters(|m.l1|, lay.l2Size), c)
                             == Rc(m.refcounts, c) + AreaRefs(off, n, c)
      ensures Grown(lay, m, m.(host := h', refcounts := rc', l1Offset := off, l1 := Longer(m.l1, k)), k, off, n)
    {
      var t := Longer(m.l1, k);
      ReadWritten(m.host, off, t, lay.l2Size);
      forall c: nat | InArea(off, n, c)
        ensures IsTable(h', c, lay.l2Size)
      {
        assert h'[c] == Table(ChunkOf(TableAt(m.host, c), t, c - off, lay.l2Size));
      }
    }

    /** Make sure the L1 table has an entry `i`; no disk changes. */
    method ReachEntry(i: nat)
      requires Valid()
      modifies this`host, this`refcounts, this`freeClusterIndex, this`l1, this`l1Offset, this`role
      ensures Valid() && i < |l1| == GrownSize(old(|l1|), i + 1)
      ensures SnapshotsKept(lay, old(View()), View())
      ensures forall s: nat :: GuestSector(lay, host, l1, s) == old(GuestSector(lay, host, l1, s))
    {
      hide Sound, Shaped, Counted, Flagged, RootOK, GuestSector, WriteRun, SixteenBit;
      if i < |l1| {
        return;
      }
      hide SnapshotsKept, Grown, GrownSize;
      ghost var m, role0 := View(), role;
      SoundParts(lay, m, role);
      ActiveAreaCounted();
      assert CacheFor(m, role0);
      ghost var k, n := GrowL1(i + 1);
      GrownFacts(m, host, refcounts, k, l1Offset, n);
      GrowStep(lay, m, View(), role, k, l1Offset, n);
      role := Assigned(role, AreaSet(l1Offset, n), L1Area(l1Offset));
      CacheApart(m, role0, n);
    }

    /**
     * Make the active root the only owner of guest cluster `g`.  Snapshots keep
     * their disks; on the active disk at most the coming write window changes.
     */
    method AllocCluster(g: nat, nStart: nat, nEnd: nat) returns (d: nat)
      requires Valid() && nStart < nEnd <= lay.clusterSectors
      modifies this`host, this`refcounts, this`freeClusterIndex, this`l1, this`l1Offset, this`role,
               this`cacheOffsets, this`cacheCounts, this`cacheTables
      ensures Valid() && |l1| == GrownSize(old(|l1|), Quot(g, lay.l2Size) + 1)
      ensures Owns(g) && d != 0 && d == Lookup(lay, host, l1, g)
      ensures SnapshotsKept(lay, old(View()), View())
      ensures forall s: nat ::
                InWindow(s, g, nStart, nEnd) || GuestSector(lay, host, l1, s) == old(GuestSector(lay, host, l1, s))
    {
      hide Sound, Flagged, SixteenBit, RootOK, GuestSector, InWindow;
      var i, j := Quot(g, lay.l2Size), Rem(g, lay.l2Size);
      ReachEntry(i);
      var slot := EnsureTable(i);
      EntryShape(i, j);
      var f := cacheTables[slot][j];
      if f.copied {
        d := f.cluster;
      } else {
        d := MakeData(slot, g, nStart, nEnd);
      }
    }

    lemma EntryShape(i: nat, j: nat)
      requires Valid() && i < |l1| && j < lay.l2Size && l1[i].cluster != 0
      ensures IsTable(host, l1[i].cluster, lay.l2Size)
      ensures TableAt(host, l1[i].cluster)[j].copied ==> TableAt(host, l1[i].cluster)[j].cluster != 0
    {
      ActiveRoot(lay, View(), role);
      assert TableOK(lay, host, role, i, l1[i]);
      assert DataOK(lay, host, role, i, j, TableAt(host, l1[i].cluster)[j]);
    }

    /** The effect of writing `part` at `s` on the disk that `before` describes. */
    ghost predicate Wrote(before: Image, s: nat, part: seq<Sector>)
      requires lay.l2Size > 0 && lay.clusterSectors > 0
      reads this
    {
      forall x: nat ::
        GuestSector(lay, host, l1, x) ==
          if s <= x < s + |part| then part[x - s] else GuestSector(lay, before.host, before.l1, x)
    }

    lemma OwnedData(g: nat)
      requires Valid() && Owns(g)
      ensures var i, j, d := Quot(g, lay.l2Size), Rem(g, lay.l2Size), Lookup(lay, host, l1, g);
              && TableAt(host, l1[i].cluster)[j] == Entry(d, true) && d != 0
              && IsData(host, d, lay.clusterSectors) && d in role && role[d] == DataAt(i, j)
              && CanPut(lay, View(), role, i, j, d) && d !in cacheOffsets
    {
      var i, j := Quot(g, lay.l2Size), Rem(g, lay.l2Size);
      EntryShape(i, j);
      ActiveRoot(lay, View(), role);
      assert TableOK(lay, host, role, i, l1[i]);
      assert DataOK(lay, host, role, i, j, TableAt(host, l1[i].cluster)[j]);
    }

    lemma InPlaceView(m: Image, h': Host, s: nat, part: seq<Sector>, g: nat, d: nat, secs: seq<Sector>, x: nat)
      requires Fixed() && g == Quot(s, lay.clusterSectors) && d != 0 && d == Lookup(lay, m.host, m.l1, g)
      requires IsData(m.host, d, lay.clusterSectors)
      requires Rem(s, lay.clusterSectors) + |part| <= lay.clusterSectors
      requires |secs| == lay.clusterSectors
      requires forall k: nat | k < lay.clusterSectors ::
                 secs[k] == var k0 := Rem(s, lay.clusterSectors);
                            if k0 <= k < k0 + |part| then lay.cipher.enc(s + k - k0, part[k - k0])
                            else m.host[d].sectors[k]
      requires GuestSector(lay, h', m.l1, x) ==
                 if AtPosition(lay, x, Quot(g, lay.l2Size), Rem(g, lay.l2Size))
                 then lay.cipher.dec(x, secs[Rem(x, lay.clusterSectors)])
                 else GuestSector(lay, m.host, m.l1, x)
      ensures GuestSector(lay, h', m.l1, x) ==
                if s <= x < s + |part| then part[x - s] else GuestSector(lay, m.host, m.l1, x)
    {
      hide FirstSector, Quot, Rem;
      SectorSplit(s);
      SectorSplit(x);
      if AtPosition(lay, x, Quot(g, lay.l2Size), Rem(g, lay.l2Size)) {
        QuotRemInjective(Quot(x, lay.clusterSectors), g, lay.l2Size);
      } else if s <= x < s + |part| {
        QuotRemPlus(s, x - s, lay.clusterSectors);
      }
    }

    /** New sectors in the cluster that position (i, j) owns. */
    lemma PutInPlace(m: Image, h': Host, i: nat, j: nat, d: nat, secs: seq<Sector>)
      requires CanPut(lay, m, role, i, j, d) && |secs| == lay.clusterSectors && h' == m.host[d := Data(secs)]
      requires d != 0 && TableAt(m.host, m.l1[i].cluster)[j] == Entry(d, true) && IsData(m.host, d, lay.clusterSectors)
      requires d in role && role[d] == DataAt(i, j)
      ensures Sound(lay, m.(host := h'), role) && SnapshotsKept(lay, m, m.(host := h'))
      ensures forall x: nat ::
                GuestSector(lay, h', m.l1, x) ==
                  if AtPosition(lay, x, i, j) then lay.cipher.dec(x, secs[Rem(x, lay.clusterSectors)])
                  else GuestSector(lay, m.host, m.l1, x)
    {
      hide Sound, GuestSector, SnapshotsKept, Quot, Rem, Inverts;
      assert DataPut(lay, m.host, h', m.l1, i, j, d, secs);
      assert role[d := DataAt(i, j)] == role;
      PutStep(lay, m, m.(host := h'), role, i, j, d, secs);
    }

    /** Overwrite sectors of an owned cluster in place. */
    method WriteOwned(s: nat, part: seq<Sector>, d: nat)
      requires Valid() && Owns(Quot(s, lay.clusterSectors)) && d == Lookup(lay, host, l1, Quot(s, lay.clusterSectors))
      requires Rem(s, lay.clusterSectors) + |part| <= lay.clusterSectors
      modifies this`host
      ensures Valid() && SnapshotsKept(lay, old(View()), View()) && Wrote(old(View()), s, part)
    {
      hide Sound, SixteenBit, GuestSector, Lists, SnapshotsKept, CanPut, Quot, Rem, Inverts, Lookup, AtPosition, Owns,
           Overlay;
      ghost var m := View();
      ghost var g := Quot(s, lay.clusterSectors);
      ghost var i, j := Quot(g, lay.l2Size), Rem(g, lay.l2Size);
      OwnedData(g);
      var k := Rem(s, lay.clusterSectors);
      var n := |part|;
      var enc := seq(n, x requires 0 <= x < n && n <= |part| => lay.cipher.enc(s + x, part[x]));
      var secs := Overlay(host[d].sectors, k, enc);
      host := host[d := Data(secs)];
      PutInPlace(m, host, i, j, d, secs);
      assert View() == m.(host := host);
      forall x: nat
        ensures GuestSector(lay, host, l1, x) ==
                if s <= x < s + |part| then part[x - s] else GuestSector(lay, m.host, m.l1, x)
      {
        InPlaceView(m, host, s, part, g, d, secs, x);
      }
    }

    lemma WindowWritten(m: Image, m1: Image, s: nat, part: seq<Sector>)
      requires Fixed() && Rem(s, lay.clusterSectors) + |part| <= lay.clusterSectors
      requires forall x: nat ::
                 || InWindow(x, Quot(s, lay.clusterSectors), Rem(s, lay.clusterSectors),
                             Rem(s, lay.clusterSectors) + |part|)
                 || GuestSector(lay, m1.host, m1.l1, x) == GuestSector(lay, m.host, m.l1, x)
      requires Wrote(m1, s, part)
      ensures Wrote(m, s, part)
    {
      hide GuestSector, FirstSector, Quot, Rem;
      SectorSplit(s);
      forall x: nat
        ensures GuestSector(lay, host, l1, x) ==
                if s <= x < s + |part| then part[x - s] else GuestSector(lay, m.host, m.l1, x)
      {
        SectorSplit(x);
      }
    }

    /** Write sectors that lie within one cluster. */
    method WritePart(s: nat, part: seq<Sector>)
      requires Valid() && 0 < |part| && Rem(s, lay.clusterSectors) + |part| <= lay.clusterSectors
      modifies this`host, this`refcounts, this`freeClusterIndex, this`l1, this`l1Offset, this`role,
               this`cacheOffsets, this`cacheCounts, this`cacheTables
      ensures Valid() && SnapshotsKept(lay, old(View()), View()) && Wrote(old(View()), s, part)
      ensures |l1| == GrownSize(old(|l1|), Quot(Quot(s, lay.clusterSectors), lay.l2Size) + 1)
    {
      hide Sound, Flagged, SixteenBit, RootOK, GuestSector, InWindow, Quot, Rem, Wrote, Owns, GrownSize;
      ghost var m := View();
      var k := Rem(s, lay.clusterSectors);
      var d := AllocCluster(Quot(s, lay.clusterSectors), k, k + |part|);
      ghost var m1 := View();
      WriteOwned(s, part, d);
      WindowWritten(m, m1, s, part);
    }

    lemma WroteMore(m: Image, m1: Image, s: nat, a: seq<Sector>, b: seq<Sector>)
      requires Fixed() && Wrote(m1, s + |a|, b)
      requires forall x: nat :: GuestSector(lay, m1.host, m1.l1, x) ==
                 if s <= x < s + |a| then a[x - s] else GuestSector(lay, m.host, m.l1, x)
      ensures Wrote(m, s, a + b)
    {
      hide GuestSector;
    }

    function Geo(): (g: Geometry) {
      Geometry(lay.clusterSectors, lay.l2Size)
    }

    lemma ReachGrows(n: nat, s: nat, done: nat, len: nat)
      requires Fixed() && n > 0 && len > 0
      requires Rem(s + done, lay.clusterSectors) + len <= lay.clusterSectors
      ensures var before := if done == 0 then n else GrownSize(n, L1Index(Geo(), s + done - 1) + 1);
              GrownSize(before, L1Index(Geo(), s + done) + 1) == GrownSize(n, L1Index(Geo(), s + done + len - 1) + 1)
    {
      hide GrownSize, Quot, Rem;
      QuotRemPlus(s + done, len - 1, lay.clusterSectors);
      assert s + done + (len - 1) == s + done + len - 1;
      if done > 0 {
        QuotMonotone(s + done - 1, s + done, lay.clusterSectors);
        QuotMonotone(Quot(s + done - 1, lay.clusterSectors), Quot(s + done, lay.clusterSectors), lay.l2Size);
        GrownTwice(n, L1Index(Geo(), s + done - 1) + 1, L1Index(Geo(), s + done) + 1);
      }
    }

    /**
     * Write `buf` to the guest sectors from `s` on: the active disk changes there
     * and nowhere else, and no snapshot changes.
     */
    method Write(s: nat, buf: seq<Sector>)
      requires Valid()
      modifies this`host, this`refcounts, this`freeClusterIndex, this`l1, this`l1Offset, this`role,
               this`cacheOffsets, this`cacheCounts, this`cacheTables
      ensures Valid() && SnapshotsKept(lay, old(View()), View()) && Wrote(old(View()), s, buf)
      ensures |l1| == if |buf| == 0 then old(|l1|) else GrownSize(old(|l1|), L1Index(Geo(), s + |buf| - 1) + 1)
    {
      hide Sound, Flagged, SixteenBit, RootOK, GuestSector, CacheOK, CacheLive, GrownSize, Quot, Rem;
      ghost var m := View();
      ActiveAreaCounted();
      var done := 0;
      while done < |buf|
        invariant done <= |buf|
        invariant Valid() && SnapshotsKept(lay, m, View()) && Wrote(m, s, buf[..done])
        invariant |l1| == if done == 0 then |m.l1| else GrownSize(|m.l1|, L1Index(Geo(), s + done - 1) + 1)
      {
        var n := lay.clusterSectors - Rem(s + done, lay.clusterSectors);
        if n > |buf| - done {
          n := |buf| - done;
        }
        ghost var m1 := View();
        ReachGrows(|m.l1|, s, done, n);
        WritePart(s + done, buf[done..done + n]);
        WroteMore(m, m1, s, buf[..done], buf[done..done + n]);
        assert buf[..done] + buf[done..done + n] == buf[..done + n];
        done := done + n;
      }
      assert buf[..done] == buf;
    }

    // -------------------------------------------------------------------------
    // Snapshots
    // -------------------------------------------------------------------------

    /** One table entry: adjust the count of its cluster and renew its COPIED flag. */
    method CountEntry(e: Entry, addend: int) returns (e': Entry)
      requires addend == 1 || addend == -1 || addend == 0
      requires e.cluster == 0 ==> e == NONE
      requires SixteenBit(refcounts)
      modifies this`refcounts, this`freeClusterIndex
      ensures SamePointer(e, e') && FlagOK(refcounts, e')
      ensures forall c: nat :: Rc(refcounts, c) == Clamp(Rc(old(refcounts), c) + Scale(addend, Hit(e, c)))
    {
      e' := e;
      if e != NONE {
        var r: int;
        if addend != 0 {
          r := UpdateClusterRefcount(e.cluster, addend);
        } else {
          r := Rc(refcounts, e.cluster);
        }
        e' := Entry(e.cluster, r == 1);
      }
    }

    /** One L2 table: adjust the counts of its clusters and renew its COPIED flags. */
    method CountTable(es: seq<Entry>, addend: int) returns (es': seq<Entry>)
      requires addend == 1 || addend == -1 || addend == 0
      requires Distinct(es) && forall x: nat | x < |es| && es[x].cluster == 0 :: es[x] == NONE
      requires SixteenBit(refcounts)
      modifies this`refcounts, this`freeClusterIndex
      ensures SamePointers(es, es')
      ensures forall c: nat :: Rc(refcounts, c) == Clamp(Rc(old(refcounts), c) + Scale(addend, TableRefs(es, |es|, c)))
      ensures forall x: nat | x < |es| :: FlagOK(refcounts, es'[x])
    {
      hide Clamp, Scale, FlagOK;
      es' := [];
      CountNone(refcounts, es, addend);
      while |es'| < |es|
        invariant |es'| <= |es| && forall x: nat | x < |es'| :: SamePointer(es[x], es'[x])
        invariant forall c: nat ::
                    Rc(refcounts, c) == Clamp(Rc(old(refcounts), c) + Scale(addend, TableRefs(es, |es'|, c)))
        invariant forall x: nat | x < |es'| :: FlagOK(refcounts, es'[x])
      {
        var j := |es'|;
        ghost var rc := refcounts;
        var e := CountEntry(es[j], addend);
        forall c: nat
          ensures Rc(refcounts, c) == Clamp(Rc(old(refcounts), c) + Scale(addend, TableRefs(es, j + 1, c)))
        {
          ClampTwice(Rc(old(refcounts), c), addend, TableRefs(es, j, c), Hit(es[j], c));
        }
        forall x: nat | x < j
          ensures FlagOK(refcounts, es'[x])
        {
          assert SamePointer(es[x], es'[x]);
          NotHit(rc, refcounts, es[j], es'[x], addend);
        }
        es' := es' + [e];
      }
    }

    lemma CountNone(rc: map<nat, nat>, es: seq<Entry>, addend: int)
      requires SixteenBit(rc)
      ensures forall c: nat :: Rc(rc, c) == Clamp(Rc(rc, c) + Scale(addend, TableRefs(es, 0, c)))
    {
    }

    /** Counting one entry leaves the flag of another one right. */
    lemma NotHit(rc: map<nat, nat>, rc': map<nat, nat>, e: Entry, f: Entry, addend: int)
      requires SixteenBit(rc) && (f.cluster != 0 ==> f.cluster != e.cluster) && FlagOK(rc, f)
      requires forall c: nat :: Rc(rc', c) == Clamp(Rc(rc, c) + Scale(addend, Hit(e, c)))
      ensures FlagOK(rc', f)
    {
    }

    lemma TableDistinct(i: nat, e: Entry)
      requires e.cluster != 0 && TableOK(lay, host, role, i, e)
      ensures Distinct(TableAt(host, e.cluster))
      ensures forall x: nat | x < lay.l2Size && TableAt(host, e.cluster)[x].cluster == 0 ::
                TableAt(host, e.cluster)[x] == NONE
      ensures forall x: nat | x < lay.l2Size :: TableAt(host, e.cluster)[x].cluster != e.cluster
    {
      forall x: nat | x < lay.l2Size
        ensures DataOK(lay, host, role, i, x, TableAt(host, e.cluster)[x])
      {
      }
    }

    /** What the two halves of a pass over an entry amount to. */
    lemma EntryDone(h: Host, h': Host, rc: map<nat, nat>, rc1: map<nat, nat>, rc': map<nat, nat>, e: Entry, e': Entry,
                    es': seq<Entry>, addend: int)
      requires e.cluster != 0 && e.cluster in h && h[e.cluster].Table? && SamePointer(e, e') && FlagOK(rc', e')
      requires var es := TableAt(h, e.cluster);
               && SamePointers(es, es') && h' == (if es' != es then h[e.cluster := Table(es')] else h)
               && (forall c: nat :: Rc(rc1, c) == Clamp(Rc(rc, c) + Scale(addend, TableRefs(es, |es|, c))))
               && (forall x: nat | x < |es| :: FlagOK(rc1, es'[x]) && es[x].cluster != e.cluster)
      requires forall c: nat :: Rc(rc', c) == Clamp(Rc(rc1, c) + Scale(addend, Hit(e, c)))
      requires SixteenBit(rc) && (addend == 1 || addend == -1 || addend == 0)
      ensures EntryPassed(h, h', rc, rc', e, e', addend)
    {
      hide TableRefs;
      var es := TableAt(h, e.cluster);
      forall x: nat | x < |es|
        ensures FlagOK(rc', es'[x])
      {
        assert SamePointer(es[x], es'[x]);
      }
    }

    lemma NothingPassed(h: Host, rc: map<nat, nat>, e: Entry, addend: int)
      requires e == NONE && SixteenBit(rc)
      ensures EntryPassed(h, h, rc, rc, e, e, addend)
    {
    }

    /** One L1 entry: the clusters of its L2 table first, then the table itself. */
    method PassEntry(i: nat, e: Entry, addend: int) returns (e': Entry)
      requires addend == 1 || addend == -1 || addend == 0
      requires TableOK(lay, host, role, i, e) && SixteenBit(refcounts)
      modifies this`host, this`refcounts, this`freeClusterIndex
      ensures EntryPassed(old(host), host, old(refcounts), refcounts, e, e', addend)
    {
      if e == NONE {
        NothingPassed(host, refcounts, e, addend);
        return e;
      }
      hide EntryPassed, TableRefs, SamePointers, Distinct, FlagOK, DataOK, Clamp, Scale, Hit;
      var p := e.cluster;
      TableDistinct(i, e);
      var es := TableAt(host, p);
      ghost var h, rc := host, refcounts;
      var es' := CountTable(es, addend);
      ghost var rc1 := refcounts;
      if es' != es {
        host := host[p := Table(es')];
      }
      e' := CountEntry(e, addend);
      EntryDone(h, host, rc, rc1, refcounts, e, e', es', addend);
    }

    /** The L1 table stored at `off`, the active one being the copy in memory. */
    function TableFor(off: nat, size: nat): seq<Entry>
      requires lay.l2Size > 0
      reads this
    {
      if off == l1Offset then l1 else ReadRun(host, off, size, lay.l2Size)
    }

    /** `off` and `size` describe the active root or a snapshot's. */
    ghost predicate IsRoot(off: nat, size: nat)
      reads this
    {
      || (off == l1Offset && size == |l1|)
      || exists a: nat :: a < |snaps| && snaps[a].l1Offset == off && snaps[a].l1Size == size
    }

    /** The counts have room for `addend` on every reference of the root `t`. */
    ghost predicate Room(t: seq<Entry>, addend: int)
      reads this
    {
      forall c: nat :: 0 <= Rc(refcounts, c) + Scale(addend, L1Refs(host, t, |t|, c)) <= COUNT_LIMIT
    }

    /** The loop of a pass over one root. */
    method PassRoot(t0: seq<Entry>, addend: int) returns (t: seq<Entry>)
      requires addend == 1 || addend == -1 || addend == 0
      requires forall x: nat | x < |t0| :: TableOK(lay, host, role, x, t0[x])
      requires SixteenBit(refcounts)
      modifies this`host, this`refcounts, this`freeClusterIndex
      ensures Passed(old(host), host, role, t0, t, old(refcounts), refcounts, |t0|, addend)
    {
      hide L1Refs, EntryRefs, TableRefs, DataOK;
      ghost var h0, rc0 := host, refcounts;
      t := t0;
      var i := 0;
      PassStart(h0, role, t0, rc0, addend);
      while i < |t0|
        invariant i <= |t0| && Passed(h0, host, role, t0, t, rc0, refcounts, i, addend)
      {
        assert TableOK(lay, h0, role, i, t0[i]);
        RetagEntry(lay, h0, host, role, i, t0[i], t0[i]);
        assert SixteenBit(refcounts);
        ghost var h1, rc1, t1 := host, refcounts, t;
        var e := PassEntry(i, t[i], addend);
        PassStep(lay, h0, h1, host, role, t0, t1, rc0, rc1, refcounts, i, e, addend);
        t := t[i := e];
        i := i + 1;
      }
    }

    lemma PassStart(h0: Host, role0: Roles, t0: seq<Entry>, rc0: map<nat, nat>, addend: int)
      requires SixteenBit(rc0)
      ensures Passed(h0, h0, role0, t0, t0, rc0, rc0, 0, addend)
    {
      forall c: nat
        ensures L1Refs(h0, t0, 0, c) == 0
      {
      }
    }

    lemma RootFor(off: nat, size: nat)
      requires Fixed() && Shaped(lay, View(), role) && IsRoot(off, size)
      ensures var t := TableFor(off, size);
              && |t| == size && RootOK(lay, host, role, Root(off, t))
              && ReadRun(host, off, |t|, lay.l2Size) == t
      ensures RootOK(lay, host, role, Root(l1Offset, l1))
    {
      ActiveRoot(lay, View(), role);
      if off != l1Offset {
        var a: nat :| a < |snaps| && snaps[a].l1Offset == off && snaps[a].l1Size == size;
        assert SnapRoot(lay, host, snaps[a]) == Root(off, TableFor(off, size));
      }
    }

    /** Pass over the L1 table `t0` at `off` and store what it has become. */
    method StorePass(off: nat, t0: seq<Entry>, addend: int) returns (t: seq<Entry>)
      requires addend == 1 || addend == -1 || addend == 0
      requires Fixed() && Shaped(lay, View(), role) && SixteenBit(refcounts)
      requires RootOK(lay, host, role, Root(off, t0)) && ReadRun(host, off, |t0|, lay.l2Size) == t0
      modifies this`host, this`refcounts, this`freeClusterIndex
      ensures SameShape(old(host), host) && SamePointers(t0, t) && ReadRun(host, off, |t|, lay.l2Size) == t
      ensures Flagged(host, t, refcounts)
      ensures off != l1Offset ==> ReadRun(host, l1Offset, |l1|, lay.l2Size) == l1
      ensures forall c: nat ::
                Rc(refcounts, c) == Clamp(Rc(old(refcounts), c) + Scale(addend, L1Refs(old(host), t0, |t0|, c)))
    {
      hide RootOK, Shaped, Passed, SameShape, Flagged, L1Refs, WriteRun, ReadRun, Scale, InArea, SixteenBit, Clamp;
      ghost var m, r := View(), Root(off, t0);
      RootEntries(lay, host, role, r);
      t := PassRoot(t0, addend);
      ghost var h1 := host;
      if t != t0 {
        host := WriteRun(host, off, t, lay.l2Size);
      }
      PassStored(lay, m.host, h1, host, role, r, t, m.refcounts, refcounts, addend);
      PassCounts(m.host, h1, role, t0, t, m.refcounts, refcounts, addend);
      if off != l1Offset {
        PassElsewhere(m, h1, r, t, addend);
      }
    }

    /**
     * A pass over one root: add `addend` to the count of everything it refers to,
     * as far as the counts have room, and set each COPIED flag it holds from the new
     * count.  References and disks stay as they are.
     */
    method UpdateSnapshotRefcount(off: nat, size: nat, addend: int)
      requires addend == 1 || addend == -1 || addend == 0
      requires Fixed() && Shaped(lay, View(), role) && IsRoot(off, size)
      requires SixteenBit(refcounts)
      modifies this`host, this`refcounts, this`freeClusterIndex, this`l1,
               this`cacheOffsets, this`cacheCounts, this`cacheTables
      ensures Retag(lay, old(View()), View()) && Shaped(lay, View(), role)
      ensures forall c: nat :: var t := old(TableFor(off, size));
                Rc(refcounts, c) == Clamp(Rc(old(refcounts), c) + Scale(addend, L1Refs(old(host), t, |t|, c)))
      ensures old(Room(TableFor(off, size), addend)) ==> forall c: nat :: var t := old(TableFor(off, size));
                Rc(refcounts, c) == Rc(old(refcounts), c) + Scale(addend, L1Refs(old(host), t, |t|, c))
      ensures Flagged(host, TableFor(off, size), refcounts)
      ensures off != l1Offset ==> l1 == old(l1)
      ensures SixteenBit(refcounts) && CacheEmpty()
    {
      hide RootOK, Shaped, SameShape, Flagged, L1Refs, ReadRun, Scale, Refs, GuestSector, SnapshotsKept;
      ghost var m := View();
      CacheReset();
      RootFor(off, size);
      var t0 := TableFor(off, size);
      var t := StorePass(off, t0, addend);
      if off == l1Offset {
        l1 := t;
      } else {
        SamePointersRefl(l1);
      }
      RetagImage(lay, m, View(), role);
    }

    lemma SamePointersRefl(t: seq<Entry>)
      ensures SamePointers(t, t)
    {
    }

    lemma PassElsewhere(m: Image, h1: Host, r: Root, t: seq<Entry>, addend: int)
      requires Fixed() && Shaped(lay, m, role) && RootOK(lay, m.host, role, r) && r.off != m.l1Offset
      requires Passed(m.host, h1, role, r.tab, t, m.refcounts, refcounts, |r.tab|, addend)
      requires AgreeOutside(h1, host, AreaSet(r.off, Clusters(|r.tab|, lay.l2Size)))
      ensures ReadRun(host, m.l1Offset, |m.l1|, lay.l2Size) == m.l1
    {
      hide L1Refs, DataOK;
      ActiveRoot(lay, m, role);
      PassReads(lay, m.host, h1, role, Root(m.l1Offset, m.l1), r.tab, t, m.refcounts, refcounts, addend);
      forall c: nat | InArea(m.l1Offset, Clusters(|m.l1|, lay.l2Size), c)
        ensures TableAt(h1, c) == TableAt(host, c)
      {
      }
      ReadFramed(h1, host, m.l1Offset, |m.l1|, lay.l2Size);
    }

    lemma ExactCounts(rc: map<nat, nat>)
      requires SixteenBit(rc)
      ensures Clamped(rc, rc)
    {
    }

    /** The clusters of the directory have count one. */
    lemma DirectoryCounted(m: Image, v: map<nat, nat>)
      requires Fixed() && Shaped(lay, m.(refcounts := v), role) && Counted(lay, m.(refcounts := v))
      ensures forall c: nat | InArea(m.dirOffset, m.dirClusters, c) :: Rc(v, c) == 1
    {
      hide Shaped, Refs;
      forall c: nat | InArea(m.dirOffset, m.dirClusters, c)
        ensures Rc(v, c) == 1
      {
        DirectoryOnce(lay, m.(refcounts := v), role, c);
        assert Rc(v, c) == Refs(lay, m.(refcounts := v), c);
      }
    }

    /** The new place of the directory is not the old one. */
    lemma DirectoryApart(was: map<nat, nat>, v: map<nat, nat>, rc: map<nat, nat>, off: nat, n: nat)
      requires Clamped(was, v) && AreaTaken(was, rc, off, n) && FreeRun(was, off, n)
      requires forall c: nat | InArea(dirOffset, dirClusters, c) :: Rc(v, c) == 1
      ensures RoomIn(rc, dirOffset, dirClusters, -1)
      ensures forall c: nat | InArea(dirOffset, dirClusters, c) :: Rc(Plus(v, off, n), c) == 1
    {
      PlusClamped(was, rc, v, off, n);
    }

    lemma DirectoryFlat(m: Image, m': Image, v: map<nat, nat>, v': map<nat, nat>)
      requires Fixed() && SnapshotsKept(lay, m.(refcounts := v), m'.(refcounts := v'))
      requires forall s: nat :: GuestSector(lay, m'.host, m'.l1, s) == GuestSector(lay, m.host, m.l1, s)
      ensures FlatOf(lay, m') == FlatOf(lay, m)
    {
      hide GuestSector, SnapshotsKept, FlatOf;
      var mv, mv' := m.(refcounts := v), m'.(refcounts := v');
      SameDisk(lay, m.host, m.l1, m'.host, m'.l1);
      SameFrozen(lay, mv, mv');
      FlatSame(lay, mv, mv');
      SameFlat(lay, m, v);
      SameFlat(lay, m', v');
    }

    lemma DirectoryKeeps(m: Image, m': Image, v: map<nat, nat>, role0: Roles)
      requires Fixed() && Shaped(lay, m.(refcounts := v), role0) && Counted(lay, m.(refcounts := v))
      requires Clamped(m.refcounts, v) && m'.l1 == m.l1
      requires forall c: nat :: L1Refs(m'.host, m.l1, |m.l1|, c) == L1Refs(m.host, m.l1, |m.l1|, c)
      requires forall c: nat | Rc(m.refcounts, c) > 0 && !InArea(m.dirOffset, m.dirClusters, c) ::
                 Rc(m'.refcounts, c) == Rc(m.refcounts, c)
      ensures ListedKept(m, m')
    {
      hide L1Refs, Shaped, Refs;
      var mv := m.(refcounts := v);
      forall c: nat | ActiveUse(m, c) > 0
        ensures Rc(m.refcounts, c) > 0 && !InArea(m.dirOffset, m.dirClusters, c)
      {
        ListedCounted(lay, mv, role0, c);
        assert Rc(v, c) == Refs(lay, mv, c);
      }
    }

    /** The clusters that the directory needs. */
    method DirectoryClusters() returns (n: nat)
      requires lay.clusterSectors > 0
      ensures n == Clusters(DirectoryBytes(snaps, |snaps|), lay.clusterSectors * SECTOR_SIZE)
    {
      var bytes, i := 0, 0;
      while i < |snaps|
        invariant i <= |snaps| && bytes == DirectoryBytes(snaps, i)
      {
        bytes := Align8(bytes);
        bytes := bytes + SNAPSHOT_HEADER + |snaps[i].id| + |snaps[i].name|;
        i := i + 1;
      }
      n := Clusters(bytes, lay.clusterSectors * SECTOR_SIZE);
    }

    /** Write the directory to `n` fresh clusters at `off` and free the old ones; `v` follows the counts. */
    method MoveDirectory(ghost v: map<nat, nat>) returns (off: nat, n: nat, ghost v': map<nat, nat>)
      requires lay.clusterSectors > 0 && Clamped(refcounts, v)
      requires forall c: nat | InArea(dirOffset, dirClusters, c) :: Rc(v, c) == 1
      modifies this`host, this`refcounts, this`freeClusterIndex
      ensures Clamped(refcounts, v') && (SixteenBit(v) <==> SixteenBit(v'))
      ensures host == old(host) + map c: nat | c in AreaSet(off, n) :: Directory(snaps)
      ensures forall c: nat | InArea(off, n, c) :: Rc(v, c) == 0
      ensures forall c: nat :: Rc(v', c) + AreaRefs(dirOffset, dirClusters, c) == Rc(v, c) + AreaRefs(off, n, c)
      ensures forall c: nat | Rc(old(refcounts), c) > 0 && !InArea(dirOffset, dirClusters, c) ::
                Rc(refcounts, c) == Rc(old(refcounts), c)
    {
      hide Clamped, SixteenBit, Plus, Minus, Clusters, RoomIn, CountsMoved;
      ghost var was := refcounts;
      n := DirectoryClusters();
      off := AllocClusters(n);
      ghost var rc := refcounts;
      PlusClamped(was, rc, v, off, n);
      var dir := Directory(snaps);
      host := host + map c: nat | c in AreaSet(off, n) :: dir;
      DirectoryApart(was, v, rc, off, n);
      UpdateRefcount(dirOffset, dirClusters, -1);
      MinusClamped(rc, refcounts, Plus(v, off, n), dirOffset, dirClusters);
      v' := Minus(Plus(v, off, n), dirOffset, dirClusters);
    }

    /**
     * Write the snapshot directory to a new place and give up the old one.  The
     * stored counts are those of `v` as far as 16 bits go, before and after.
     */
    method WriteSnapshots(ghost v: map<nat, nat>) returns (ghost v': map<nat, nat>)
      requires Fixed() && Sound(lay, View().(refcounts := v), role) && Clamped(refcounts, v)
      modifies this`host, this`refcounts, this`freeClusterIndex, this`dirOffset, this`dirClusters, this`role
      ensures Sound(lay, View().(refcounts := v'), role) && Clamped(refcounts, v')
      ensures SixteenBit(v) <==> SixteenBit(v')
      ensures FlatOf(lay, View()) == old(FlatOf(lay, View())) && ListedKept(old(View()), View())
    {
      hide Sound, Shaped, Counted, Flagged, Refs, GuestSector, SnapshotsKept, FlatOf, SixteenBit, AreaRefs, Clusters,
           Quot, Rem, Whole, Clamped, ListedKept, L1Refs;
      ghost var m := View();
      ghost var mv := m.(refcounts := v);
      SoundParts(lay, mv, role);
      DirectoryCounted(m, v);
      var off, n;
      off, n, v' := MoveDirectory(v);
      dirOffset, dirClusters := off, n;
      ghost var mv' := View().(refcounts := v');
      assert mv' == WithDirectory(mv, v', off, n);
      DirectoryStep(lay, mv, role, v', off, n);
      DirectoryFlat(m, View(), v, v');
      DirectoryKeeps(m, View(), v, role);
      role := Assigned(role, AreaSet(off, n), DirectoryArea);
    }

    method FindSnapshotById(id: string) returns (k: nat)
      ensures k <= |snaps|
      ensures k < |snaps| ==> snaps[k].id == id
      ensures forall x: nat | x < k :: snaps[x].id != id
    {
      k := 0;
      while k < |snaps| && snaps[k].id != id
        invariant k <= |snaps| && forall x: nat | x < k :: snaps[x].id != id
      {
        k := k + 1;
      }
    }

    /** The snapshot that `key` names by id or else by name, as in the flat disk. */
    method FindSnapshot(key: string) returns (k: nat)
      requires Fixed()
      ensures k == Find(FlatOf(lay, View()).frozen, key) && k <= |snaps|
    {
      hide GuestSector, DiskOf;
      k := FindSnapshotById(key);
      FirstId(FlatOf(lay, View()).frozen, key, k);
      if k < |snaps| {
        return;
      }
      k := 0;
      while k < |snaps| && snaps[k].name != key
        invariant k <= |snaps| && forall x: nat | x < k :: snaps[x].name != key
      {
        k := k + 1;
      }
      FirstName(FlatOf(lay, View()).frozen, key, k);
    }

    // ---- taking a snapshot ------------------------------------------------------

    /** As long as there are fewer roots than a count can hold, one more reference fits. */
    lemma RoomForOneMore(m: Image)
      requires Fixed() && Sound(lay, m, role) && SixteenBit(m.refcounts) && |m.snaps| + 2 <= COUNT_LIMIT
      ensures ActiveRoom(m)
    {
      hide L1Refs, Refs, Shaped;
      forall c: nat
        ensures Rc(m.refcounts, c) + ActiveUse(m, c) <= COUNT_LIMIT
      {
        ListedBound(lay, m, role, c);
        assert Rc(m.refcounts, c) == Refs(lay, m, c);
      }
    }

    lemma UsedOnce(m: Image, c: nat)
      requires Fixed() && Sound(lay, m, role)
      ensures ActiveUse(m, c) <= 1
    {
      ListedBound(lay, m, role, c);
    }

    lemma CountedOnceMore(m: Image, m1: Image)
      requires Fixed() && Shaped(lay, m, role) && Counted(lay, m) && Retag(lay, m, m1)
      requires forall c: nat :: Rc(m1.refcounts, c) == Rc(m.refcounts, c) + Scale(1, L1Refs(m.host, m.l1, |m.l1|, c))
      ensures CountedTwice(lay, m1)
    {
      hide L1Refs, Refs, Shaped, GuestSector;
      RetagImage(lay, m, m1, role);
    }

    /** Store the active L1 table again, as the root of snapshot `id`; the counts are those of `v` as far as they go. */
    method StoreSnapshot(id: string, name: string, ghost v: map<nat, nat>) returns (ghost v': map<nat, nat>)
      requires Fixed() && Shaped(lay, View().(refcounts := v), role) && CountedTwice(lay, View().(refcounts := v))
      requires Flagged(host, l1, v) && Clamped(refcounts, v)
      modifies this`host, this`refcounts, this`freeClusterIndex, this`snaps, this`role
      ensures Sound(lay, View().(refcounts := v'), role) && Clamped(refcounts, v')
      ensures SixteenBit(v) <==> SixteenBit(v')
      ensures |snaps| == old(|snaps|) + 1 && snaps[..old(|snaps|)] == old(snaps) && snaps[old(|snaps|)].l1Size == |l1|
      ensures var f := old(FlatOf(lay, View()));
              FlatOf(lay, View()) == f.(frozen := f.frozen + [Frozen(id, name, f.disk)])
      ensures ListedKept(old(View()), View())
    {
      hide Shaped, Sound, CountedTwice, Flagged, GuestSector, FlatOf, SixteenBit, WriteRun, InArea, Clamped, L1Refs,
           ListedKept;
      ghost var m := View();
      ghost var mv := m.(refcounts := v);
      var n := Clusters(|l1|, lay.l2Size);
      var off := AllocClusters(n);
      PlusClamped(m.refcounts, refcounts, v, off, n);
      v' := Plus(v, off, n);
      host := WriteRun(host, off, l1, lay.l2Size);
      var sn := Snapshot(off, |l1|, id, name);
      snaps := snaps + [sn];
      CreateStep(lay, mv, role, v', sn, n);
      assert View().(refcounts := v') == WithSnapshot(lay, mv, v', sn);
      CreatedFlat(lay, mv, View().(refcounts := v'), sn);
      SameFlat(lay, m, v);
      SameFlat(lay, View(), v');
      StoringKeeps(m, View(), v, off, n);
      role := Assigned(role, AreaSet(off, n), L1Area(off));
    }

    lemma StoringKeeps(m: Image, m': Image, v: map<nat, nat>, off: nat, n: nat)
      requires Fixed() && CountedTwice(lay, m.(refcounts := v)) && Clamped(m.refcounts, v) && m'.l1 == m.l1
      requires forall c: nat :: L1Refs(m'.host, m.l1, |m.l1|, c) == L1Refs(m.host, m.l1, |m.l1|, c)
      requires FreeRun(m.refcounts, off, n) && AreaTaken(m.refcounts, m'.refcounts, off, n)
      ensures ListedKept(m, m')
    {
      hide L1Refs, Refs;
      var mv := m.(refcounts := v);
      forall c: nat | ActiveUse(m, c) > 0
        ensures Rc(m'.refcounts, c) == Rc(m.refcounts, c)
      {
        assert Rc(v, c) == Refs(lay, mv, c) + ActiveUse(m, c);
      }
    }

    /** An id for a new snapshot: one more than the largest id there is. */
    method FindNewSnapshotId() returns (id: string)
      ensures id == NewId(SnapshotIds(snaps))
    {
      hide Number, Print;
      ghost var ids := SnapshotIds(snaps);
      var i, max := 0, 0;
      while i < |snaps|
        invariant i <= |snaps| && max == MaxNumber(ids, i)
      {
        var n := Number(snaps[i].id);
        if n > max {
          max := n;
        }
        i := i + 1;
      }
      id := Print(ToInt(max + 1));
    }

    /** The disk's ids, as the flat disk has them. */
    lemma FlatIds(m: Image)
      requires Fixed()
      ensures IdsOf(FlatOf(lay, m).frozen) == SnapshotIds(m.snaps)
    {
      hide DiskOf;
    }

    /** Count the active root once more; `v` are the counts that unlimited numbers would give. */
    method CountAgain() returns (ghost v: map<nat, nat>)
      requires Valid()
      modifies this`host, this`refcounts, this`freeClusterIndex, this`l1,
               this`cacheOffsets, this`cacheCounts, this`cacheTables
      ensures Shaped(lay, View().(refcounts := v), role) && CountedTwice(lay, View().(refcounts := v))
      ensures Flagged(host, l1, v) && Clamped(refcounts, v) && CacheEmpty() && |l1| == old(|l1|)
      ensures SixteenBit(v) <==> ActiveRoom(old(View()))
      ensures FlatOf(lay, View()) == old(FlatOf(lay, View())) && ListedAgain(old(View()), View())
    {
      hide Shaped, Sound, Flagged, GuestSector, FlatOf, Counted, L1Refs, CountedTwice, Retag, Refs;
      ghost var m := View();
      SoundParts(lay, m, role);
      UpdateSnapshotRefcount(l1Offset, |l1|, 1);
      v := Raised(m, role);
      RaisedCounts(lay, m, role);
      RetagSize(lay, m, View());
      RetagCounts(m, View(), v);
      CountedOnceMore(m, View().(refcounts := v));
      SameRoots(lay, View(), v, role);
      ClampedFlags(host, l1, refcounts, v);
      RetaggedFlat(lay, m, View(), role);
      RetagImage(lay, m, View(), role);
    }

    lemma RetagCounts(m: Image, m': Image, v: map<nat, nat>)
      requires Fixed() && Retag(lay, m, m')
      ensures Retag(lay, m, m'.(refcounts := v))
    {
    }

    /**
     * Freeze the active disk under an id that is not in use.  The flat disk gets its
     * copy in any case; the image stays sound if and only if every cluster of the
     * active root had room for one more count.
     */
    method Freeze(id: string, name: string)
      requires Valid()
      modifies this`host, this`refcounts, this`freeClusterIndex, this`l1, this`snaps, this`dirOffset, this`dirClusters,
               this`role, this`cacheOffsets, this`cacheCounts, this`cacheTables
      ensures Valid() <==> ActiveRoom(old(View()))
      ensures Valid() <==> Counted(lay, View())
      ensures Fixed() && |l1| == old(|l1|)
      ensures |snaps| == old(|snaps|) + 1 && snaps[..old(|snaps|)] == old(snaps) && snaps[old(|snaps|)].l1Size == |l1|
      ensures var f := old(FlatOf(lay, View()));
              FlatOf(lay, View()) == f.(frozen := f.frozen + [Frozen(id, name, f.disk)])
      ensures ListedAgain(old(View()), View())
    {
      hide Shaped, Sound, Flagged, GuestSector, FlatOf, SixteenBit, Counted, L1Refs, CountedTwice, Clamped, ActiveRoom,
           ListedAgain, ListedKept, CacheOK, CacheLive;
      ghost var m := View();
      ghost var v := CountAgain();
      ghost var m1 := View();
      v := StoreSnapshot(id, name, v);
      ghost var m2 := View();
      v := WriteSnapshots(v);
      EmptyCache();
      ClampedSound(lay, View(), v, role);
      AgainThenKept(m, m1, m2);
      AgainThenKept(m, m2, View());
    }

    /**
     * Take a snapshot, under an id of its own when none is asked for: refused when
     * the id is taken, otherwise a frozen copy of the active disk joins the list.
     * The image stays sound if and only if the counts of the active root had room.
     */
    method Create(id: string, name: string) returns (ok: bool)
      requires Valid()
      modifies this`host, this`refcounts, this`freeClusterIndex, this`l1, this`snaps, this`dirOffset, this`dirClusters,
               this`role, this`cacheOffsets, this`cacheCounts, this`cacheTables
      ensures Valid() <==> !ok || ActiveRoom(old(View()))
      ensures Valid() <==> Counted(lay, View())
      ensures Fixed() && |l1| == old(|l1|)
      ensures if ok then |snaps| == old(|snaps|) + 1 && snaps[..old(|snaps|)] == old(snaps) &&
              snaps[old(|snaps|)].l1Size == |l1| && ListedAgain(old(View()), View())
              else snaps == old(snaps)
      ensures Step(old(FlatOf(lay, View())), CreateOp(id, name)) == (FlatOf(lay, View()), if ok then Done else NoEntry)
    {
      hide Sound, FlatOf, SixteenBit, CacheOK, CacheLive, FindId, NewId, ActiveRoom, ListedAgain;
      FlatIds(View());
      FlatSize(View());
      var chosen := id;
      if id == "" {
        chosen := FindNewSnapshotId();
      }
      var k := FindSnapshotById(chosen);
      FoundId(View(), chosen, k);
      if k < |snaps| {
        SoundParts(lay, View(), role);
        return false;
      }
      Freeze(chosen, name);
      ok := true;
    }

    lemma FoundId(m: Image, id: string, k: nat)
      requires Fixed() && k <= |m.snaps| && (k < |m.snaps| ==> m.snaps[k].id == id)
      requires forall x: nat | x < k :: m.snaps[x].id != id
      ensures FindId(FlatOf(lay, m).frozen, id) == k
    {
      hide DiskOf;
      FirstId(FlatOf(lay, m).frozen, id, k);
    }

    // ---- going to a snapshot ----------------------------------------------------

    lemma CountedOnceLess(m: Image, m1: Image)
      requires Fixed() && Shaped(lay, m, role) && Counted(lay, m) && Retag(lay, m, m1)
      requires forall c: nat :: Rc(m1.refcounts, c) == Rc(m.refcounts, c) + Scale(-1, L1Refs(m.host, m.l1, |m.l1|, c))
      ensures CountedWithout(lay, m1)
    {
      hide L1Refs, Refs, Shaped, GuestSector;
      RetagImage(lay, m, m1, role);
    }

    lemma RoomForOneLess(m: Image)
      requires Fixed() && Counted(lay, m) && SixteenBit(m.refcounts)
      ensures forall c: nat :: 0 <= Rc(m.refcounts, c) + Scale(-1, L1Refs(m.host, m.l1, |m.l1|, c)) <= COUNT_LIMIT
    {
      hide L1Refs;
      var rs := Roots(lay, m);
      assert rs[0] == Root(m.l1Offset, m.l1);
      forall c: nat
        ensures 0 <= Rc(m.refcounts, c) + Scale(-1, L1Refs(m.host, m.l1, |m.l1|, c)) <= COUNT_LIMIT
      {
        RootsRefsAtLeast(m.host, rs, 0, |rs|, c, lay.l2Size);
        assert Rc(m.refcounts, c) == Refs(lay, m, c);
      }
    }

    lemma AreaStillCounted(m: Image)
      requires Fixed() && Shaped(lay, m, role) && CountedWithout(lay, m)
      ensures |m.l1| > 0
      ensures forall c: nat | InArea(m.l1Offset, Clusters(|m.l1|, lay.l2Size), c) :: Rc(m.refcounts, c) >= 1
    {
      hide L1Refs;
      ActiveRoot(lay, m, role);
      var rs := Roots(lay, m);
      assert rs[0] == Root(m.l1Offset, m.l1);
      forall c: nat | InArea(m.l1Offset, Clusters(|m.l1|, lay.l2Size), c)
        ensures Rc(m.refcounts, c) >= 1
      {
        RootsRefsAtLeast(m.host, rs, 0, |rs|, c, lay.l2Size);
        assert Rc(m.refcounts, c) + L1Refs(m.host, m.l1, |m.l1|, c) == Refs(lay, m, c);
      }
    }

    /** As long as there are no more snapshots than a count can hold, any of them can become active. */
    lemma RoomToSwap(m: Image, k: nat)
      requires Fixed() && Sound(lay, m, role) && SixteenBit(m.refcounts) && k < |m.snaps| &&
               |m.snaps| + 1 <= COUNT_LIMIT
      ensures SwapRoom(lay, m, k)
    {
      hide Shaped, Refs;
      forall c: nat
        ensures Rc(m.refcounts, c) - ActiveUse(m, c) + SnapshotUse(lay, m, k, c) <= COUNT_LIMIT
      {
        assert Rc(m.refcounts, c) == Refs(lay, m, c);
        SnapshotBound(lay, m, role, k, c);
      }
    }

    /** The L1 table stays where it is. */
    lemma StayedPut(m: Image, m': Image, k: nat, n: nat)
      requires Fixed() && Shaped(lay, m, role) && CountedWithout(lay, m) && k < |m.snaps|
      requires n == Clusters(|m.l1|, lay.l2Size) && m.snaps[k].l1Size <= |m.l1|
      requires var t := SnapRoot(lay, m.host, m.snaps[k]).tab;
               m' == m.(host := WriteRun(m.host, m.l1Offset, t, lay.l2Size), l1 := t,
                        reserved := m.reserved + Tail(m.l1Offset, n, |t|, lay.l2Size))
      ensures WentTo(lay, m, m', k, m.l1Offset, n)
    {
      hide L1Refs, Private;
      var t := SnapRoot(lay, m.host, m.snaps[k]).tab;
      QuotMonotone(|t| + lay.l2Size - 1, |m.l1| + lay.l2Size - 1, lay.l2Size);
      ReadWritten(m.host, m.l1Offset, t, lay.l2Size);
      WrittenArea(m.host, m'.host, m.l1Offset, t, n);
      forall c: nat | c in AreaSet(m.l1Offset, n)
        ensures Private(lay, m, c)
      {
        L1AreaPrivate(lay, m, role, c);
      }
    }

    lemma WrittenArea(h: Host, h': Host, off: nat, t: seq<Entry>, n: nat)
      requires lay.l2Size > 0 && h' == WriteRun(h, off, t, lay.l2Size) && Clusters(|t|, lay.l2Size) <= n
      ensures AgreeOutside(h, h', AreaSet(off, n))
      ensures forall c: nat | InArea(off, Clusters(|t|, lay.l2Size), c) :: IsTable(h', c, lay.l2Size)
    {
      forall c: nat | InArea(off, Clusters(|t|, lay.l2Size), c)
        ensures IsTable(h', c, lay.l2Size)
      {
        assert h'[c] == Table(ChunkOf(TableAt(h, c), t, c - off, lay.l2Size));
      }
    }

    /** The L1 table moved to a larger area first. */
    lemma MovedFirst(m: Image, h1: Host, m': Image, k: nat, x: nat, off: nat, n: nat)
      requires Fixed() && Shaped(lay, m, role) && CountedWithout(lay, m) && k < |m.snaps|
      requires h1 == WriteRun(m.host, off, Longer(m.l1, x), lay.l2Size) && n == Clusters(|m.l1| + x, lay.l2Size)
      requires 0 < m.snaps[k].l1Size <= |m.l1| + x && FreeRun(m.refcounts, off, n)
      requires var t := SnapRoot(lay, m.host, m.snaps[k]).tab;
               && m'.host == WriteRun(h1, off, t, lay.l2Size)
               && m' == m.(host := m'.host, refcounts := m'.refcounts, l1Offset := off, l1 := t,
                           reserved := m.reserved + Tail(off, n, |t|, lay.l2Size))
      requires forall c: nat :: Rc(m'.refcounts, c) + AreaRefs(m.l1Offset, Clusters(|m.l1|, lay.l2Size), c)
                             == Rc(m.refcounts, c) + AreaRefs(off, n, c)
      ensures WentTo(lay, m, m', k, off, n)
    {
      hide L1Refs, Private, WriteRun, Shaped;
      var t := SnapRoot(lay, m.host, m.snaps[k]).tab;
      QuotMonotone(|t| + lay.l2Size - 1, |m.l1| + x + lay.l2Size - 1, lay.l2Size);
      ReadWritten(h1, off, t, lay.l2Size);
      WrittenArea(m.host, h1, off, Longer(m.l1, x), n);
      WrittenArea(h1, m'.host, off, t, n);
      forall c: nat | c in AreaSet(off, n)
        ensures Private(lay, m, c)
      {
        FreeWithoutPrivate(lay, m, role, c);
      }
      ClustersPositive(|t|, lay.l2Size);
      MovedApart(m, off, n);
      forall c: nat
        ensures Rc(m'.refcounts, c) + RootRefs(m.host, Root(m.l1Offset, m.l1), c, lay.l2Size) ==
                Refs(lay, m, c) + AreaRefs(off, n, c)
      {
        assert Rc(m.refcounts, c) + L1Refs(m.host, m.l1, |m.l1|, c) == Refs(lay, m, c);
      }
    }

    lemma MovedApart(m: Image, off: nat, n: nat)
      requires Fixed() && Shaped(lay, m, role) && n > 0
      requires forall c: nat | c in AreaSet(off, n) :: Private(lay, m, c)
      ensures forall a: nat | a < |m.snaps| :: m.snaps[a].l1Offset != off
    {
      assert InArea(off, n, off) && off in AreaSet(off, n);
      ActiveRoot(lay, m, role);
      forall a: nat | a < |m.snaps|
        ensures m.snaps[a].l1Offset != off
      {
        ClustersPositive(m.snaps[a].l1Size, lay.l2Size);
      }
    }

    lemma TailSize(off: nat, n: nat, k: nat, res: set<nat>)
      requires lay.l2Size > 0 && Clusters(k, lay.l2Size) <= n
      requires forall c: nat | c in AreaSet(off, n) :: c !in res
      ensures Tail(off, n, k, lay.l2Size) !! res
      ensures Tail(off, n, k, lay.l2Size) == {} <==> n == Clusters(k, lay.l2Size)
    {
      var j := Clusters(k, lay.l2Size);
      if j < n {
        assert InArea(off, n, off + j) && off + j in Tail(off, n, k, lay.l2Size);
      }
    }

    lemma SnapshotReadApart(m: Image, h1: Host, k: nat, off: nat, n: nat)
      requires Fixed() && Shaped(lay, m, role) && CountedWithout(lay, m) && k < |m.snaps|
      requires AgreeOutside(m.host, h1, AreaSet(off, n)) && FreeRun(m.refcounts, off, n)
      ensures SnapRoot(lay, h1, m.snaps[k]) == SnapRoot(lay, m.host, m.snaps[k])
    {
      hide L1Refs, Shaped, Lists;
      forall c: nat | InArea(m.snaps[k].l1Offset, Clusters(m.snaps[k].l1Size, lay.l2Size), c)
        ensures TableAt(m.host, c) == TableAt(h1, c)
      {
        if c in AreaSet(off, n) {
          FreeWithoutPrivate(lay, m, role, c);
        }
      }
      ReadFramed(m.host, h1, m.snaps[k].l1Offset, m.snaps[k].l1Size, lay.l2Size);
    }

    /** The root of snapshot `k` takes the place of the active root. */
    method AdoptRoot(k: nat)
      requires Fixed() && Shaped(lay, View(), role) && CountedWithout(lay, View()) && SixteenBit(refcounts) &&
               k < |snaps|
      modifies this`host, this`refcounts, this`freeClusterIndex, this`l1, this`l1Offset, this`role, this`lost
      ensures Shaped(lay, View(), role) && CountedWithout(lay, View()) && SixteenBit(refcounts)
      ensures SnapshotsKept(lay, old(View()), View()) && l1 == SnapRoot(lay, host, snaps[k]).tab
      ensures lost >= old(lost) && (old(lost) !! lay.meta ==> lost !! lay.meta)
      ensures lost == old(lost) <==> KeepsArea(lay.l2Size, snaps[k].l1Size, old(|l1|))
      ensures ActiveRoom(View()) <==> JoinRoom(lay, old(View()), k)
    {
      hide ActiveRoom, JoinRoom, Shaped, CountedWithout, SixteenBit, WriteRun, SnapshotsKept, WentTo, Private, Tail,
           FreeRun;
      ghost var m := View();
      AreaStillCounted(m);
      GrownEnough(|l1|, snaps[k].l1Size);
      SnapshotSize(m, k);
      ghost var x, y := GrowL1(snaps[k].l1Size);
      ghost var h1, n := host, Clusters(|l1|, lay.l2Size);
      if l1 != m.l1 {
        WrittenArea(m.host, h1, l1Offset, l1, n);
        SnapshotReadApart(m, h1, k, l1Offset, n);
      }
      l1 := ReadRun(host, snaps[k].l1Offset, snaps[k].l1Size, lay.l2Size);
      host := WriteRun(host, l1Offset, l1, lay.l2Size);
      lost := lost + Tail(l1Offset, n, |l1|, lay.l2Size);
      assert View().reserved == m.reserved + Tail(l1Offset, n, |l1|, lay.l2Size);
      if n == Clusters(|m.l1|, lay.l2Size) && l1Offset == m.l1Offset && h1 == m.host && refcounts == m.refcounts &&
        snaps[k].l1Size <= |m.l1| {
        StayedPut(m, View(), k, n);
      } else {
        MovedFirst(m, h1, View(), k, x, l1Offset, n);
      }
      AdoptedTail(m, View(), k, l1Offset, n);
      GotoStep(lay, m, View(), role, k, l1Offset, n);
      AdoptedRoom(lay, m, View(), role, k, l1Offset, n);
      role := MovedRoles(role, l1Offset, n, |l1|, lay.l2Size);
    }

    lemma SnapshotSize(m: Image, k: nat)
      requires Fixed() && Shaped(lay, m, role) && k < |m.snaps|
      ensures m.snaps[k].l1Size > 0
    {
      ActiveRoot(lay, m, role);
    }

    lemma AdoptedTail(m: Image, m': Image, k: nat, off: nat, n: nat)
      requires Fixed() && WentTo(lay, m, m', k, off, n)
      ensures Tail(off, n, |m'.l1|, lay.l2Size) !! m.reserved
      ensures Tail(off, n, |m'.l1|, lay.l2Size) == {} <==> n == Clusters(|m'.l1|, lay.l2Size)
    {
      hide Lists, SnapRoot;
      TailSize(off, n, |m'.l1|, m.reserved);
    }

    lemma WentFlat(m: Image, m': Image, k: nat)
      requires Fixed() && SnapshotsKept(lay, m, m') && k < |m.snaps|
      requires m'.l1 == SnapRoot(lay, m'.host, m.snaps[k]).tab
      ensures var f := FlatOf(lay, m);
              FlatOf(lay, m') == f.(disk := f.frozen[k].disk)
    {
      hide GuestSector;
      SameFrozen(lay, m, m');
      assert FlatOf(lay, m').frozen[k] == FrozenOf(lay, m'.host, m.snaps[k]);
    }

    /**
     * Go to a snapshot: the active disk becomes the snapshot's frozen disk, and no
     * snapshot changes.  Clusters are left behind exactly when the snapshot's L1
     * table fills fewer clusters than the active one has by then.  The image stays
     * sound if and only if the counts have room for the snapshot's root in place of
     * the active one.
     */
    method Goto(key: string) returns (ok: bool)
      requires Valid()
      modifies this`host, this`refcounts, this`freeClusterIndex, this`l1, this`l1Offset, this`role, this`lost,
               this`cacheOffsets, this`cacheCounts, this`cacheTables
      ensures Fixed() && lost >= old(lost)
      ensures Valid() <==> var k := Find(old(FlatOf(lay, View())).frozen, key);
                           !ok || (k < |snaps| && SwapRoom(lay, old(View()), k))
      ensures Valid() <==> Counted(lay, View())
      ensures Step(old(FlatOf(lay, View())), GotoOp(key)) == (FlatOf(lay, View()), if ok then Done else NoEntry)
      ensures !ok ==> lost == old(lost)
      ensures !ok ==> |l1| == old(|l1|)
      ensures ok ==> var k := Find(old(FlatOf(lay, View())).frozen, key);
                     k < |snaps| && |l1| == snaps[k].l1Size &&
                       (lost == old(lost) <==> KeepsArea(lay.l2Size, snaps[k].l1Size, old(|l1|)))
    {
      hide Shaped, Sound, Flagged, GuestSector, FlatOf, SixteenBit, Counted, CountedWithout, Retag, SnapshotsKept,
           L1Refs, KeepsArea, SwapRoom, JoinRoom, ActiveRoom;
      ghost var m := View();
      var k := FindSnapshot(key);
      FlatSize(m);
      if k == |snaps| {
        SoundParts(lay, m, role);
        return false;
      }
      LeaveActive(k);
      ghost var m1 := View();
      AdoptRoot(k);
      ghost var m2 := View();
      WentFlat(m1, m2, k);
      JoinActive();
      ok := true;
    }

    lemma FlatSize(m: Image)
      requires Fixed()
      ensures |FlatOf(lay, m).frozen| == |m.snaps|
    {
    }

    /** Take the active root out of the counts. */
    method LeaveActive(ghost k: nat)
      requires Valid() && k < |snaps|
      modifies this`host, this`refcounts, this`freeClusterIndex, this`l1,
               this`cacheOffsets, this`cacheCounts, this`cacheTables
      ensures Shaped(lay, View(), role) && CountedWithout(lay, View()) && SixteenBit(refcounts) && CacheEmpty()
      ensures FlatOf(lay, View()) == old(FlatOf(lay, View())) && |l1| == old(|l1|)
      ensures JoinRoom(lay, View(), k) <==> SwapRoom(lay, old(View()), k)
    {
      hide JoinRoom, SwapRoom, Shaped, Sound, Flagged, GuestSector, FlatOf, SixteenBit, Counted, CountedWithout,
           L1Refs, Refs;
      ghost var m := View();
      SoundParts(lay, m, role);
      RoomForOneLess(m);
      UpdateSnapshotRefcount(l1Offset, |l1|, -1);
      CountedOnceLess(m, View());
      LeftRoom(lay, m, View(), role, k);
      RetaggedFlat(lay, m, View(), role);
    }

    /** Take the active root into the counts again, as far as they go. */
    method JoinActive()
      requires Fixed() && Shaped(lay, View(), role) && CountedWithout(lay, View()) && SixteenBit(refcounts)
      requires lost !! lay.meta
      modifies this`host, this`refcounts, this`freeClusterIndex, this`l1,
               this`cacheOffsets, this`cacheCounts, this`cacheTables
      ensures Valid() <==> ActiveRoom(old(View()))
      ensures Valid() <==> Counted(lay, View())
      ensures FlatOf(lay, View()) == old(FlatOf(lay, View())) && |l1| == old(|l1|)
    {
      hide Shaped, Sound, Flagged, GuestSector, FlatOf, Counted, CountedWithout, L1Refs, Refs, Retag, CacheOK,
           CacheLive;
      ghost var m := View();
      UpdateSnapshotRefcount(l1Offset, |l1|, 1);
      EmptyCache();
      ghost var v := Raised(m, role);
      RaisedCounts(lay, m, role);
      RetagSize(lay, m, View());
      RetagCounts(m, View(), v);
      ClampedFlags(host, l1, refcounts, v);
      RecountedSound(lay, m, View().(refcounts := v), role);
      ClampedSound(lay, View(), v, role);
      RetaggedFlat(lay, m, View(), role);
    }

    // ---- deleting a snapshot ----------------------------------------------------

    lemma SnapshotCounted(m: Image, k: nat)
      requires Fixed() && Counted(lay, m) && SixteenBit(m.refcounts) && k < |m.snaps|
      ensures var t := SnapRoot(lay, m.host, m.snaps[k]).tab;
              forall c: nat :: 0 <= Rc(m.refcounts, c) + Scale(-1, L1Refs(m.host, t, |t|, c)) <= COUNT_LIMIT
    {
      hide L1Refs;
      var rs := Roots(lay, m);
      assert rs[k + 1] == SnapRoot(lay, m.host, m.snaps[k]);
      forall c: nat
        ensures 0 <= Rc(m.refcounts, c) + Scale(-1, L1Refs(m.host, rs[k + 1].tab, |rs[k + 1].tab|, c)) <= COUNT_LIMIT
      {
        RootsRefsAtLeast(m.host, rs, k + 1, |rs|, c, lay.l2Size);
        assert Rc(m.refcounts, c) == Refs(lay, m, c);
      }
    }

    lemma SnapshotLeft(m: Image, m1: Image, k: nat)
      requires Fixed() && Shaped(lay, m, role) && Retag(lay, m, m1) && k < |m.snaps|
      requires var t := SnapRoot(lay, m.host, m.snaps[k]).tab;
               forall c: nat :: Rc(m1.refcounts, c) + L1Refs(m.host, t, |t|, c) == Refs(lay, m, c)
      ensures CountedButSnapshot(lay, m1, k)
    {
      hide L1Refs, Refs, Shaped, GuestSector;
      RetagImage(lay, m, m1, role);
      RetagAt(lay, m, m1, role, k + 1);
      assert Roots(lay, m)[k + 1] == SnapRoot(lay, m.host, m.snaps[k]);
      assert Roots(lay, m1)[k + 1] == SnapRoot(lay, m1.host, m1.snaps[k]);
    }

    lemma SnapshotAreaCounted(m: Image, k: nat)
      requires Fixed() && k < |m.snaps| && CountedButSnapshot(lay, m, k)
      ensures forall c: nat | InArea(m.snaps[k].l1Offset, Clusters(m.snaps[k].l1Size, lay.l2Size), c) ::
              Rc(m.refcounts, c) >= 1
    {
      hide L1Refs;
      var rs := Roots(lay, m);
      var t := SnapRoot(lay, m.host, m.snaps[k]).tab;
      assert rs[k + 1] == SnapRoot(lay, m.host, m.snaps[k]);
      forall c: nat | InArea(m.snaps[k].l1Offset, Clusters(m.snaps[k].l1Size, lay.l2Size), c)
        ensures Rc(m.refcounts, c) >= 1
      {
        RootsRefsAtLeast(m.host, rs, k + 1, |rs|, c, lay.l2Size);
        assert Rc(m.refcounts, c) + L1Refs(m.host, t, |t|, c) == Refs(lay, m, c);
      }
    }

    /** Take snapshot `k` out of the counts and renew the active root's flags. */
    method LeaveSnapshot(k: nat)
      requires Valid() && k < |snaps|
      modifies this`host, this`refcounts, this`freeClusterIndex, this`l1,
               this`cacheOffsets, this`cacheCounts, this`cacheTables
      ensures Shaped(lay, View(), role) && CountedButSnapshot(lay, View(), k) && SixteenBit(refcounts) && CacheEmpty()
      ensures Flagged(host, l1, refcounts) && FlatOf(lay, View()) == old(FlatOf(lay, View())) && |l1| == old(|l1|)
    {
      hide Shaped, Sound, Flagged, GuestSector, FlatOf, SixteenBit, Counted, CountedButSnapshot, L1Refs, Refs, Retag;
      ghost var m, sn := View(), snaps[k];
      SoundParts(lay, m, role);
      SnapshotApart(m, k);
      SnapshotCounted(m, k);
      assert IsRoot(snaps[k].l1Offset, snaps[k].l1Size);
      UpdateSnapshotRefcount(snaps[k].l1Offset, snaps[k].l1Size, -1);
      ghost var m1 := View();
      CountsDropped(m, m1, k);
      SnapshotLeft(m, m1, k);
      RetaggedFlat(lay, m, m1, role);
      UpdateSnapshotRefcount(l1Offset, |l1|, 0);
      RetagSize(lay, m1, View());
      SnapshotStillLeft(m1, View(), k);
      RetaggedFlat(lay, m1, View(), role);
    }

    lemma SnapshotApart(m: Image, k: nat)
      requires Fixed() && Shaped(lay, m, role) && k < |m.snaps|
      ensures m.snaps[k].l1Offset != m.l1Offset
    {
    }

    lemma CountsDropped(m: Image, m1: Image, k: nat)
      requires Fixed() && Counted(lay, m) && k < |m.snaps|
      requires var t := SnapRoot(lay, m.host, m.snaps[k]).tab;
               forall c: nat :: Rc(m1.refcounts, c) == Rc(m.refcounts, c) + Scale(-1, L1Refs(m.host, t, |t|, c))
      ensures var t := SnapRoot(lay, m.host, m.snaps[k]).tab;
              forall c: nat :: Rc(m1.refcounts, c) + L1Refs(m.host, t, |t|, c) == Refs(lay, m, c)
    {
      hide L1Refs, Refs;
    }

    lemma SnapshotStillLeft(m: Image, m1: Image, k: nat)
      requires Fixed() && Shaped(lay, m, role) && Retag(lay, m, m1) && k < |m.snaps| && CountedButSnapshot(lay, m, k)
      requires forall c: nat :: Rc(m1.refcounts, c) == Rc(m.refcounts, c)
      ensures CountedButSnapshot(lay, m1, k)
    {
      hide L1Refs, Refs, Shaped, Retag;
      SnapshotLeft(m, m1, k);
    }

    /** Drop snapshot `k`, which is out of the counts except for its stored L1 table. */
    method DropSnapshot(k: nat)
      requires Fixed() && Shaped(lay, View(), role) && k < |snaps| && CountedButSnapshot(lay, View(), k)
      requires Flagged(host, l1, refcounts) && SixteenBit(refcounts)
      modifies this`refcounts, this`freeClusterIndex, this`snaps
      ensures Sound(lay, View(), role) && SixteenBit(refcounts)
      ensures snaps == old(snaps)[..k] + old(snaps)[k + 1..]
      ensures var f := old(FlatOf(lay, View()));
              FlatOf(lay, View()) == f.(frozen := f.frozen[..k] + f.frozen[k + 1..])
    {
      hide Shaped, Sound, Flagged, GuestSector, CountedButSnapshot, L1Refs, Refs, DiskOf;
      ghost var m := View();
      SnapshotAreaCounted(m, k);
      UpdateRefcount(snaps[k].l1Offset, Clusters(snaps[k].l1Size, lay.l2Size), -1);
      snaps := snaps[..k] + snaps[k + 1..];
      assert View() == WithoutSnapshot(m, refcounts, k);
      DeleteStep(lay, m, role, refcounts, k);
      DeletedFlat(lay, m, View(), k);
    }

    /** Delete a snapshot: it leaves the list; the active disk and all others stay. */
    method Delete(key: string) returns (ok: bool)
      requires Valid()
      modifies this`host, this`refcounts, this`freeClusterIndex, this`l1, this`snaps, this`dirOffset, this`dirClusters,
               this`role, this`cacheOffsets, this`cacheCounts, this`cacheTables
      ensures Valid() && |l1| == old(|l1|)
      ensures var k := Find(old(FlatOf(lay, View())).frozen, key);
              k <= |old(snaps)| &&
              snaps == if ok && k < |old(snaps)| then old(snaps)[..k] + old(snaps)[k + 1..] else old(snaps)
      ensures Step(old(FlatOf(lay, View())), DeleteOp(key)) == (FlatOf(lay, View()), if ok then Done else NoEntry)
    {
      hide Shaped, Sound, Flagged, GuestSector, FlatOf, SixteenBit, CountedButSnapshot, L1Refs, Refs, Find;
      FlatSize(View());
      var k := FindSnapshot(key);
      if k == |snaps| {
        return false;
      }
      LeaveSnapshot(k);
      DropSnapshot(k);
      ExactCounts(refcounts);
      ghost var v := WriteSnapshots(refcounts);
      ClampedSound(lay, View(), v, role);
      ok := true;
    }

    // -------------------------------------------------------------------------
    // Whole runs
    // -------------------------------------------------------------------------

    lemma WroteFlat(m: Image, s: nat, buf: seq<Sector>)
      requires Fixed() && SnapshotsKept(lay, m, View()) && Wrote(m, s, buf)
      ensures FlatOf(lay, View()) == FlatOf(lay, m).(disk := Written(FlatOf(lay, m).disk, s, buf))
    {
      hide GuestSector;
      SameFrozen(lay, m, View());
    }

    /** The reply, the new flat disk, the new lengths and the lost clusters are as `op` demands. */
    twostate predicate Performed(op: Op, r: Reply)
      requires old(Fixed()) && Fixed()
      reads this
    {
      var f, z := old(FlatOf(lay, View())), old(SizesOf(View()));
      && Step(f, op) == (FlatOf(lay, View()), r)
      && SizesOf(View()) == SizeStep(Geo(), f, z, op)
      && lost >= old(lost)
      && (lost == old(lost) <==> Keeps(Geo(), f, z, op))
    }

    method PerformRead(s: nat, n: nat) returns (r: Reply)
      requires Valid()
      modifies this`cacheOffsets, this`cacheCounts, this`cacheTables
      ensures Valid() && Performed(ReadOp(s, n), r)
    {
      hide Sound, GuestSector, SixteenBit, RootOK;
      ValidReads();
      var buf := Read(s, n);
      assert buf == ReadFrom(FlatOf(lay, View()).disk, s, n);
      r := Sectors(buf);
    }

    method PerformWrite(s: nat, buf: seq<Sector>) returns (r: Reply)
      requires Valid()
      modifies this`host, this`refcounts, this`freeClusterIndex, this`l1, this`l1Offset, this`role,
               this`cacheOffsets, this`cacheCounts, this`cacheTables
      ensures Valid() && Performed(WriteOp(s, buf), r)
    {
      hide Sound, GuestSector, DiskOf, SixteenBit, SnapshotsKept, Wrote, GrownSize, RootOK, CacheOK, CacheLive, Quot,
           Written;
      ghost var m := View();
      Write(s, buf);
      WroteFlat(m, s, buf);
      r := Done;
    }

    method PerformCreate(id: string, name: string) returns (r: Reply)
      requires Valid()
      modifies this`host, this`refcounts, this`freeClusterIndex, this`l1, this`snaps, this`dirOffset, this`dirClusters,
               this`role, this`cacheOffsets, this`cacheCounts, this`cacheTables
      ensures Fixed() && Performed(CreateOp(id, name), r) && (Valid() <==> old(RoomFor(CreateOp(id, name))))
      ensures Valid() <==> Counted(lay, View())
    {
      hide Sound, DiskOf, SixteenBit, CacheOK, CacheLive, FindId, ActiveRoom, ListedAgain;
      var ok := Create(id, name);
      r := if ok then Done else NoEntry;
    }

    method PerformGoto(key: string) returns (r: Reply)
      requires Valid()
      modifies this`host, this`refcounts, this`freeClusterIndex, this`l1, this`l1Offset, this`role, this`lost,
               this`cacheOffsets, this`cacheCounts, this`cacheTables
      ensures Fixed() && Performed(GotoOp(key), r) && (Valid() <==> old(RoomFor(GotoOp(key))))
      ensures Valid() <==> Counted(lay, View())
    {
      hide Sound, DiskOf, SixteenBit, CacheOK, CacheLive, Find, KeepsArea, SwapRoom;
      var ok := Goto(key);
      r := if ok then Done else NoEntry;
    }

    method PerformDelete(key: string) returns (r: Reply)
      requires Valid()
      modifies this`host, this`refcounts, this`freeClusterIndex, this`l1, this`snaps, this`dirOffset, this`dirClusters,
               this`role, this`cacheOffsets, this`cacheCounts, this`cacheTables
      ensures Valid() && Performed(DeleteOp(key), r)
    {
      hide Sound, DiskOf, SixteenBit, CacheOK, CacheLive, Find;
      var ok := Delete(key);
      r := if ok then Done else NoEntry;
    }

    /**
     * The counts have room for `op`: no cluster of the active root is at its limit
     * when a copy is taken, and none that the snapshot has and the active root has
     * not when it becomes active.
     */
    ghost predicate RoomFor(op: Op)
      requires Fixed()
      reads this
    {
      var f := FlatOf(lay, View());
      match op
      case CreateOp(id, _) => FindId(f.frozen, ChosenId(f.frozen, id)) < |f.frozen| || ActiveRoom(View())
      case GotoOp(key) => var k := Find(f.frozen, key); k < |snaps| ==> SwapRoom(lay, View(), k)
      case _ => true
    }

    /** Fewer snapshots than counts can hold leave room for everything. */
    lemma FewLeaveRoom(op: Op)
      requires Valid() && |snaps| + 2 <= COUNT_LIMIT
      ensures RoomFor(op)
    {
      hide Sound, SixteenBit, FlatOf, ActiveRoom, SwapRoom, CacheOK, CacheLive;
      match op {
        case CreateOp(_, _) => RoomForOneMore(View());
        case GotoOp(key) =>
          var k := Find(FlatOf(lay, View()).frozen, key);
          if k < |snaps| {
            RoomToSwap(View(), k);
          }
        case _ =>
      }
    }

    /**
     * One operation has the effect and the reply it has on the flat disk, and the
     * image stays sound if and only if the counts had room for it.
     */
    method Perform(op: Op) returns (r: Reply)
      requires Valid()
      modifies this
      ensures Fixed() && Performed(op, r) && (Valid() <==> old(RoomFor(op)))
      ensures Valid() <==> Counted(lay, View())
    {
      hide Sound, SixteenBit, CacheOK, CacheLive, FlatOf, SizesOf, Performed, ActiveRoom, SwapRoom, Counted;
      match op {
        case ReadOp(s, n) => r := PerformRead(s, n);
        case WriteOp(s, buf) => r := PerformWrite(s, buf);
        case CreateOp(id, name) => r := PerformCreate(id, name);
        case GotoOp(key) => r := PerformGoto(key);
        case DeleteOp(key) => r := PerformDelete(key);
      }
      if Valid() {
        SoundParts(lay, View(), role);
      }
    }

    /**
     * Every run of operations gives the replies of the flat disk and ends in its
     * final state.  The counts stay exact, that is, no cluster is lost, if and only
     * if no goto of the run leaves part of the L1 area behind.
     */
    method Run(ops: seq<Op>) returns (replies: seq<Reply>)
      requires Valid() && FewCopies(FlatOf(lay, View()), ops, COUNT_LIMIT - 2)
      modifies this
      ensures Valid()
      ensures RunFlat(old(FlatOf(lay, View())), ops) == (FlatOf(lay, View()), replies)
      ensures SizesOf(View()) == RunSizes(Geo(), old(FlatOf(lay, View())), old(SizesOf(View())), ops)
      ensures lost >= old(lost)
      ensures lost == old(lost) <==> KeepsAll(Geo(), old(FlatOf(lay, View())), old(SizesOf(View())), ops)
    {
      hide Sound, SixteenBit, CacheOK, CacheLive, FlatOf, SizesOf, Keeps, SizeStep, Step, FewCopies;
      replies := [];
      ghost var f, z := FlatOf(lay, View()), SizesOf(View());
      FlatSize(View());
      while |replies| < |ops|
        invariant |replies| <= |ops| && Valid()
        invariant Fits(f, z) && RunFlat(f, ops[..|replies|]) == (FlatOf(lay, View()), replies)
        invariant SizesOf(View()) == RunSizes(Geo(), f, z, ops[..|replies|])
        invariant lost >= old(lost)
        invariant lost == old(lost) <==> KeepsAll(Geo(), f, z, ops[..|replies|])
      {
        var i := |replies|;
        assert ops[..i + 1][..i] == ops[..i];
        FewBefore(f, ops, i, COUNT_LIMIT - 2);
        FlatSize(View());
        FewLeaveRoom(ops[i]);
        var r := Perform(ops[i]);
        replies := replies + [r];
      }
      assert ops[..|replies|] == ops;
    }
  }
}
