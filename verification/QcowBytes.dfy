/**
 * Space for compressed clusters, handed out byte by byte inside clusters of `l`
 * bytes.  A cluster's count is the number of blobs that touch it.
 */
module QcowBytes {
  import opened Division
  import QcowLayout
  import opened QcowSpec
  import opened QcowDriver

  /** A run of bytes that was handed out. */
  datatype Blob = Blob(off: nat, size: nat)

  /** The first byte of cluster `c`. */
  function Base(c: nat, l: nat): nat {
    c * l
  }

  /** The blob has a byte in cluster `c`. */
  predicate Touches(b: Blob, c: nat, l: nat) {
    b.off < Base(c, l) + l && Base(c, l) < b.off + b.size
  }

  predicate Disjoint(a: Blob, b: Blob) {
    a.off + a.size <= b.off || b.off + b.size <= a.off
  }

  /** How many of the blobs touch cluster `c`. */
  function Touching(bs: seq<Blob>, c: nat, l: nat): (n: nat)
    ensures n <= |bs|
  {
    if |bs| == 0 then 0 else Touching(bs[..|bs| - 1], c, l) + if Touches(bs[|bs| - 1], c, l) then 1 else 0
  }

  lemma TouchingNext(bs: seq<Blob>, b: Blob, c: nat, l: nat)
    ensures Touching(bs + [b], c, l) == Touching(bs, c, l) + if Touches(b, c, l) then 1 else 0
  {
    assert (bs + [b])[..|bs|] == bs;
  }

  lemma {:induction false} Untouched(bs: seq<Blob>, i: nat, c: nat, l: nat)
    requires i < |bs| && Touching(bs, c, l) == 0
    ensures !Touches(bs[i], c, l)
    decreases |bs|
  {
    if i < |bs| - 1 { Untouched(bs[..|bs| - 1], i, c, l); }
  }

  /** Bytes that lie inside cluster `c` touch no other cluster. */
  lemma InsideOne(b: Blob, c: nat, l: nat, x: nat)
    requires b.size > 0 && Base(c, l) <= b.off && b.off + b.size <= Base(c, l) + l
    ensures Touches(b, x, l) <==> x == c
  {
    MulStep(x, c, l);
    MulStep(c, x, l);
  }

  /** Bytes that run over the end of cluster `c` touch it and the next one. */
  lemma InsideTwo(b: Blob, c: nat, l: nat, x: nat)
    requires Base(c, l) <= b.off < Base(c, l) + l < b.off + b.size <= Base(c, l) + l + l
    ensures Touches(b, x, l) <==> x == c || x == c + 1
  {
    assert Base(c + 1, l) == Base(c, l) + l;
    MulStep(x, c, l);
    MulStep(c + 1, x, l);
  }

  lemma NextCluster(c: nat, l: nat)
    ensures Base(c + 1, l) == Base(c, l) + l
  {
  }

  // ---------------------------------------------------------------------------
  // The invariant, on values
  // ---------------------------------------------------------------------------

  /** The blobs do not overlap, and the clusters they touch count them. */
  ghost predicate BlobsCounted(rc: map<nat, nat>, bs: seq<Blob>, l: nat) {
    && (forall i: nat | i < |bs| :: bs[i].size > 0)
    && (forall i: nat, j: nat | i < j < |bs| :: Disjoint(bs[i], bs[j]))
    && (forall c: nat | Touching(bs, c, l) > 0 :: Rc(rc, c) == Touching(bs, c, l))
  }

  /** From byte `free` to the end of cluster `c` no blob has a byte, and every blob in `c` used one at least. */
  ghost predicate Open(bs: seq<Blob>, c: nat, free: nat, l: nat) {
    && Base(c, l) < free < Base(c, l) + l
    && 0 < Touching(bs, c, l) <= free - Base(c, l)
    && forall i: nat | i < |bs| :: bs[i].off + bs[i].size <= free || Base(c, l) + l <= bs[i].off
  }

  /** The counts after a blob was handed out. */
  ghost predicate OneMore(rc: map<nat, nat>, rc': map<nat, nat>, b: Blob, l: nat) {
    forall c: nat :: Rc(rc', c) == Rc(rc, c) + if Touches(b, c, l) then 1 else 0
  }

  /** The new blob fits: it overlaps none, and clusters that it is the first to touch had count zero. */
  lemma BlobCounted(rc: map<nat, nat>, rc': map<nat, nat>, bs: seq<Blob>, b: Blob, l: nat)
    requires BlobsCounted(rc, bs, l) && OneMore(rc, rc', b, l) && b.size > 0
    requires forall i: nat | i < |bs| :: Disjoint(bs[i], b)
    requires forall c: nat | Touches(b, c, l) && Touching(bs, c, l) == 0 :: Rc(rc, c) == 0
    ensures BlobsCounted(rc', bs + [b], l)
  {
    hide Touches, Touching;
    var bs' := bs + [b];
    forall c: nat | Touching(bs', c, l) > 0
      ensures Rc(rc', c) == Touching(bs', c, l)
    {
      TouchingNext(bs, b, c, l);
    }
  }

  /** A cluster with count zero holds no byte of a blob. */
  lemma FreshFree(rc: map<nat, nat>, bs: seq<Blob>, c: nat, l: nat)
    requires BlobsCounted(rc, bs, l) && Rc(rc, c) == 0
    ensures Touching(bs, c, l) == 0
    ensures forall i: nat | i < |bs| :: bs[i].off + bs[i].size <= Base(c, l) || Base(c, l) + l <= bs[i].off
  {
    hide Base;
    forall i: nat | i < |bs|
      ensures bs[i].off + bs[i].size <= Base(c, l) || Base(c, l) + l <= bs[i].off
    {
      Untouched(bs, i, c, l);
    }
  }

  /** A blob whose cluster `c` does not count it. */
  lemma Miscounted(rc: map<nat, nat>, bs: seq<Blob>, b: Blob, c: nat, l: nat)
    requires Rc(rc, c) == Touching(bs, c, l) && Touches(b, c, l)
    ensures !BlobsCounted(rc, bs + [b], l)
  {
    TouchingNext(bs, b, c, l);
  }

  /** The first cluster with count zero from `from` on. */
  ghost predicate FirstFree(rc: map<nat, nat>, from: nat, c: nat) {
    from <= c && Rc(rc, c) == 0 && forall b: nat | from <= b < c :: Rc(rc, b) != 0
  }

  // ---- the three ways to place a blob ---------------------------------------------

  /** At the start of a fresh cluster. */
  lemma PlacedFresh(rc: map<nat, nat>, rc': map<nat, nat>, bs: seq<Blob>, c: nat, n: nat, l: nat)
    requires BlobsCounted(rc, bs, l) && Rc(rc, c) == 0 && 0 < n <= l
    requires forall x: nat :: Rc(rc', x) == Rc(rc, x) + if x == c then 1 else 0
    ensures var b := Blob(Base(c, l), n);
            OneMore(rc, rc', b, l) && BlobsCounted(rc', bs + [b], l) && (n < l ==> Open(bs + [b], c, Base(c, l) + n, l))
  {
    hide Base, Touches, Touching, BlobsCounted;
    var b := Blob(Base(c, l), n);
    forall x: nat
      ensures Touches(b, x, l) <==> x == c
    {
      InsideOne(b, c, l, x);
    }
    FreshFree(rc, bs, c, l);
    BlobCounted(rc, rc', bs, b, l);
    TouchingNext(bs, b, c, l);
  }

  /** In the open rest of cluster `c`. */
  lemma PlacedOpen(rc: map<nat, nat>, rc': map<nat, nat>, bs: seq<Blob>, c: nat, free: nat, n: nat, l: nat)
    requires BlobsCounted(rc, bs, l) && Open(bs, c, free, l) && 0 < n <= Base(c, l) + l - free
    requires forall x: nat :: Rc(rc', x) == Rc(rc, x) + if x == c then 1 else 0
    ensures var b := Blob(free, n);
            && OneMore(rc, rc', b, l) && BlobsCounted(rc', bs + [b], l)
            && (free + n < Base(c, l) + l ==> Open(bs + [b], c, free + n, l))
  {
    hide Base, Touches, Touching;
    var b := Blob(free, n);
    forall x: nat
      ensures Touches(b, x, l) <==> x == c
    {
      InsideOne(b, c, l, x);
    }
    BlobCounted(rc, rc', bs, b, l);
    TouchingNext(bs, b, c, l);
  }

  /** Over the end of cluster `c` into the next one, which was fresh. */
  lemma PlacedAcross(rc: map<nat, nat>, rc': map<nat, nat>, bs: seq<Blob>, c: nat, free: nat, n: nat, l: nat)
    requires BlobsCounted(rc, bs, l) && Open(bs, c, free, l) && Base(c, l) + l - free < n <= l && Rc(rc, c + 1) == 0
    requires forall x: nat :: Rc(rc', x) == Rc(rc, x) + if x == c || x == c + 1 then 1 else 0
    ensures var b := Blob(free, n);
            OneMore(rc, rc', b, l) && BlobsCounted(rc', bs + [b], l) && Open(bs + [b], c + 1, free + n, l)
  {
    hide Base, Touches, Touching;
    var b := Blob(free, n);
    NextCluster(c, l);
    forall x: nat
      ensures Touches(b, x, l) <==> x == c || x == c + 1
    {
      InsideTwo(b, c, l, x);
    }
    FreshFree(rc, bs, c + 1, l);
    BlobCounted(rc, rc', bs, b, l);
    TouchingNext(bs, b, c + 1, l);
  }

  // ---------------------------------------------------------------------------
  // The allocator
  // ---------------------------------------------------------------------------

  class ByteAllocator {
    const disk: QcowDisk
    /** Bytes per cluster. */
    const l: nat

    /** Where the open cluster's free bytes begin; 0 when no cluster is open. */
    var freeByte: nat
    ghost var blobs: seq<Blob>

    ghost predicate Valid()
      reads this, disk
    {
      && l > 0 && BlobsCounted(disk.refcounts, blobs, l)
      && (freeByte != 0 ==> Open(blobs, Quot(freeByte, l), freeByte, l))
    }

    constructor (disk: QcowDisk, l: nat)
      requires l > 0
      ensures Valid() && this.disk == disk && this.l == l && blobs == [] && freeByte == 0
    {
      this.disk, this.l, freeByte, blobs := disk, l, 0, [];
    }

    /** Cluster number and position of a byte in it. */
    lemma Where(c: nat, free: nat)
      requires l > 0 && Base(c, l) <= free < Base(c, l) + l
      ensures Quot(free, l) == c && Rem(free, l) == free - Base(c, l)
    {
      QuotRemUnique(c, free - Base(c, l), l);
    }

    /** Where free bytes begin after `n` bytes at `off`, which end inside a cluster or with it. */
    function Rest(off: nat, n: nat): nat
      requires l > 0
    {
      if n == l - Rem(off, l) then 0 else off + n
    }

    /** Open a fresh cluster and put the blob at its start. */
    method PlaceFresh(n: nat, c: nat, ghost rc: map<nat, nat>) returns (off: nat)
      requires l > 0 && BlobsCounted(rc, blobs, l) && Rc(rc, c) == 0 && 0 < n <= l
      requires forall x: nat :: Rc(disk.refcounts, x) == Rc(rc, x) + if x == c then 1 else 0
      modifies this`freeByte, this`blobs
      ensures Valid() && off == Base(c, l) && blobs == old(blobs) + [Blob(off, n)] && freeByte == Rest(off, n)
      ensures OneMore(rc, disk.refcounts, Blob(off, n), l)
    {
      hide Base;
      PlacedFresh(rc, disk.refcounts, blobs, c, n, l);
      off := Base(c, l);
      Where(c, off);
      freeByte := if n == l then 0 else off + n;
      blobs := blobs + [Blob(off, n)];
      if n < l {
        Where(c, off + n);
      }
    }

    /** The open cluster's count is at its 16-bit limit. */
    ghost predicate Full()
      reads this, disk
    {
      freeByte != 0 && l > 0 && Touching(blobs, Quot(freeByte, l), l) >= COUNT_LIMIT
    }

    /**
     * The next `n` bytes begin in the open cluster: they fit in there, or the first
     * free cluster is the one behind it.
     */
    ghost predicate StaysOpen(n: nat)
      reads this, disk
    {
      && freeByte != 0 && l > 0
      && (n <= l - Rem(freeByte, l) || FirstFree(disk.refcounts, disk.freeClusterIndex, Quot(freeByte, l) + 1))
    }

    /** Put the blob into the open rest of cluster `c`. */
    method PlaceOpen(n: nat, c: nat) returns (off: nat)
      requires Valid() && freeByte != 0 && c == Quot(freeByte, l) && 0 < n <= l - Rem(freeByte, l)
      modifies this`freeByte, this`blobs, disk`refcounts, disk`freeClusterIndex
      ensures off == old(freeByte) && blobs == old(blobs) + [Blob(off, n)] && freeByte == Rest(off, n)
      ensures !old(Full()) ==> Valid() && OneMore(old(disk.refcounts), disk.refcounts, Blob(off, n), l)
      ensures old(Full()) ==> !Valid()
    {
      hide BlobsCounted, OneMore, Touching, Base;
      ghost var rc, full := disk.refcounts, Full();
      Where(c, freeByte);
      CurrentCount(rc, blobs, c, freeByte, l);
      off := freeByte;
      var r := disk.UpdateClusterRefcount(c, 1);
      InsideOne(Blob(off, n), c, l, c);
      if !full {
        PlacedOpen(rc, disk.refcounts, blobs, c, off, n, l);
      } else {
        Miscounted(disk.refcounts, blobs, Blob(off, n), c, l);
      }
      freeByte := if n == l - Rem(off, l) then 0 else off + n;
      blobs := blobs + [Blob(off, n)];
      if n < l - Rem(off, l) {
        Where(c, off + n);
      }
    }

    /** Put the blob across the end of cluster `c` into the next one, which was fresh under the counts `rc`. */
    method PlaceAcross(n: nat, c: nat, ghost rc: map<nat, nat>) returns (off: nat)
      requires l > 0 && BlobsCounted(rc, blobs, l) && Open(blobs, c, freeByte, l) && c == Quot(freeByte, l)
      requires Base(c, l) + l - freeByte < n <= l && Rc(rc, c + 1) == 0
      requires forall x: nat :: Rc(disk.refcounts, x) == Rc(rc, x) + if x == c + 1 then 1 else 0
      modifies this`freeByte, this`blobs, disk`refcounts, disk`freeClusterIndex
      ensures off == old(freeByte) && blobs == old(blobs) + [Blob(off, n)] && freeByte == off + n
      ensures Touching(old(blobs), c, l) < COUNT_LIMIT ==> Valid() && OneMore(rc, disk.refcounts, Blob(off, n), l)
      ensures Touching(old(blobs), c, l) >= COUNT_LIMIT ==> !Valid()
    {
      hide BlobsCounted, OneMore, Touching, Base;
      CurrentCount(rc, blobs, c, freeByte, l);
      off := freeByte;
      var r := disk.UpdateClusterRefcount(c, 1);
      InsideTwo(Blob(off, n), c, l, c);
      if Touching(blobs, c, l) < COUNT_LIMIT {
        PlacedAcross(rc, disk.refcounts, blobs, c, off, n, l);
      } else {
        Miscounted(disk.refcounts, blobs, Blob(off, n), c, l);
      }
      freeByte := off + n;
      blobs := blobs + [Blob(off, n)];
      NextCluster(c, l);
      Where(c + 1, off + n);
    }

    /**
     * Hand out `n` bytes, in the open cluster if they stay there, else at the start
     * of the first free cluster.  The new blob overlaps no earlier one, and the count
     * of exactly the clusters it touches goes up by one, so that every cluster counts
     * the blobs that touch it.  This fails in one case only: the bytes stay in the
     * open cluster although its count is at the limit.
     */
    method AllocBytes(n: nat) returns (off: nat)
      requires Valid() && 0 < n <= l
      modifies this`freeByte, this`blobs, disk`refcounts, disk`freeClusterIndex
      ensures blobs == old(blobs) + [Blob(off, n)] && freeByte == Rest(off, n)
      ensures if old(StaysOpen(n)) then off == old(freeByte)
              else exists c: nat :: FirstFree(old(disk.refcounts), old(disk.freeClusterIndex), c) && off == Base(c, l)
      ensures Valid() <==> !old(Full() && StaysOpen(n))
      ensures Valid() ==> OneMore(old(disk.refcounts), disk.refcounts, Blob(off, n), l)
    {
      hide BlobsCounted, Touching, Base, OneMore;
      ghost var rc, bs := disk.refcounts, blobs;
      if freeByte == 0 {
        var c := Fresh();
        off := PlaceFresh(n, c, rc);
        return;
      }
      var c := Quot(freeByte, l);
      Where(c, freeByte);
      if n <= l - Rem(freeByte, l) {
        off := PlaceOpen(n, c);
        return;
      }
      CurrentCount(rc, bs, c, freeByte, l);
      var next := Fresh();
      if c + 1 == next {
        off := PlaceAcross(n, c, rc);
      } else {
        off := PlaceFresh(n, next, rc);
      }
    }

    /** The first free cluster, counted now. */
    method Fresh() returns (c: nat)
      modifies disk`refcounts, disk`freeClusterIndex
      ensures FirstFree(old(disk.refcounts), old(disk.freeClusterIndex), c)
      ensures forall x: nat :: Rc(disk.refcounts, x) == Rc(old(disk.refcounts), x) + if x == c then 1 else 0
    {
      ghost var rc := disk.refcounts;
      c := disk.AllocClusters(1);
      assert QcowLayout.InArea(c, 1, c);
      forall b: nat | old(disk.freeClusterIndex) <= b < c
        ensures Rc(rc, b) != 0
      {
        assert Rc(rc, b) == 0 ==> FreeRun(rc, b, 1);
      }
    }
  }

  // ---------------------------------------------------------------------------
  // A count that runs out
  // ---------------------------------------------------------------------------

  /** One byte more in the open cluster. */
  method OneByte(a: ByteAllocator, ghost c: nat, k: nat)
    requires a.Valid() && 0 < k < COUNT_LIMIT && a.l == COUNT_LIMIT + 1
    requires a.freeByte == Base(c, a.l) + k && Touching(a.blobs, c, a.l) == k
    modifies a`freeByte, a`blobs, a.disk`refcounts, a.disk`freeClusterIndex
    ensures a.Valid() && a.freeByte == Base(c, a.l) + k + 1 && Touching(a.blobs, c, a.l) == k + 1
  {
    hide BlobsCounted, OneMore, Touching, Base, Open;
    ghost var bs := a.blobs;
    a.Where(c, a.freeByte);
    var off := a.AllocBytes(1);
    InsideOne(Blob(off, 1), c, a.l, c);
    TouchingNext(bs, Blob(off, 1), c, a.l);
  }

  /** 64 KB clusters: 65535 requests of one byte each leave the open cluster's count at its limit. */
  method FillCluster(disk: QcowDisk) returns (a: ByteAllocator)
    modifies disk`refcounts, disk`freeClusterIndex
    ensures fresh(a) && a.disk == disk && a.l == COUNT_LIMIT + 1 && a.Valid() && a.Full() && a.StaysOpen(1)
  {
    hide BlobsCounted, OneMore, Touching, Base, Open;
    a := new ByteAllocator(disk, COUNT_LIMIT + 1);
    var off := a.AllocBytes(1);
    ghost var c: nat :| off == Base(c, a.l);
    var k := 1;
    a.Where(c, off);
    a.Where(c, off + 1);
    InsideOne(Blob(off, 1), c, a.l, c);
    TouchingNext([], Blob(off, 1), c, a.l);
    while k < COUNT_LIMIT
      invariant 1 <= k <= COUNT_LIMIT && a.Valid()
      invariant a.freeByte == Base(c, a.l) + k && Touching(a.blobs, c, a.l) == k
    {
      OneByte(a, c, k);
      k := k + 1;
    }
    a.Where(c, a.freeByte);
  }

  /** One more byte, and the cluster holds a blob that it does not count. */
  method OverfillCluster(disk: QcowDisk) returns (a: ByteAllocator)
    modifies disk`refcounts, disk`freeClusterIndex
    ensures fresh(a) && a.disk == disk && !a.Valid()
  {
    a := FillCluster(disk);
    var off := a.AllocBytes(1);
  }

  lemma CurrentCount(rc: map<nat, nat>, bs: seq<Blob>, c: nat, free: nat, l: nat)
    requires BlobsCounted(rc, bs, l) && Open(bs, c, free, l)
    ensures Rc(rc, c) == Touching(bs, c, l) > 0
  {
  }

  /**
   * In clusters below 64 KB the count of the open cluster never reaches its limit; at 64 KB only single
   * bytes get it there.
   */
  lemma RoomToCount(bs: seq<Blob>, c: nat, free: nat, l: nat)
    requires Open(bs, c, free, l) && l <= COUNT_LIMIT + 1
    ensures l <= COUNT_LIMIT ==> Touching(bs, c, l) < COUNT_LIMIT
    ensures Touching(bs, c, l) >= COUNT_LIMIT ==>
              l == COUNT_LIMIT + 1 && free - Base(c, l) == COUNT_LIMIT == Touching(bs, c, l)
  {
  }
}
