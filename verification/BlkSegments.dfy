/**
 * How a block request describes its buffer: one segment per page that the buffer
 * touches, with a first and a last sector.  Positions count sectors; a page holds
 * `l` of them.
 */
module BlkSegments {
  import opened Division

  datatype Segment = Segment(first: nat, last: nat)

  /** Sector `x` is in the segment of its page, the segments starting at page `start`. */
  predicate InSegments(segs: seq<Segment>, start: nat, l: nat, x: nat)
    requires l > 0
  {
    var page := Quot(x, l);
    start <= page < start + |segs| && segs[page - start].first <= Rem(x, l) <= segs[page - start].last
  }

  lemma {:induction false} QuotNext(y: nat, l: nat)
    requires l > 0
    ensures Quot(y + l, l) == Quot(y, l) + 1
  {
  }

  /**
   * Adding a page less one to a position gets to the next page exactly when the position is not at the
   * start of one.
   */
  lemma {:induction false} QuotRoundUp(y: nat, l: nat)
    requires l > 0
    ensures Quot(y + l - 1, l) == Quot(y, l) + if Rem(y, l) == 0 then 0 else 1
  {
    if y < l {
      if y > 0 {
        QuotNext(y - 1, l);
      }
    } else {
      QuotRoundUp(y - l, l);
      QuotNext(y - 1, l);
      QuotNext(y - l, l);
      if y > l {
        QuotNext(y - 1 - l, l);
      }
    }
  }

  /** How many segments a request gets. */
  function SegmentCount(buf: nat, count: nat, l: nat): int
    requires l > 0
  {
    Quot(buf + count + l - 1, l) - Quot(buf, l)
  }

  /** A request has a segment, and so a last one to correct, unless it is empty and on a page boundary. */
  lemma SomeSegment(buf: nat, count: nat, l: nat)
    requires l > 0
    ensures SegmentCount(buf, count, l) >= 1 <==> count > 0 || Rem(buf, l) != 0
    ensures SegmentCount(buf, count, l) >= 0
  {
    QuotRoundUp(buf + count, l);
    QuotMonotone(buf, buf + count, l);
    QuotRemOrder(buf + count, buf, l);
  }

  /**
   * The segments of `count` sectors from sector `buf` on, one for each page that the
   * buffer touches, cover these sectors and no others.  An empty request off a page
   * boundary has one segment, whose last sector is before its first.
   */
  method Segments(buf: nat, count: nat, l: nat) returns (start: nat, segs: seq<Segment>)
    requires l > 0 && (count > 0 || Rem(buf, l) != 0)
    ensures |segs| == SegmentCount(buf, count, l)
    ensures count > 0 ==> |segs| == Quot(buf + count - 1, l) - Quot(buf, l) + 1
    ensures forall x: nat :: InSegments(segs, start, l, x) <==> buf <= x < buf + count
    ensures forall j: nat | j < |segs| :: segs[j].last < l && (count > 0 ==> segs[j].first <= segs[j].last)
  {
    start := Quot(buf, l);
    SomeSegment(buf, count, l);
    ghost var last := buf + count - 1;
    assert buf + count + l - 1 == last + l;
    QuotNext(last, l);
    var n := Quot(buf + count + l - 1, l) - start;
    segs := [];
    while |segs| < n
      invariant |segs| <= n && forall j: nat | j < |segs| :: segs[j] == Segment(0, l - 1)
    {
      segs := segs + [Segment(0, l - 1)];
    }
    segs := segs[0 := segs[0].(first := Rem(buf, l))];
    segs := segs[n - 1 := segs[n - 1].(last := Rem(buf + count - 1, l))];
    forall x: nat
      ensures InSegments(segs, start, l, x) <==> buf <= x < buf + count
    {
      QuotRemOrder(buf, x, l);
      QuotRemOrder(x, last, l);
    }
    QuotRemOrder(buf, last, l);
    QuotRemOrder(last, buf, l);
  }

  /** A request of no sectors on a page boundary has no segment. */
  lemma NoSegment(buf: nat, l: nat)
    requires l > 0 && Rem(buf, l) == 0
    ensures SegmentCount(buf, 0, l) == 0
  {
    QuotRoundUp(buf, l);
  }
}
