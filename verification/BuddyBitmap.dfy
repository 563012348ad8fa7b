/**
 * The allocation bitmap of the page allocator: one bit per page, 64 pages per
 * word, set for allocated pages.  Runs of pages are marked with word masks.
 */
module BuddyBitmap {
  const WORD: nat := 64

  // ---------------------------------------------------------------------------
  // Bits and masks of one word
  // ---------------------------------------------------------------------------

  /** The mask of all bits below `e`. */
  function Below(e: bv6): bv64 {
    ((1 as bv64) << e) - 1
  }

  /** The mask of all bits from `s` up. */
  function From(s: bv6): bv64 {
    -((1 as bv64) << s)
  }

  function And(x: bv64, y: bv64): bv64 {
    x & y
  }

  function Or(x: bv64, y: bv64): bv64 {
    x | y
  }

  predicate TestBit(w: bv64, b: bv6) {
    (w >> b) & 1 == 1
  }

  predicate Masked(w: bv64, b: bv6) {
    w & ((1 as bv64) << b) != 0
  }

  /** Masking with a single bit tests that bit. */
  lemma MaskTests(w: bv64, b: bv6)
    ensures Masked(w, b) <==> TestBit(w, b)
  {
  }

  lemma OffsetBack(x: nat)
    requires x < WORD
    ensures (x as bv6) as nat == x
  {
  }

  lemma OffsetOrder(a: bv6, b: bv6)
    ensures a < b <==> a as nat < b as nat
  {
  }

  lemma BitsBelow(e: bv6, b: bv6)
    ensures TestBit(Below(e), b) <==> b < e
  {
  }

  lemma BitsFrom(s: bv6, b: bv6)
    ensures TestBit(From(s), b) <==> b >= s
  {
  }

  lemma BitsAnd(x: bv64, y: bv64, b: bv6)
    ensures TestBit(And(x, y), b) <==> TestBit(x, b) && TestBit(y, b)
  {
    hide TestBit;
    WordAnd(x, y, b);
  }

  lemma WordAnd(x: bv64, y: bv64, b: bv6)
    ensures TestBit(x & y, b) <==> TestBit(x, b) && TestBit(y, b)
  {
  }

  lemma BitsOr(x: bv64, y: bv64, b: bv6)
    ensures TestBit(Or(x, y), b) <==> TestBit(x, b) || TestBit(y, b)
  {
    hide TestBit;
    WordOr(x, y, b);
  }

  lemma WordOr(x: bv64, y: bv64, b: bv6)
    ensures TestBit(x | y, b) <==> TestBit(x, b) || TestBit(y, b)
  {
  }

  lemma BitsAll(b: bv6)
    ensures !TestBit(0, b) && TestBit(0xffff_ffff_ffff_ffff, b)
  {
  }

  // ---------------------------------------------------------------------------
  // Runs of pages
  // ---------------------------------------------------------------------------

  function Offset(pn: nat): bv6 {
    (pn % WORD) as bv6
  }

  /** Page `pn` is allocated according to the words `ws`. */
  predicate Allocated(ws: seq<bv64>, pn: nat)
    requires pn < WORD * |ws|
  {
    TestBit(ws[pn / WORD], Offset(pn))
  }

  /** Inside one word, positions of pages are ordered as their offsets. */
  lemma SameWord(x: nat, y: nat)
    requires x / WORD == y / WORD
    ensures Offset(x) < Offset(y) <==> x < y
  {
    OffsetBack(x % WORD);
    OffsetBack(y % WORD);
    OffsetOrder(Offset(x), Offset(y));
  }

  /** What one word has to hold for pages `[first, last)` to be changed to `value`. */
  ghost predicate WordDone(was: bv64, now: bv64, i: nat, first: nat, last: nat, value: bool) {
    forall pn: nat | pn / WORD == i ::
      TestBit(now, Offset(pn)) == if first <= pn < last then value else TestBit(was, Offset(pn))
  }

  lemma MiddleWord(was: bv64, i: nat, first: nat, last: nat)
    requires first / WORD < i < last / WORD
    ensures WordDone(was, 0xffff_ffff_ffff_ffff, i, first, last, true)
    ensures WordDone(was, 0, i, first, last, false)
  {
    hide TestBit;
    forall pn: nat | pn / WORD == i
      ensures TestBit(0xffff_ffff_ffff_ffff, Offset(pn)) && !TestBit(0, Offset(pn)) && first <= pn < last
    {
      BitsAll(Offset(pn));
    }
  }

  lemma OneWordSet(was: bv64, i: nat, first: nat, last: nat)
    requires i == first / WORD == last / WORD && first <= last
    ensures WordDone(was, Or(was, And(Below(Offset(last)), From(Offset(first)))), i, first, last, true)
  {
    hide TestBit, Below, From, And, Or, Offset;
    var s, e := Offset(first), Offset(last);
    forall pn: nat | pn / WORD == i
      ensures TestBit(Or(was, And(Below(e), From(s))), Offset(pn)) == (first <= pn < last || TestBit(was, Offset(pn)))
    {
      var b := Offset(pn);
      SameWord(pn, first);
      SameWord(pn, last);
      BitsBelow(e, b);
      BitsFrom(s, b);
      BitsAnd(Below(e), From(s), b);
      BitsOr(was, And(Below(e), From(s)), b);
    }
  }

  lemma OneWordClear(was: bv64, i: nat, first: nat, last: nat)
    requires i == first / WORD == last / WORD && first <= last
    ensures WordDone(was, And(was, Or(From(Offset(last)), Below(Offset(first)))), i, first, last, false)
  {
    hide TestBit, Below, From, And, Or, Offset;
    var s, e := Offset(first), Offset(last);
    forall pn: nat | pn / WORD == i
      ensures TestBit(And(was, Or(From(e), Below(s))), Offset(pn)) ==
              (!(first <= pn < last) && TestBit(was, Offset(pn)))
    {
      var b := Offset(pn);
      SameWord(pn, first);
      SameWord(pn, last);
      BitsBelow(s, b);
      BitsFrom(e, b);
      BitsOr(From(e), Below(s), b);
      BitsAnd(was, Or(From(e), Below(s)), b);
    }
  }

  lemma FirstWord(was: bv64, first: nat, last: nat)
    requires first / WORD < last / WORD
    ensures WordDone(was, Or(was, From(Offset(first))), first / WORD, first, last, true)
    ensures WordDone(was, And(was, Below(Offset(first))), first / WORD, first, last, false)
  {
    hide TestBit, Below, From, And, Or, Offset;
    var s := Offset(first);
    forall pn: nat | pn / WORD == first / WORD
      ensures TestBit(Or(was, From(s)), Offset(pn)) == (first <= pn < last || TestBit(was, Offset(pn)))
      ensures TestBit(And(was, Below(s)), Offset(pn)) == (!(first <= pn < last) && TestBit(was, Offset(pn)))
    {
      var b := Offset(pn);
      SameWord(pn, first);
      BitsBelow(s, b);
      BitsFrom(s, b);
      BitsOr(was, From(s), b);
      BitsAnd(was, Below(s), b);
    }
  }

  lemma LastWord(was: bv64, first: nat, last: nat)
    requires first / WORD < last / WORD
    ensures WordDone(was, Or(was, Below(Offset(last))), last / WORD, first, last, true)
    ensures WordDone(was, And(was, From(Offset(last))), last / WORD, first, last, false)
  {
    hide TestBit, Below, From, And, Or, Offset;
    var e := Offset(last);
    forall pn: nat | pn / WORD == last / WORD
      ensures TestBit(Or(was, Below(e)), Offset(pn)) == (first <= pn < last || TestBit(was, Offset(pn)))
      ensures TestBit(And(was, From(e)), Offset(pn)) == (!(first <= pn < last) && TestBit(was, Offset(pn)))
    {
      var b := Offset(pn);
      SameWord(pn, last);
      BitsBelow(e, b);
      BitsFrom(e, b);
      BitsOr(was, Below(e), b);
      BitsAnd(was, From(e), b);
    }
  }

  /** Exactly the pages `[first, last)` have changed, to `value`. */
  ghost predicate RunChanged(was: seq<bv64>, now: seq<bv64>, first: nat, last: nat, value: bool) {
    && |now| == |was|
    && forall pn: nat | pn < WORD * |was| ::
         Allocated(now, pn) == if first <= pn < last then value else Allocated(was, pn)
  }

  lemma WordsDone(was: seq<bv64>, now: seq<bv64>, first: nat, last: nat, value: bool)
    requires |now| == |was| && first <= last
    requires forall i: nat | i < |was| && !(first / WORD <= i <= last / WORD) :: now[i] == was[i]
    requires forall i: nat | i < |was| && first / WORD <= i <= last / WORD ::
               WordDone(was[i], now[i], i, first, last, value)
    ensures RunChanged(was, now, first, last, value)
  {
    hide TestBit, Offset;
    forall pn: nat | pn < WORD * |was|
      ensures Allocated(now, pn) == if first <= pn < last then value else Allocated(was, pn)
    {
      var i := pn / WORD;
      if first / WORD <= i <= last / WORD {
        assert WordDone(was[i], now[i], i, first, last, value);
      }
    }
  }

  /** Is page `pn` allocated? */
  method AllocatedInMap(bitmap: array<bv64>, pn: nat) returns (r: bool)
    requires pn < WORD * bitmap.Length
    ensures r <==> Allocated(bitmap[..], pn)
  {
    hide TestBit, Masked, Offset;
    MaskTests(bitmap[pn / WORD], Offset(pn));
    r := Masked(bitmap[pn / WORD], Offset(pn));
  }

  /** Mark `n` pages from `first` on as allocated: these pages and no others. */
  method MapAlloc(bitmap: array<bv64>, first: nat, n: nat)
    requires (first + n) / WORD < bitmap.Length
    modifies bitmap
    ensures RunChanged(old(bitmap[..]), bitmap[..], first, first + n, true)
  {
    hide TestBit, Below, From, And, Or, Offset, WordDone, RunChanged;
    var cur, end := first / WORD, (first + n) / WORD;
    var s, e := Offset(first), Offset(first + n);
    ghost var was := bitmap[..];
    if cur == end {
      OneWordSet(was[cur], cur, first, first + n);
      bitmap[cur] := Or(bitmap[cur], And(Below(e), From(s)));
    } else {
      FirstWord(was[cur], first, first + n);
      LastWord(was[end], first, first + n);
      bitmap[cur] := Or(bitmap[cur], From(s));
      cur := cur + 1;
      while cur < end
        invariant first / WORD < cur <= end
        invariant forall i: nat | i < bitmap.Length && !(first / WORD <= i < cur) :: bitmap[i] == was[i]
        invariant forall i: nat | first / WORD <= i < cur :: WordDone(was[i], bitmap[i], i, first, first + n, true)
      {
        MiddleWord(was[cur], cur, first, first + n);
        bitmap[cur] := 0xffff_ffff_ffff_ffff;
        cur := cur + 1;
      }
      bitmap[cur] := Or(bitmap[cur], Below(e));
    }
    WordsDone(was, bitmap[..], first, first + n, true);
  }

  /** Mark `n` pages from `first` on as free: these pages and no others. */
  method MapFree(bitmap: array<bv64>, first: nat, n: nat)
    requires (first + n) / WORD < bitmap.Length
    modifies bitmap
    ensures RunChanged(old(bitmap[..]), bitmap[..], first, first + n, false)
  {
    hide TestBit, Below, From, And, Or, Offset, WordDone, RunChanged;
    var cur, end := first / WORD, (first + n) / WORD;
    var s, e := Offset(first), Offset(first + n);
    ghost var was := bitmap[..];
    if cur == end {
      OneWordClear(was[cur], cur, first, first + n);
      bitmap[cur] := And(bitmap[cur], Or(From(e), Below(s)));
    } else {
      FirstWord(was[cur], first, first + n);
      LastWord(was[end], first, first + n);
      bitmap[cur] := And(bitmap[cur], Below(s));
      cur := cur + 1;
      while cur != end
        invariant first / WORD < cur <= end
        invariant forall i: nat | i < bitmap.Length && !(first / WORD <= i < cur) :: bitmap[i] == was[i]
        invariant forall i: nat | first / WORD <= i < cur :: WordDone(was[i], bitmap[i], i, first, first + n, false)
      {
        MiddleWord(was[cur], cur, first, first + n);
        bitmap[cur] := 0;
        cur := cur + 1;
      }
      bitmap[cur] := And(bitmap[cur], From(e));
    }
    WordsDone(was, bitmap[..], first, first + n, false);
  }
}
