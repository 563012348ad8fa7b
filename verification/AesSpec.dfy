/**
 * The Advanced Encryption Standard on bytes, as FIPS-197 states it: the cipher of
 * section 5.1 and the equivalent inverse cipher of section 5.3.5, for any number
 * of rounds and any round keys.  The S-box is a parameter with a known inverse.
 */
module AesSpec {
  /** The S-box and its inverse. */
  datatype Boxes = Boxes(s: bv8 -> bv8, si: bv8 -> bv8)

  ghost predicate Mutual(bx: Boxes) {
    forall x: bv8 :: bx.si(bx.s(x)) == x && bx.s(bx.si(x)) == x
  }

  /** One column of the state, top row first. */
  datatype Column = Column(r0: bv8, r1: bv8, r2: bv8, r3: bv8)

  datatype State = State(c0: Column, c1: Column, c2: Column, c3: Column)

  // ---------------------------------------------------------------------------
  // Multiplication in GF(2^8)
  // ---------------------------------------------------------------------------

  function Xor(x: bv8, y: bv8): bv8 {
    x ^ y
  }

  function Xor4(x: bv8, y: bv8, z: bv8, w: bv8): bv8 {
    Xor(Xor(x, y), Xor(z, w))
  }

  function Xtime(x: bv8): bv8 {
    (x << 1) ^ ((x >> 7) * 0x1b)
  }

  function Mul3(x: bv8): bv8 { Xor(Xtime(x), x) }
  function Mul8(x: bv8): bv8 { Xtime(Xtime(Xtime(x))) }
  function Mul9(x: bv8): bv8 { Xor(Mul8(x), x) }
  function MulB(x: bv8): bv8 { Xor(Mul8(x), Mul3(x)) }
  function MulD(x: bv8): bv8 { Xor(Mul9(x), Xtime(Xtime(x))) }
  function MulE(x: bv8): bv8 { Xor(Mul8(x), Xtime(Mul3(x))) }

  // ---- sums can be taken in any order ---------------------------------------

  lemma Swap(a: bv8, b: bv8, c: bv8, d: bv8)
    ensures Xor(Xor(a, b), Xor(c, d)) == Xor(Xor(a, c), Xor(b, d))
  {
    assert (a ^ b) ^ (c ^ d) == (a ^ c) ^ (b ^ d);
  }

  lemma Swap4(a: bv8, b: bv8, c: bv8, d: bv8, e: bv8, f: bv8, g: bv8, h: bv8)
    ensures Xor4(Xor(a, e), Xor(b, f), Xor(c, g), Xor(d, h)) == Xor(Xor4(a, b, c, d), Xor4(e, f, g, h))
  {
    hide Xor;
    Swap(a, e, b, f);
    Swap(c, g, d, h);
    Swap(Xor(a, b), Xor(e, f), Xor(c, d), Xor(g, h));
  }

  lemma Transpose(a: Column, b: Column, c: Column, d: Column)
    ensures Xor4(Sum(a), Sum(b), Sum(c), Sum(d))
         == Xor4(Xor4(a.r0, b.r0, c.r0, d.r0), Xor4(a.r1, b.r1, c.r1, d.r1),
                 Xor4(a.r2, b.r2, c.r2, d.r2), Xor4(a.r3, b.r3, c.r3, d.r3))
  {
    hide Xor;
    Swap4(a.r0, a.r1, a.r2, a.r3, b.r0, b.r1, b.r2, b.r3);
    Swap4(c.r0, c.r1, c.r2, c.r3, d.r0, d.r1, d.r2, d.r3);
    Swap4(Xor(a.r0, b.r0), Xor(a.r1, b.r1), Xor(a.r2, b.r2), Xor(a.r3, b.r3),
          Xor(c.r0, d.r0), Xor(c.r1, d.r1), Xor(c.r2, d.r2), Xor(c.r3, d.r3));
  }

  function Sum(c: Column): bv8 {
    Xor4(c.r0, c.r1, c.r2, c.r3)
  }

  lemma Zero(x: bv8)
    ensures Xor(x, 0) == x && Xor(0, x) == x && Xor(x, x) == 0
  {
  }

  lemma Cancel(x: bv8, y: bv8)
    ensures Xor(Xor(x, y), y) == x
  {
  }

  // ---- multiplication is linear ---------------------------------------------

  lemma LinearX(x: bv8, y: bv8)
    ensures Xtime(Xor(x, y)) == Xor(Xtime(x), Xtime(y))
  {
    assert Xtime(x ^ y) == Xtime(x) ^ Xtime(y);
  }

  lemma Linear3(x: bv8, y: bv8)
    ensures Mul3(Xor(x, y)) == Xor(Mul3(x), Mul3(y))
  {
    hide Xor, Xtime;
    LinearX(x, y);
    Swap(Xtime(x), Xtime(y), x, y);
  }

  lemma Linear8(x: bv8, y: bv8)
    ensures Mul8(Xor(x, y)) == Xor(Mul8(x), Mul8(y))
  {
    hide Xor, Xtime;
    LinearX(x, y);
    LinearX(Xtime(x), Xtime(y));
    LinearX(Xtime(Xtime(x)), Xtime(Xtime(y)));
  }

  lemma Linear9(x: bv8, y: bv8)
    ensures Mul9(Xor(x, y)) == Xor(Mul9(x), Mul9(y))
  {
    hide Xor, Xtime, Mul8;
    Linear8(x, y);
    Swap(Mul8(x), Mul8(y), x, y);
  }

  lemma LinearB(x: bv8, y: bv8)
    ensures MulB(Xor(x, y)) == Xor(MulB(x), MulB(y))
  {
    hide Xor, Xtime, Mul8, Mul3;
    Linear8(x, y);
    Linear3(x, y);
    Swap(Mul8(x), Mul8(y), Mul3(x), Mul3(y));
  }

  lemma LinearD(x: bv8, y: bv8)
    ensures MulD(Xor(x, y)) == Xor(MulD(x), MulD(y))
  {
    hide Xor, Xtime, Mul9;
    Linear9(x, y);
    LinearX(x, y);
    LinearX(Xtime(x), Xtime(y));
    Swap(Mul9(x), Mul9(y), Xtime(Xtime(x)), Xtime(Xtime(y)));
  }

  lemma LinearE(x: bv8, y: bv8)
    ensures MulE(Xor(x, y)) == Xor(MulE(x), MulE(y))
  {
    hide Xor, Xtime, Mul8, Mul3;
    Linear8(x, y);
    Linear3(x, y);
    LinearX(Mul3(x), Mul3(y));
    Swap(Mul8(x), Mul8(y), Xtime(Mul3(x)), Xtime(Mul3(y)));
  }

  // ---- the first row of the inverse matrix, times the columns of the matrix ------

  lemma Inverse0(x: bv8)
    ensures Xor4(MulE(Xtime(x)), MulB(x), MulD(x), Mul9(Mul3(x))) == x
  {
  }

  lemma Inverse1(x: bv8)
    ensures Xor4(MulE(Mul3(x)), MulB(Xtime(x)), MulD(x), Mul9(x)) == 0
  {
  }

  lemma Inverse2(x: bv8)
    ensures Xor4(MulE(x), MulB(Mul3(x)), MulD(Xtime(x)), Mul9(x)) == 0
  {
  }

  lemma Inverse3(x: bv8)
    ensures Xor4(MulE(x), MulB(x), MulD(Mul3(x)), Mul9(Xtime(x))) == 0
  {
  }

  // ---------------------------------------------------------------------------
  // The transformations of a round
  // ---------------------------------------------------------------------------

  function XorColumn(a: Column, b: Column): Column {
    Column(Xor(a.r0, b.r0), Xor(a.r1, b.r1), Xor(a.r2, b.r2), Xor(a.r3, b.r3))
  }

  function SubColumn(f: bv8 -> bv8, c: Column): Column {
    Column(f(c.r0), f(c.r1), f(c.r2), f(c.r3))
  }

  function MixColumn(c: Column): Column {
    Column(Xor4(Xtime(c.r0), Mul3(c.r1), c.r2, c.r3),
           Xor4(c.r0, Xtime(c.r1), Mul3(c.r2), c.r3),
           Xor4(c.r0, c.r1, Xtime(c.r2), Mul3(c.r3)),
           Xor4(Mul3(c.r0), c.r1, c.r2, Xtime(c.r3)))
  }

  function InvMixColumn(c: Column): Column {
    Column(Xor4(MulE(c.r0), MulB(c.r1), MulD(c.r2), Mul9(c.r3)),
           Xor4(Mul9(c.r0), MulE(c.r1), MulB(c.r2), MulD(c.r3)),
           Xor4(MulD(c.r0), Mul9(c.r1), MulE(c.r2), MulB(c.r3)),
           Xor4(MulB(c.r0), MulD(c.r1), Mul9(c.r2), MulE(c.r3)))
  }

  function AddRoundKey(s: State, k: State): State {
    State(XorColumn(s.c0, k.c0), XorColumn(s.c1, k.c1), XorColumn(s.c2, k.c2), XorColumn(s.c3, k.c3))
  }

  function SubBytes(f: bv8 -> bv8, s: State): State {
    State(SubColumn(f, s.c0), SubColumn(f, s.c1), SubColumn(f, s.c2), SubColumn(f, s.c3))
  }

  function ShiftRows(s: State): State {
    State(Column(s.c0.r0, s.c1.r1, s.c2.r2, s.c3.r3),
          Column(s.c1.r0, s.c2.r1, s.c3.r2, s.c0.r3),
          Column(s.c2.r0, s.c3.r1, s.c0.r2, s.c1.r3),
          Column(s.c3.r0, s.c0.r1, s.c1.r2, s.c2.r3))
  }

  function InvShiftRows(s: State): State {
    State(Column(s.c0.r0, s.c3.r1, s.c2.r2, s.c1.r3),
          Column(s.c1.r0, s.c0.r1, s.c3.r2, s.c2.r3),
          Column(s.c2.r0, s.c1.r1, s.c0.r2, s.c3.r3),
          Column(s.c3.r0, s.c2.r1, s.c1.r2, s.c0.r3))
  }

  function MixColumns(s: State): State {
    State(MixColumn(s.c0), MixColumn(s.c1), MixColumn(s.c2), MixColumn(s.c3))
  }

  function InvMixColumns(s: State): State {
    State(InvMixColumn(s.c0), InvMixColumn(s.c1), InvMixColumn(s.c2), InvMixColumn(s.c3))
  }

  // ---------------------------------------------------------------------------
  // The ciphers
  // ---------------------------------------------------------------------------

  /** The state after the initial key and `r` full rounds of the cipher. */
  function Rounds(bx: Boxes, w: seq<State>, p: State, r: nat): State
    requires r < |w|
    decreases r
  {
    if r == 0 then AddRoundKey(p, w[0])
    else AddRoundKey(MixColumns(ShiftRows(SubBytes(bx.s, Rounds(bx, w, p, r - 1)))), w[r])
  }

  /** Section 5.1: `|w| - 1` rounds, the last one without MixColumns. */
  function Cipher(bx: Boxes, w: seq<State>, p: State): State
    requires |w| >= 2
  {
    AddRoundKey(ShiftRows(SubBytes(bx.s, Rounds(bx, w, p, |w| - 2))), w[|w| - 1])
  }

  function InvRounds(bx: Boxes, dw: seq<State>, c: State, r: nat): State
    requires r < |dw|
    decreases r
  {
    if r == 0 then AddRoundKey(c, dw[0])
    else AddRoundKey(InvMixColumns(InvShiftRows(SubBytes(bx.si, InvRounds(bx, dw, c, r - 1)))), dw[r])
  }

  /** Section 5.3.5, with the round keys in the order in which they are used. */
  function EqInvCipher(bx: Boxes, dw: seq<State>, c: State): State
    requires |dw| >= 2
  {
    AddRoundKey(InvShiftRows(SubBytes(bx.si, InvRounds(bx, dw, c, |dw| - 2))), dw[|dw| - 1])
  }

  /** The decryption keys: reversed, all but the outer two inverse-mixed. */
  function DecryptionKeys(w: seq<State>): seq<State> {
    seq(|w|, r requires 0 <= r < |w| =>
      if r == 0 || r == |w| - 1 then w[|w| - 1 - r] else InvMixColumns(w[|w| - 1 - r]))
  }

  // ---------------------------------------------------------------------------
  // Decryption undoes encryption
  // ---------------------------------------------------------------------------
  lemma Sum9(c: Column)
    ensures Mul9(Sum(c)) == Sum(Column(Mul9(c.r0), Mul9(c.r1), Mul9(c.r2), Mul9(c.r3)))
  {
    hide Xor, Mul9;
    Linear9(Xor(c.r0, c.r1), Xor(c.r2, c.r3));
    Linear9(c.r0, c.r1);
    Linear9(c.r2, c.r3);
  }

  lemma SumB(c: Column)
    ensures MulB(Sum(c)) == Sum(Column(MulB(c.r0), MulB(c.r1), MulB(c.r2), MulB(c.r3)))
  {
    hide Xor, MulB;
    LinearB(Xor(c.r0, c.r1), Xor(c.r2, c.r3));
    LinearB(c.r0, c.r1);
    LinearB(c.r2, c.r3);
  }

  lemma SumD(c: Column)
    ensures MulD(Sum(c)) == Sum(Column(MulD(c.r0), MulD(c.r1), MulD(c.r2), MulD(c.r3)))
  {
    hide Xor, MulD;
    LinearD(Xor(c.r0, c.r1), Xor(c.r2, c.r3));
    LinearD(c.r0, c.r1);
    LinearD(c.r2, c.r3);
  }

  lemma SumE(c: Column)
    ensures MulE(Sum(c)) == Sum(Column(MulE(c.r0), MulE(c.r1), MulE(c.r2), MulE(c.r3)))
  {
    hide Xor, MulE;
    LinearE(Xor(c.r0, c.r1), Xor(c.r2, c.r3));
    LinearE(c.r0, c.r1);
    LinearE(c.r2, c.r3);
  }

  lemma Unmix0(c: Column)
    ensures InvMixColumn(MixColumn(c)).r0 == c.r0
  {
    hide Xor4, Xor, Xtime, Mul3, Mul9, MulB, MulD, MulE;
    var m0 := Column(Xtime(c.r0), Mul3(c.r1), c.r2, c.r3);
    var m1 := Column(c.r0, Xtime(c.r1), Mul3(c.r2), c.r3);
    var m2 := Column(c.r0, c.r1, Xtime(c.r2), Mul3(c.r3));
    var m3 := Column(Mul3(c.r0), c.r1, c.r2, Xtime(c.r3));
    SumE(m0);
    SumB(m1);
    SumD(m2);
    Sum9(m3);
    Transpose(Column(MulE(m0.r0), MulE(m0.r1), MulE(m0.r2), MulE(m0.r3)),
              Column(MulB(m1.r0), MulB(m1.r1), MulB(m1.r2), MulB(m1.r3)),
              Column(MulD(m2.r0), MulD(m2.r1), MulD(m2.r2), MulD(m2.r3)),
              Column(Mul9(m3.r0), Mul9(m3.r1), Mul9(m3.r2), Mul9(m3.r3)));
    Inverse0(c.r0);
    Inverse1(c.r1);
    Inverse2(c.r2);
    Inverse3(c.r3);
    OnlyFirst(c.r0);
  }

  lemma OnlyFirst(x: bv8)
    ensures Xor4(x, 0, 0, 0) == x
  {
  }

  /** The columns turned by one row: both matrices are circulant. */
  function Turn(c: Column): Column {
    Column(c.r1, c.r2, c.r3, c.r0)
  }

  lemma Around(a: bv8, b: bv8, c: bv8, d: bv8)
    ensures Xor4(a, b, c, d) == Xor4(b, c, d, a)
  {
    assert (a ^ b) ^ (c ^ d) == (b ^ c) ^ (d ^ a);
  }

  lemma MixTurns(c: Column)
    ensures MixColumn(Turn(c)) == Turn(MixColumn(c))
  {
    hide Xor4, Xtime, Mul3;
    Around(c.r0, Xtime(c.r1), Mul3(c.r2), c.r3);
    Around(c.r0, c.r1, Xtime(c.r2), Mul3(c.r3));
    Around(Mul3(c.r0), c.r1, c.r2, Xtime(c.r3));
    Around(Xtime(c.r0), Mul3(c.r1), c.r2, c.r3);
  }

  lemma InvMixTurns(c: Column)
    ensures InvMixColumn(Turn(c)) == Turn(InvMixColumn(c))
  {
    hide Xor4, Mul9, MulB, MulD, MulE;
    Around(MulE(c.r0), MulB(c.r1), MulD(c.r2), Mul9(c.r3));
    Around(Mul9(c.r0), MulE(c.r1), MulB(c.r2), MulD(c.r3));
    Around(MulD(c.r0), Mul9(c.r1), MulE(c.r2), MulB(c.r3));
    Around(MulB(c.r0), MulD(c.r1), Mul9(c.r2), MulE(c.r3));
  }

  /** InvMixColumns undoes MixColumns. */
  lemma Unmix(c: Column)
    ensures InvMixColumn(MixColumn(c)) == c
  {
    hide MixColumn, InvMixColumn;
    var t1, t2, t3 := Turn(c), Turn(Turn(c)), Turn(Turn(Turn(c)));
    MixTurns(c);
    MixTurns(t1);
    MixTurns(t2);
    InvMixTurns(MixColumn(c));
    InvMixTurns(MixColumn(t1));
    InvMixTurns(MixColumn(t2));
    Unmix0(c);
    Unmix0(t1);
    Unmix0(t2);
    Unmix0(t3);
  }

  lemma InvMixLinear(a: Column, b: Column)
    ensures InvMixColumn(XorColumn(a, b)) == XorColumn(InvMixColumn(a), InvMixColumn(b))
  {
    hide Xor4, Xor, Mul9, MulB, MulD, MulE;
    RowsLinear(a.r0, b.r0);
    RowsLinear(a.r1, b.r1);
    RowsLinear(a.r2, b.r2);
    RowsLinear(a.r3, b.r3);
    Swap4(MulE(a.r0), MulB(a.r1), MulD(a.r2), Mul9(a.r3), MulE(b.r0), MulB(b.r1), MulD(b.r2), Mul9(b.r3));
    Swap4(Mul9(a.r0), MulE(a.r1), MulB(a.r2), MulD(a.r3), Mul9(b.r0), MulE(b.r1), MulB(b.r2), MulD(b.r3));
    Swap4(MulD(a.r0), Mul9(a.r1), MulE(a.r2), MulB(a.r3), MulD(b.r0), Mul9(b.r1), MulE(b.r2), MulB(b.r3));
    Swap4(MulB(a.r0), MulD(a.r1), Mul9(a.r2), MulE(a.r3), MulB(b.r0), MulD(b.r1), Mul9(b.r2), MulE(b.r3));
  }

  lemma RowsLinear(x: bv8, y: bv8)
    ensures Mul9(Xor(x, y)) == Xor(Mul9(x), Mul9(y)) && MulB(Xor(x, y)) == Xor(MulB(x), MulB(y))
    ensures MulD(Xor(x, y)) == Xor(MulD(x), MulD(y)) && MulE(Xor(x, y)) == Xor(MulE(x), MulE(y))
  {
    hide Xor, Mul9, MulB, MulD, MulE;
    Linear9(x, y);
    LinearB(x, y);
    LinearD(x, y);
    LinearE(x, y);
  }

  // ---- the layers of a round -----------------------------------------------------

  lemma KeyTwice(s: State, k: State)
    ensures AddRoundKey(AddRoundKey(s, k), k) == s
  {
    hide Xor;
    ColumnTwice(s.c0, k.c0);
    ColumnTwice(s.c1, k.c1);
    ColumnTwice(s.c2, k.c2);
    ColumnTwice(s.c3, k.c3);
  }

  lemma ColumnTwice(c: Column, k: Column)
    ensures XorColumn(XorColumn(c, k), k) == c
  {
    hide Xor;
    Cancel(c.r0, k.r0);
    Cancel(c.r1, k.r1);
    Cancel(c.r2, k.r2);
    Cancel(c.r3, k.r3);
  }

  lemma Unshift(bx: Boxes, s: State)
    requires Mutual(bx)
    ensures InvShiftRows(SubBytes(bx.si, ShiftRows(SubBytes(bx.s, s)))) == s
  {
  }

  lemma UnmixState(s: State)
    ensures InvMixColumns(MixColumns(s)) == s
  {
    hide MixColumn, InvMixColumn;
    Unmix(s.c0);
    Unmix(s.c1);
    Unmix(s.c2);
    Unmix(s.c3);
  }

  lemma InvMixKeys(s: State, k: State)
    ensures InvMixColumns(AddRoundKey(s, k)) == AddRoundKey(InvMixColumns(s), InvMixColumns(k))
  {
    hide XorColumn, InvMixColumn;
    InvMixLinear(s.c0, k.c0);
    InvMixLinear(s.c1, k.c1);
    InvMixLinear(s.c2, k.c2);
    InvMixLinear(s.c3, k.c3);
  }

  /** After `r` rounds of decryption, what encryption had `r` rounds before its end. */
  lemma {:induction false} MeetInMiddle(bx: Boxes, w: seq<State>, p: State, r: nat)
    requires Mutual(bx) && |w| >= 2 && r <= |w| - 2
    ensures InvRounds(bx, DecryptionKeys(w), Cipher(bx, w, p), r)
         == ShiftRows(SubBytes(bx.s, Rounds(bx, w, p, |w| - 2 - r)))
  {
    hide AddRoundKey, MixColumns, InvMixColumns, ShiftRows, InvShiftRows, SubBytes;
    var n, dw, c := |w| - 1, DecryptionKeys(w), Cipher(bx, w, p);
    if r == 0 {
      KeyTwice(ShiftRows(SubBytes(bx.s, Rounds(bx, w, p, n - 1))), w[n]);
    } else {
      MeetInMiddle(bx, w, p, r - 1);
      var e := Rounds(bx, w, p, n - r);
      var f := ShiftRows(SubBytes(bx.s, Rounds(bx, w, p, n - r - 1)));
      assert e == AddRoundKey(MixColumns(f), w[n - r]);
      Unshift(bx, e);
      InvMixKeys(e, w[n - r]);
      KeyTwice(MixColumns(f), w[n - r]);
      UnmixState(f);
      assert dw[r] == InvMixColumns(w[n - r]);
    }
  }

  /** The equivalent inverse cipher undoes the cipher, whatever the round keys are. */
  lemma DecryptEncrypt(bx: Boxes, w: seq<State>, p: State)
    requires Mutual(bx) && |w| >= 2
    ensures EqInvCipher(bx, DecryptionKeys(w), Cipher(bx, w, p)) == p
  {
    hide AddRoundKey, MixColumns, InvMixColumns, ShiftRows, InvShiftRows, SubBytes;
    MeetInMiddle(bx, w, p, |w| - 2);
    Unshift(bx, Rounds(bx, w, p, 0));
    KeyTwice(p, w[0]);
  }
}
