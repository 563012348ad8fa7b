/**
 * AES on 32-bit words: the lookup tables, given by their defining identities, and
 * what a table round means for the columns of the state.
 */
module AesTables {
  import opened AesSpec

  // ---------------------------------------------------------------------------
  // Words and bytes
  // ---------------------------------------------------------------------------

  function Byte0(w: bv32): bv8 { (w >> 24) as bv8 }
  function Byte1(w: bv32): bv8 { ((w >> 16) & 0xff) as bv8 }
  function Byte2(w: bv32): bv8 { ((w >> 8) & 0xff) as bv8 }
  function Byte3(w: bv32): bv8 { (w & 0xff) as bv8 }

  /** The word with the given bytes, most significant first. */
  function Pack(a: bv8, b: bv8, c: bv8, d: bv8): bv32 {
    ((a as bv32) << 24) ^ ((b as bv32) << 16) ^ ((c as bv32) << 8) ^ (d as bv32)
  }

  function XorWord(x: bv32, y: bv32): bv32 {
    x ^ y
  }

  function AndWord(x: bv32, y: bv32): bv32 {
    x & y
  }

  function ToColumn(w: bv32): Column {
    Column(Byte0(w), Byte1(w), Byte2(w), Byte3(w))
  }

  lemma PackBytes(a: bv8, b: bv8, c: bv8, d: bv8)
    ensures ToColumn(Pack(a, b, c, d)) == Column(a, b, c, d)
  {
  }

  lemma Repack(w: bv32)
    ensures Pack(Byte0(w), Byte1(w), Byte2(w), Byte3(w)) == w
  {
  }

  lemma XorBytes(x: bv32, y: bv32)
    ensures ToColumn(XorWord(x, y)) == XorColumn(ToColumn(x), ToColumn(y))
  {
  }

  lemma MaskBytes(x: bv32)
    ensures ToColumn(AndWord(x, 0xff000000)) == Column(Byte0(x), 0, 0, 0)
    ensures ToColumn(AndWord(x, 0x00ff0000)) == Column(0, Byte1(x), 0, 0)
    ensures ToColumn(AndWord(x, 0x0000ff00)) == Column(0, 0, Byte2(x), 0)
    ensures ToColumn(AndWord(x, 0x000000ff)) == Column(0, 0, 0, Byte3(x))
  {
  }

  // ---------------------------------------------------------------------------
  // The tables
  // ---------------------------------------------------------------------------

  function Te0(bx: Boxes, x: bv8): bv32 {
    var v := bx.s(x);
    Pack(Xtime(v), v, v, Mul3(v))
  }

  function Te1(bx: Boxes, x: bv8): bv32 {
    var v := bx.s(x);
    Pack(Mul3(v), Xtime(v), v, v)
  }

  function Te2(bx: Boxes, x: bv8): bv32 {
    var v := bx.s(x);
    Pack(v, Mul3(v), Xtime(v), v)
  }

  function Te3(bx: Boxes, x: bv8): bv32 {
    var v := bx.s(x);
    Pack(v, v, Mul3(v), Xtime(v))
  }

  function Te4(bx: Boxes, x: bv8): bv32 {
    var v := bx.s(x);
    Pack(v, v, v, v)
  }

  function Td0(bx: Boxes, x: bv8): bv32 {
    var v := bx.si(x);
    Pack(MulE(v), Mul9(v), MulD(v), MulB(v))
  }

  function Td1(bx: Boxes, x: bv8): bv32 {
    var v := bx.si(x);
    Pack(MulB(v), MulE(v), Mul9(v), MulD(v))
  }

  function Td2(bx: Boxes, x: bv8): bv32 {
    var v := bx.si(x);
    Pack(MulD(v), MulB(v), MulE(v), Mul9(v))
  }

  function Td3(bx: Boxes, x: bv8): bv32 {
    var v := bx.si(x);
    Pack(Mul9(v), MulD(v), MulB(v), MulE(v))
  }

  function Td4(bx: Boxes, x: bv8): bv32 {
    var v := bx.si(x);
    Pack(v, v, v, v)
  }

  // ---------------------------------------------------------------------------
  // One word of a round
  // ---------------------------------------------------------------------------

  function Xor4Words(a: bv32, b: bv32, c: bv32, d: bv32): bv32 {
    XorWord(XorWord(XorWord(a, b), c), d)
  }

  function EncWord(bx: Boxes, a: bv32, b: bv32, c: bv32, d: bv32, k: bv32): bv32 {
    XorWord(Xor4Words(Te0(bx, Byte0(a)), Te1(bx, Byte1(b)), Te2(bx, Byte2(c)), Te3(bx, Byte3(d))), k)
  }

  function EncLast(bx: Boxes, a: bv32, b: bv32, c: bv32, d: bv32, k: bv32): bv32 {
    XorWord(Xor4Words(AndWord(Te4(bx, Byte0(a)), 0xff000000), AndWord(Te4(bx, Byte1(b)), 0x00ff0000),
                      AndWord(Te4(bx, Byte2(c)), 0x0000ff00), AndWord(Te4(bx, Byte3(d)), 0x000000ff)), k)
  }

  function DecWord(bx: Boxes, a: bv32, b: bv32, c: bv32, d: bv32, k: bv32): bv32 {
    XorWord(Xor4Words(Td0(bx, Byte0(a)), Td1(bx, Byte1(b)), Td2(bx, Byte2(c)), Td3(bx, Byte3(d))), k)
  }

  function DecLast(bx: Boxes, a: bv32, b: bv32, c: bv32, d: bv32, k: bv32): bv32 {
    XorWord(Xor4Words(AndWord(Td4(bx, Byte0(a)), 0xff000000), AndWord(Td4(bx, Byte1(b)), 0x00ff0000),
                      AndWord(Td4(bx, Byte2(c)), 0x0000ff00), AndWord(Td4(bx, Byte3(d)), 0x000000ff)), k)
  }

  /** How the key schedule for decryption mixes one word, with the encryption and the decryption tables. */
  function MixedWord(bx: Boxes, w: bv32): bv32 {
    Xor4Words(Td0(bx, Byte3(Te4(bx, Byte0(w)))), Td1(bx, Byte3(Te4(bx, Byte1(w)))),
              Td2(bx, Byte3(Te4(bx, Byte2(w)))), Td3(bx, Byte3(Te4(bx, Byte3(w)))))
  }

  /** The bytes that a round collects from four words. */
  function Diagonal(a: bv32, b: bv32, c: bv32, d: bv32): Column {
    Column(Byte0(a), Byte1(b), Byte2(c), Byte3(d))
  }

  lemma Regroup(a: bv8, b: bv8, c: bv8, d: bv8)
    ensures Xor(Xor(Xor(a, b), c), d) == Xor4(a, b, c, d)
  {
    assert ((a ^ b) ^ c) ^ d == (a ^ b) ^ (c ^ d);
  }

  lemma Xor4Bytes(a: bv32, b: bv32, c: bv32, d: bv32)
    ensures var e, f, g, h := ToColumn(a), ToColumn(b), ToColumn(c), ToColumn(d);
            ToColumn(Xor4Words(a, b, c, d)) ==
            Column(Xor4(e.r0, f.r0, g.r0, h.r0), Xor4(e.r1, f.r1, g.r1, h.r1),
                   Xor4(e.r2, f.r2, g.r2, h.r2), Xor4(e.r3, f.r3, g.r3, h.r3))
  {
    hide XorWord, ToColumn, Xor, Xor4;
    XorBytes(a, b);
    XorBytes(XorWord(a, b), c);
    XorBytes(XorWord(XorWord(a, b), c), d);
    var e, f, g, h := ToColumn(a), ToColumn(b), ToColumn(c), ToColumn(d);
    Regroup(e.r0, f.r0, g.r0, h.r0);
    Regroup(e.r1, f.r1, g.r1, h.r1);
    Regroup(e.r2, f.r2, g.r2, h.r2);
    Regroup(e.r3, f.r3, g.r3, h.r3);
  }

  /** A table lookup per byte is SubBytes and MixColumns at once. */
  lemma EncWordMeans(bx: Boxes, a: bv32, b: bv32, c: bv32, d: bv32, k: bv32)
    ensures ToColumn(EncWord(bx, a, b, c, d, k)) ==
            XorColumn(MixColumn(SubColumn(bx.s, Diagonal(a, b, c, d))), ToColumn(k))
  {
    hide XorWord, Xor4Words, Pack, ToColumn, Byte0, Byte1, Byte2, Byte3, Xor, Xor4, Xtime, Mul3, XorColumn;
    var t0, t1, t2, t3 := Te0(bx, Byte0(a)), Te1(bx, Byte1(b)), Te2(bx, Byte2(c)), Te3(bx, Byte3(d));
    XorBytes(Xor4Words(t0, t1, t2, t3), k);
    Xor4Bytes(t0, t1, t2, t3);
    var v := SubColumn(bx.s, Diagonal(a, b, c, d));
    PackBytes(Xtime(v.r0), v.r0, v.r0, Mul3(v.r0));
    PackBytes(Mul3(v.r1), Xtime(v.r1), v.r1, v.r1);
    PackBytes(v.r2, Mul3(v.r2), Xtime(v.r2), v.r2);
    PackBytes(v.r3, v.r3, Mul3(v.r3), Xtime(v.r3));
  }

  lemma DecWordMeans(bx: Boxes, a: bv32, b: bv32, c: bv32, d: bv32, k: bv32)
    ensures ToColumn(DecWord(bx, a, b, c, d, k)) ==
            XorColumn(InvMixColumn(SubColumn(bx.si, Diagonal(a, b, c, d))), ToColumn(k))
  {
    hide XorWord, Xor4Words, Pack, ToColumn, Byte0, Byte1, Byte2, Byte3, Xor, Xor4, Mul9, MulB, MulD, MulE, XorColumn;
    var t0, t1, t2, t3 := Td0(bx, Byte0(a)), Td1(bx, Byte1(b)), Td2(bx, Byte2(c)), Td3(bx, Byte3(d));
    XorBytes(Xor4Words(t0, t1, t2, t3), k);
    Xor4Bytes(t0, t1, t2, t3);
    UnmixedTables(bx, Byte0(a), Byte1(b), Byte2(c), Byte3(d));
  }

  /** What the four decryption tables add up to. */
  lemma UnmixedTables(bx: Boxes, p: bv8, q: bv8, r: bv8, s: bv8)
    ensures ToColumn(Td0(bx, p)) == Column(MulE(bx.si(p)), Mul9(bx.si(p)), MulD(bx.si(p)), MulB(bx.si(p)))
    ensures ToColumn(Td1(bx, q)) == Column(MulB(bx.si(q)), MulE(bx.si(q)), Mul9(bx.si(q)), MulD(bx.si(q)))
    ensures ToColumn(Td2(bx, r)) == Column(MulD(bx.si(r)), MulB(bx.si(r)), MulE(bx.si(r)), Mul9(bx.si(r)))
    ensures ToColumn(Td3(bx, s)) == Column(Mul9(bx.si(s)), MulD(bx.si(s)), MulB(bx.si(s)), MulE(bx.si(s)))
  {
    hide Pack, ToColumn, Mul9, MulB, MulD, MulE;
    var a, b, c, d := bx.si(p), bx.si(q), bx.si(r), bx.si(s);
    PackBytes(MulE(a), Mul9(a), MulD(a), MulB(a));
    PackBytes(MulB(b), MulE(b), Mul9(b), MulD(b));
    PackBytes(MulD(c), MulB(c), MulE(c), Mul9(c));
    PackBytes(Mul9(d), MulD(d), MulB(d), MulE(d));
  }

  lemma ZeroSides(x: bv8)
    ensures Xor4(x, 0, 0, 0) == x && Xor4(0, x, 0, 0) == x && Xor4(0, 0, x, 0) == x && Xor4(0, 0, 0, x) == x
  {
    hide Xor;
    Zero(x);
    Zero(0);
  }

  lemma LastMeans(v: Column, a: bv32, b: bv32, c: bv32, d: bv32, k: bv32)
    requires Byte0(a) == v.r0 && Byte1(b) == v.r1 && Byte2(c) == v.r2 && Byte3(d) == v.r3
    ensures ToColumn(XorWord(Xor4Words(AndWord(a, 0xff000000), AndWord(b, 0x00ff0000),
                                       AndWord(c, 0x0000ff00), AndWord(d, 0x000000ff)), k))
            == XorColumn(v, ToColumn(k))
  {
    hide XorWord, AndWord, Xor4Words, ToColumn, Byte0, Byte1, Byte2, Byte3, Xor, Xor4, XorColumn;
    var p, q, r, s := AndWord(a, 0xff000000), AndWord(b, 0x00ff0000), AndWord(c, 0x0000ff00), AndWord(d, 0x000000ff);
    XorBytes(Xor4Words(p, q, r, s), k);
    Xor4Bytes(p, q, r, s);
    MaskBytes(a);
    MaskBytes(b);
    MaskBytes(c);
    MaskBytes(d);
    ZeroSides(v.r0);
    ZeroSides(v.r1);
    ZeroSides(v.r2);
    ZeroSides(v.r3);
  }

  lemma SameBytes(v: bv8)
    ensures var w := Pack(v, v, v, v); Byte0(w) == v && Byte1(w) == v && Byte2(w) == v && Byte3(w) == v
  {
    hide Pack, Byte0, Byte1, Byte2, Byte3;
    PackBytes(v, v, v, v);
  }

  lemma EncLastMeans(bx: Boxes, a: bv32, b: bv32, c: bv32, d: bv32, k: bv32)
    ensures ToColumn(EncLast(bx, a, b, c, d, k)) == XorColumn(SubColumn(bx.s, Diagonal(a, b, c, d)), ToColumn(k))
  {
    hide XorWord, AndWord, Xor4Words, Pack, ToColumn, Byte0, Byte1, Byte2, Byte3, XorColumn;
    var v := SubColumn(bx.s, Diagonal(a, b, c, d));
    SameBytes(v.r0);
    SameBytes(v.r1);
    SameBytes(v.r2);
    SameBytes(v.r3);
    LastMeans(v, Te4(bx, Byte0(a)), Te4(bx, Byte1(b)), Te4(bx, Byte2(c)), Te4(bx, Byte3(d)), k);
  }

  lemma DecLastMeans(bx: Boxes, a: bv32, b: bv32, c: bv32, d: bv32, k: bv32)
    ensures ToColumn(DecLast(bx, a, b, c, d, k)) == XorColumn(SubColumn(bx.si, Diagonal(a, b, c, d)), ToColumn(k))
  {
    hide XorWord, AndWord, Xor4Words, Pack, ToColumn, Byte0, Byte1, Byte2, Byte3, XorColumn;
    var v := SubColumn(bx.si, Diagonal(a, b, c, d));
    SameBytes(v.r0);
    SameBytes(v.r1);
    SameBytes(v.r2);
    SameBytes(v.r3);
    LastMeans(v, Td4(bx, Byte0(a)), Td4(bx, Byte1(b)), Td4(bx, Byte2(c)), Td4(bx, Byte3(d)), k);
  }

  /** The S-box cancels the inverse S-box in the decryption tables: what remains is InvMixColumns. */
  lemma MixedWordMeans(bx: Boxes, w: bv32)
    requires Mutual(bx)
    ensures ToColumn(MixedWord(bx, w)) == InvMixColumn(ToColumn(w))
  {
    hide XorWord, Xor4Words, Pack, ToColumn, Byte0, Byte1, Byte2, Byte3, Xor, Xor4, Mul9, MulB, MulD, MulE;
    var c := ToColumn(w);
    ColumnBytes(w);
    SameBytes(bx.s(c.r0));
    SameBytes(bx.s(c.r1));
    SameBytes(bx.s(c.r2));
    SameBytes(bx.s(c.r3));
    var p, q, r, s := bx.s(c.r0), bx.s(c.r1), bx.s(c.r2), bx.s(c.r3);
    UnmixedTables(bx, p, q, r, s);
    Xor4Bytes(Td0(bx, p), Td1(bx, q), Td2(bx, r), Td3(bx, s));
  }

  lemma ColumnBytes(w: bv32)
    ensures ToColumn(w) == Column(Byte0(w), Byte1(w), Byte2(w), Byte3(w))
  {
  }

  // ---------------------------------------------------------------------------
  // Four words
  // ---------------------------------------------------------------------------

  datatype Quad = Quad(w0: bv32, w1: bv32, w2: bv32, w3: bv32)

  function ToState(q: Quad): State {
    State(ToColumn(q.w0), ToColumn(q.w1), ToColumn(q.w2), ToColumn(q.w3))
  }

  function EncRound(bx: Boxes, s: Quad, k: Quad): Quad {
    Quad(EncWord(bx, s.w0, s.w1, s.w2, s.w3, k.w0), EncWord(bx, s.w1, s.w2, s.w3, s.w0, k.w1),
         EncWord(bx, s.w2, s.w3, s.w0, s.w1, k.w2), EncWord(bx, s.w3, s.w0, s.w1, s.w2, k.w3))
  }

  function EncLastRound(bx: Boxes, s: Quad, k: Quad): Quad {
    Quad(EncLast(bx, s.w0, s.w1, s.w2, s.w3, k.w0), EncLast(bx, s.w1, s.w2, s.w3, s.w0, k.w1),
         EncLast(bx, s.w2, s.w3, s.w0, s.w1, k.w2), EncLast(bx, s.w3, s.w0, s.w1, s.w2, k.w3))
  }

  function DecRound(bx: Boxes, s: Quad, k: Quad): Quad {
    Quad(DecWord(bx, s.w0, s.w3, s.w2, s.w1, k.w0), DecWord(bx, s.w1, s.w0, s.w3, s.w2, k.w1),
         DecWord(bx, s.w2, s.w1, s.w0, s.w3, k.w2), DecWord(bx, s.w3, s.w2, s.w1, s.w0, k.w3))
  }

  function DecLastRound(bx: Boxes, s: Quad, k: Quad): Quad {
    Quad(DecLast(bx, s.w0, s.w3, s.w2, s.w1, k.w0), DecLast(bx, s.w1, s.w0, s.w3, s.w2, k.w1),
         DecLast(bx, s.w2, s.w1, s.w0, s.w3, k.w2), DecLast(bx, s.w3, s.w2, s.w1, s.w0, k.w3))
  }

  function XorQuad(s: Quad, k: Quad): Quad {
    Quad(XorWord(s.w0, k.w0), XorWord(s.w1, k.w1), XorWord(s.w2, k.w2), XorWord(s.w3, k.w3))
  }

  lemma XorQuadMeans(s: Quad, k: Quad)
    ensures ToState(XorQuad(s, k)) == AddRoundKey(ToState(s), ToState(k))
  {
    hide XorWord, ToColumn, XorColumn;
    XorBytes(s.w0, k.w0);
    XorBytes(s.w1, k.w1);
    XorBytes(s.w2, k.w2);
    XorBytes(s.w3, k.w3);
  }

  lemma EncRoundMeans(bx: Boxes, s: Quad, k: Quad)
    ensures ToState(EncRound(bx, s, k)) ==
            AddRoundKey(MixColumns(ShiftRows(SubBytes(bx.s, ToState(s)))), ToState(k))
  {
    hide EncWord, Byte0, Byte1, Byte2, Byte3, XorColumn, MixColumn;
    EncWordMeans(bx, s.w0, s.w1, s.w2, s.w3, k.w0);
    EncWordMeans(bx, s.w1, s.w2, s.w3, s.w0, k.w1);
    EncWordMeans(bx, s.w2, s.w3, s.w0, s.w1, k.w2);
    EncWordMeans(bx, s.w3, s.w0, s.w1, s.w2, k.w3);
  }

  lemma EncLastRoundMeans(bx: Boxes, s: Quad, k: Quad)
    ensures ToState(EncLastRound(bx, s, k)) == AddRoundKey(ShiftRows(SubBytes(bx.s, ToState(s))), ToState(k))
  {
    hide EncLast, Byte0, Byte1, Byte2, Byte3, XorColumn;
    EncLastMeans(bx, s.w0, s.w1, s.w2, s.w3, k.w0);
    EncLastMeans(bx, s.w1, s.w2, s.w3, s.w0, k.w1);
    EncLastMeans(bx, s.w2, s.w3, s.w0, s.w1, k.w2);
    EncLastMeans(bx, s.w3, s.w0, s.w1, s.w2, k.w3);
  }

  lemma DecRoundMeans(bx: Boxes, s: Quad, k: Quad)
    ensures ToState(DecRound(bx, s, k)) ==
            AddRoundKey(InvMixColumns(InvShiftRows(SubBytes(bx.si, ToState(s)))), ToState(k))
  {
    hide DecWord, Byte0, Byte1, Byte2, Byte3, XorColumn, InvMixColumn;
    DecWordMeans(bx, s.w0, s.w3, s.w2, s.w1, k.w0);
    DecWordMeans(bx, s.w1, s.w0, s.w3, s.w2, k.w1);
    DecWordMeans(bx, s.w2, s.w1, s.w0, s.w3, k.w2);
    DecWordMeans(bx, s.w3, s.w2, s.w1, s.w0, k.w3);
  }

  lemma DecLastRoundMeans(bx: Boxes, s: Quad, k: Quad)
    ensures ToState(DecLastRound(bx, s, k)) == AddRoundKey(InvShiftRows(SubBytes(bx.si, ToState(s))), ToState(k))
  {
    hide DecLast, Byte0, Byte1, Byte2, Byte3, XorColumn;
    DecLastMeans(bx, s.w0, s.w3, s.w2, s.w1, k.w0);
    DecLastMeans(bx, s.w1, s.w0, s.w3, s.w2, k.w1);
    DecLastMeans(bx, s.w2, s.w1, s.w0, s.w3, k.w2);
    DecLastMeans(bx, s.w3, s.w2, s.w1, s.w0, k.w3);
  }
}
