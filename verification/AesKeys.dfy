/**
 * Key expansion: section 5.2 of FIPS-197, and the program's three loops for keys
 * of 128, 192 and 256 bits.
 */
module AesKeys {
  import opened AesSpec
  import opened AesTables
  import opened AesCipher
  import opened AesCbc

  // ---------------------------------------------------------------------------
  // Section 5.2
  // ---------------------------------------------------------------------------

  function SubWord(bx: Boxes, w: bv32): bv32 {
    Pack(bx.s(Byte0(w)), bx.s(Byte1(w)), bx.s(Byte2(w)), bx.s(Byte3(w)))
  }

  function RotWord(w: bv32): bv32 {
    Pack(Byte1(w), Byte2(w), Byte3(w), Byte0(w))
  }

  /** Powers of x in GF(2^8). */
  function Power(j: nat): bv8 {
    if j == 0 then 1 else Xtime(Power(j - 1))
  }

  function Rcon(j: nat): bv32 {
    Pack(Power(j), 0, 0, 0)
  }

  /** Word `i` of the expanded key, for a key of `|key|` words. */
  function Expanded(bx: Boxes, key: seq<bv32>, i: nat): bv32
    requires |key| > 0
    decreases i
  {
    if i < |key| then key[i]
    else
      var temp := Expanded(bx, key, i - 1);
      var mixed :=
        if i % |key| == 0 then XorWord(SubWord(bx, RotWord(temp)), Rcon(i / |key| - 1))
        else if |key| > 6 && i % |key| == 4 then SubWord(bx, temp)
        else temp;
      XorWord(Expanded(bx, key, i - |key|), mixed)
  }

  // ---------------------------------------------------------------------------
  // The table form
  // ---------------------------------------------------------------------------

  /** SubWord after RotWord, by masked lookups. */
  function TableRotSub(bx: Boxes, w: bv32): bv32 {
    Xor4Words(AndWord(Te4(bx, Byte1(w)), 0xff000000), AndWord(Te4(bx, Byte2(w)), 0x00ff0000),
              AndWord(Te4(bx, Byte3(w)), 0x0000ff00), AndWord(Te4(bx, Byte0(w)), 0x000000ff))
  }

  function TableSub(bx: Boxes, w: bv32): bv32 {
    Xor4Words(AndWord(Te4(bx, Byte0(w)), 0xff000000), AndWord(Te4(bx, Byte1(w)), 0x00ff0000),
              AndWord(Te4(bx, Byte2(w)), 0x0000ff00), AndWord(Te4(bx, Byte3(w)), 0x000000ff))
  }

  lemma XorZero(w: bv32)
    ensures XorWord(w, 0) == w
  {
  }

  lemma ZeroColumn(c: Column)
    ensures XorColumn(c, ToColumn(0)) == c
  {
    assert ToColumn(0) == Column(0, 0, 0, 0);
    Zero(c.r0);
    Zero(c.r1);
    Zero(c.r2);
    Zero(c.r3);
  }

  lemma SameColumn(x: bv32, y: bv32)
    requires ToColumn(x) == ToColumn(y)
    ensures x == y
  {
    hide Pack, Byte0, Byte1, Byte2, Byte3;
    Repack(x);
    Repack(y);
  }

  lemma MaskedMeans(v: Column, a: bv32, b: bv32, c: bv32, d: bv32)
    requires Byte0(a) == v.r0 && Byte1(b) == v.r1 && Byte2(c) == v.r2 && Byte3(d) == v.r3
    ensures Xor4Words(AndWord(a, 0xff000000), AndWord(b, 0x00ff0000), AndWord(c, 0x0000ff00), AndWord(d, 0x000000ff))
            == Pack(v.r0, v.r1, v.r2, v.r3)
  {
    hide XorWord, AndWord, Xor4Words, Pack, ToColumn, Byte0, Byte1, Byte2, Byte3, XorColumn;
    var w := Xor4Words(AndWord(a, 0xff000000), AndWord(b, 0x00ff0000), AndWord(c, 0x0000ff00), AndWord(d, 0x000000ff));
    LastMeans(v, a, b, c, d, 0);
    XorZero(w);
    ZeroColumn(v);
    PackBytes(v.r0, v.r1, v.r2, v.r3);
    SameColumn(w, Pack(v.r0, v.r1, v.r2, v.r3));
  }

  lemma TableRotSubMeans(bx: Boxes, w: bv32)
    ensures TableRotSub(bx, w) == SubWord(bx, RotWord(w))
  {
    hide XorWord, AndWord, Xor4Words, Pack, Byte0, Byte1, Byte2, Byte3;
    var b0, b1, b2, b3 := Byte0(w), Byte1(w), Byte2(w), Byte3(w);
    PackBytes(b1, b2, b3, b0);
    SameBytes(bx.s(b0));
    SameBytes(bx.s(b1));
    SameBytes(bx.s(b2));
    SameBytes(bx.s(b3));
    MaskedMeans(Column(bx.s(b1), bx.s(b2), bx.s(b3), bx.s(b0)), Te4(bx, b1), Te4(bx, b2), Te4(bx, b3), Te4(bx, b0));
  }

  lemma TableSubMeans(bx: Boxes, w: bv32)
    ensures TableSub(bx, w) == SubWord(bx, w)
  {
    hide XorWord, AndWord, Xor4Words, Pack, Byte0, Byte1, Byte2, Byte3;
    var b0, b1, b2, b3 := Byte0(w), Byte1(w), Byte2(w), Byte3(w);
    SameBytes(bx.s(b0));
    SameBytes(bx.s(b1));
    SameBytes(bx.s(b2));
    SameBytes(bx.s(b3));
    MaskedMeans(Column(bx.s(b0), bx.s(b1), bx.s(b2), bx.s(b3)), Te4(bx, b0), Te4(bx, b1), Te4(bx, b2), Te4(bx, b3));
  }

  lemma XorAssociates(x: bv32, y: bv32, z: bv32)
    ensures XorWord(XorWord(x, y), z) == XorWord(x, XorWord(y, z))
  {
    assert (x ^ y) ^ z == x ^ (y ^ z);
  }

  /** The round constants as the program lists them. */
  const RCON: seq<bv32> :=
    [0x01000000, 0x02000000, 0x04000000, 0x08000000, 0x10000000, 0x20000000, 0x40000000, 0x80000000,
     0x1b000000, 0x36000000]

  lemma Powers()
    ensures Power(0) == 0x01 && Power(1) == 0x02 && Power(2) == 0x04 && Power(3) == 0x08 && Power(4) == 0x10
    ensures Power(5) == 0x20 && Power(6) == 0x40 && Power(7) == 0x80 && Power(8) == 0x1b && Power(9) == 0x36
  {
  }

  lemma RconListed(j: nat)
    requires j < 10
    ensures RCON[j] == Rcon(j)
  {
    Powers();
  }

  lemma ExpandFirst(bx: Boxes, key: seq<bv32>, i: nat)
    requires 0 < |key| <= i && i % |key| == 0 && i / |key| <= 10
    ensures Expanded(bx, key, i) ==
            XorWord(XorWord(Expanded(bx, key, i - |key|), TableRotSub(bx, Expanded(bx, key, i - 1))),
              RCON[i / |key| - 1])
  {
    hide XorWord, SubWord, RotWord, TableRotSub, Rcon;
    var temp := Expanded(bx, key, i - 1);
    TableRotSubMeans(bx, temp);
    RconListed(i / |key| - 1);
    XorAssociates(Expanded(bx, key, i - |key|), TableRotSub(bx, temp), RCON[i / |key| - 1]);
  }

  lemma ExpandPlain(bx: Boxes, key: seq<bv32>, i: nat)
    requires 0 < |key| <= i && i % |key| != 0 && (|key| > 6 ==> i % |key| != 4)
    ensures Expanded(bx, key, i) == XorWord(Expanded(bx, key, i - |key|), Expanded(bx, key, i - 1))
  {
  }

  lemma ExpandMiddle(bx: Boxes, key: seq<bv32>, i: nat)
    requires 6 < |key| <= i && i % |key| == 4
    ensures Expanded(bx, key, i) == XorWord(Expanded(bx, key, i - |key|), TableSub(bx, Expanded(bx, key, i - 1)))
  {
    hide XorWord, SubWord, TableSub;
    TableSubMeans(bx, Expanded(bx, key, i - 1));
  }

  // ---------------------------------------------------------------------------
  // The loops
  // ---------------------------------------------------------------------------

  function KeyWords(user: seq<bv8>, n: nat): (key: seq<bv32>)
    requires 4 * n <= |user|
    ensures |key| == n
  {
    seq(n, j requires 0 <= j < n => Pack(user[4 * j], user[4 * j + 1], user[4 * j + 2], user[4 * j + 3]))
  }

  /** The first `n` words of the schedule are there. */
  ghost predicate Filled(bx: Boxes, key: seq<bv32>, rk: array<bv32>, n: nat)
    requires |key| > 0 && n <= rk.Length
    reads rk
  {
    forall j: nat | j < n :: rk[j] == Expanded(bx, key, j)
  }

  /** Word `p` when it starts a group of `n` words. */
  method FirstStep(bx: Boxes, rk: array<bv32>, n: nat, p: nat, rcon: bv32, ghost key: seq<bv32>)
    requires 0 < n == |key| <= p < rk.Length && p % n == 0 && p / n <= 10 && rcon == RCON[p / n - 1]
    requires Filled(bx, key, rk, p)
    modifies rk
    ensures Filled(bx, key, rk, p + 1)
  {
    hide XorWord, TableRotSub, Expanded;
    ExpandFirst(bx, key, p);
    var temp := rk[p - 1];
    rk[p] := XorWord(XorWord(rk[p - n], TableRotSub(bx, temp)), rcon);
  }

  method PlainStep(bx: Boxes, rk: array<bv32>, n: nat, p: nat, ghost key: seq<bv32>)
    requires 0 < n == |key| <= p < rk.Length && p % n != 0 && (n > 6 ==> p % n != 4)
    requires Filled(bx, key, rk, p)
    modifies rk
    ensures Filled(bx, key, rk, p + 1)
  {
    hide XorWord, Expanded;
    ExpandPlain(bx, key, p);
    rk[p] := XorWord(rk[p - n], rk[p - 1]);
  }

  method MiddleStep(bx: Boxes, rk: array<bv32>, n: nat, p: nat, ghost key: seq<bv32>)
    requires 6 < n == |key| <= p < rk.Length && p % n == 4
    requires Filled(bx, key, rk, p)
    modifies rk
    ensures Filled(bx, key, rk, p + 1)
  {
    hide XorWord, TableSub, Expanded;
    ExpandMiddle(bx, key, p);
    var temp := rk[p - 1];
    rk[p] := XorWord(rk[p - n], TableSub(bx, temp));
  }

  method Expand128(bx: Boxes, rk: array<bv32>, ghost key: seq<bv32>)
    requires rk.Length >= 60 && |key| == 4 && Filled(bx, key, rk, 4)
    modifies rk
    ensures Filled(bx, key, rk, 44)
  {
    hide Filled;
    var i := 0;
    while true
      invariant i < 10 && Filled(bx, key, rk, 4 * i + 4)
      decreases 10 - i
    {
      var p := 4 * i + 4;
      FirstStep(bx, rk, 4, p, RCON[i], key);
      PlainStep(bx, rk, 4, p + 1, key);
      PlainStep(bx, rk, 4, p + 2, key);
      PlainStep(bx, rk, 4, p + 3, key);
      i := i + 1;
      if i == 10 {
        return;
      }
    }
  }

  method Expand192(bx: Boxes, rk: array<bv32>, ghost key: seq<bv32>)
    requires rk.Length >= 60 && |key| == 6 && Filled(bx, key, rk, 6)
    modifies rk
    ensures Filled(bx, key, rk, 52)
  {
    hide Filled;
    var i := 0;
    while true
      invariant i < 8 && Filled(bx, key, rk, 6 * i + 6)
      decreases 8 - i
    {
      var p := 6 * i + 6;
      FirstStep(bx, rk, 6, p, RCON[i], key);
      PlainStep(bx, rk, 6, p + 1, key);
      PlainStep(bx, rk, 6, p + 2, key);
      PlainStep(bx, rk, 6, p + 3, key);
      i := i + 1;
      if i == 8 {
        return;
      }
      PlainStep(bx, rk, 6, p + 4, key);
      PlainStep(bx, rk, 6, p + 5, key);
    }
  }

  method Expand256(bx: Boxes, rk: array<bv32>, ghost key: seq<bv32>)
    requires rk.Length >= 60 && |key| == 8 && Filled(bx, key, rk, 8)
    modifies rk
    ensures Filled(bx, key, rk, 60)
  {
    hide Filled;
    var i := 0;
    while true
      invariant i < 7 && Filled(bx, key, rk, 8 * i + 8)
      decreases 7 - i
    {
      var p := 8 * i + 8;
      FirstStep(bx, rk, 8, p, RCON[i], key);
      PlainStep(bx, rk, 8, p + 1, key);
      PlainStep(bx, rk, 8, p + 2, key);
      PlainStep(bx, rk, 8, p + 3, key);
      i := i + 1;
      if i == 7 {
        return;
      }
      MiddleStep(bx, rk, 8, p + 4, key);
      PlainStep(bx, rk, 8, p + 5, key);
      PlainStep(bx, rk, 8, p + 6, key);
      PlainStep(bx, rk, 8, p + 7, key);
    }
  }

  predicate KeySize(bits: int) {
    bits == 128 || bits == 192 || bits == 256
  }

  /** Expand a user key; refuse sizes other than 128, 192 and 256 bits. */
  method SetEncryptKey(bx: Boxes, user: seq<bv8>, bits: int, rk: array<bv32>) returns (status: int, rounds: nat)
    requires rk.Length >= 60 && (KeySize(bits) ==> 8 * |user| >= bits)
    modifies rk
    ensures status == if KeySize(bits) then 0 else -2
    ensures status != 0 ==> rk[..] == old(rk[..])
    ensures status == 0 ==> rounds == bits / 32 + 6 && Filled(bx, KeyWords(user, bits / 32), rk, 4 * rounds + 4)
  {
    hide Pack;
    if !KeySize(bits) {
      return -2, 0;
    }
    status, rounds := 0, if bits == 128 then 10 else if bits == 192 then 12 else 14;
    var n := bits / 32;
    ghost var key := KeyWords(user, n);
    var j := 0;
    while j < n
      invariant j <= n && forall x: nat | x < j :: rk[x] == key[x]
    {
      rk[j] := Pack(user[4 * j], user[4 * j + 1], user[4 * j + 2], user[4 * j + 3]);
      j := j + 1;
    }
    if bits == 128 {
      Expand128(bx, rk, key);
    } else if bits == 192 {
      Expand192(bx, rk, key);
    } else {
      Expand256(bx, rk, key);
    }
  }

  /** The decryption schedule for a user key: expanded, then inverted in place. */
  method SetDecryptKey(bx: Boxes, user: seq<bv8>, bits: int, rk: array<bv32>) returns (status: int, rounds: nat)
    requires Mutual(bx) && rk.Length >= 60 && (KeySize(bits) ==> 8 * |user| >= bits)
    modifies rk
    ensures status == if KeySize(bits) then 0 else -2
    ensures status == 0 ==> rounds == bits / 32 + 6
    ensures status == 0 ==>
              Keys(rk[..], rounds) == DecryptionKeys(ExpandedKeys(bx, KeyWords(user, bits / 32), rounds))
  {
    hide Keys, DecryptionKeys, ExpandedKeys, Filled;
    status, rounds := SetEncryptKey(bx, user, bits, rk);
    if status < 0 {
      return;
    }
    FilledKeys(bx, KeyWords(user, bits / 32), rk[..], rk, rounds);
    InvertSchedule(bx, rk, rounds);
  }

  /** All round keys of section 5.2. */
  function ExpandedKeys(bx: Boxes, key: seq<bv32>, rounds: nat): (w: seq<State>)
    requires |key| > 0
    ensures |w| == rounds + 1
  {
    seq(rounds + 1, r requires 0 <= r <= rounds =>
      ToState(Quad(Expanded(bx, key, 4 * r), Expanded(bx, key, 4 * r + 1),
                   Expanded(bx, key, 4 * r + 2), Expanded(bx, key, 4 * r + 3))))
  }

  lemma FilledKeys(bx: Boxes, key: seq<bv32>, words: seq<bv32>, rk: array<bv32>, rounds: nat)
    requires |key| > 0 && 4 * rounds + 4 <= rk.Length && Filled(bx, key, rk, 4 * rounds + 4) && words == rk[..]
    ensures Keys(words, rounds) == ExpandedKeys(bx, key, rounds)
  {
    hide Expanded, ToState;
  }

  /**
   * What setting a password does: its first 16 bytes, filled up with zeros, are the
   * key; both schedules are expanded from it, and the second undoes the first.
   */
  method SetKey(bx: Boxes, password: seq<bv8>) returns (ek: Key, dk: Key)
    requires Mutual(bx)
    ensures Matching(ek, dk) && ek.bx == bx && ek.rounds == 10
    ensures var user := seq(16, i requires 0 <= i < 16 => if i < |password| then password[i] else 0);
            Keys(ek.rk, 10) == ExpandedKeys(bx, KeyWords(user, 4), 10)
  {
    hide Keys, DecryptionKeys, ExpandedKeys, Filled, KeyWords;
    var user: seq<bv8> := seq(16, i requires 0 <= i < 16 => if i < |password| then password[i] else 0);
    var encrypt, decrypt := new bv32[60], new bv32[60];
    var status, rounds := SetEncryptKey(bx, user, 128, encrypt);
    FilledKeys(bx, KeyWords(user, 4), encrypt[..], encrypt, rounds);
    ek := Key(bx, encrypt[..], rounds);
    status, rounds := SetDecryptKey(bx, user, 128, decrypt);
    dk := Key(bx, decrypt[..], rounds);
  }
}
