/**
 * AES block encryption and decryption as the program runs them: table rounds on
 * four words, two rounds per loop iteration, and the in-place key schedule for
 * decryption.
 */
module AesCipher {
  import opened AesSpec
  import opened AesTables

  // ---------------------------------------------------------------------------
  // Blocks of bytes
  // ---------------------------------------------------------------------------

  type Block = b: seq<bv8> | |b| == 16 witness [0, 0, 0, 0, 0, 0, 0, 0, 0, 0, 0, 0, 0, 0, 0, 0]

  function BlockState(b: Block): State {
    State(Column(b[0], b[1], b[2], b[3]), Column(b[4], b[5], b[6], b[7]),
          Column(b[8], b[9], b[10], b[11]), Column(b[12], b[13], b[14], b[15]))
  }

  function ColumnBlock(c: Column): (b: seq<bv8>)
    ensures |b| == 4
  {
    [c.r0, c.r1, c.r2, c.r3]
  }

  function StateBlock(s: State): Block {
    ColumnBlock(s.c0) + ColumnBlock(s.c1) + ColumnBlock(s.c2) + ColumnBlock(s.c3)
  }

  lemma BlockBack(b: Block, s: State)
    ensures StateBlock(BlockState(b)) == b && BlockState(StateBlock(s)) == s
  {
  }

  function Load(b: Block): Quad {
    Quad(Pack(b[0], b[1], b[2], b[3]), Pack(b[4], b[5], b[6], b[7]),
         Pack(b[8], b[9], b[10], b[11]), Pack(b[12], b[13], b[14], b[15]))
  }

  lemma LoadMeans(b: Block)
    ensures ToState(Load(b)) == BlockState(b)
  {
    hide Pack, ToColumn;
    PackBytes(b[0], b[1], b[2], b[3]);
    PackBytes(b[4], b[5], b[6], b[7]);
    PackBytes(b[8], b[9], b[10], b[11]);
    PackBytes(b[12], b[13], b[14], b[15]);
  }

  // ---------------------------------------------------------------------------
  // Round keys
  // ---------------------------------------------------------------------------

  /** Round key `r` of a key schedule. */
  function KeyQuad(rk: seq<bv32>, r: nat): Quad
    requires 4 * r + 4 <= |rk|
  {
    Quad(rk[4 * r], rk[4 * r + 1], rk[4 * r + 2], rk[4 * r + 3])
  }

  function Keys(rk: seq<bv32>, rounds: nat): (w: seq<State>)
    requires 4 * rounds + 4 <= |rk|
    ensures |w| == rounds + 1
  {
    seq(rounds + 1, r requires 0 <= r <= rounds => ToState(KeyQuad(rk, r)))
  }

  predicate Schedule(rk: seq<bv32>, rounds: nat) {
    rounds >= 2 && rounds % 2 == 0 && 4 * rounds + 4 <= |rk|
  }

  /** One block through the cipher of section 5.1. */
  function Encrypted(bx: Boxes, rk: seq<bv32>, rounds: nat, b: Block): Block
    requires Schedule(rk, rounds)
  {
    StateBlock(Cipher(bx, Keys(rk, rounds), BlockState(b)))
  }

  /** One block through the equivalent inverse cipher of section 5.3.5. */
  function Decrypted(bx: Boxes, rk: seq<bv32>, rounds: nat, b: Block): Block
    requires Schedule(rk, rounds)
  {
    StateBlock(EqInvCipher(bx, Keys(rk, rounds), BlockState(b)))
  }

  // ---------------------------------------------------------------------------
  // Encryption and decryption
  // ---------------------------------------------------------------------------

  /** `part` was written over `was` from `o` on. */
  function Splice<T>(was: seq<T>, o: nat, part: seq<T>): (now: seq<T>)
    requires o + |part| <= |was|
    ensures |now| == |was|
  {
    was[..o] + part + was[o + |part|..]
  }

  lemma SpliceTwice<T>(was: seq<T>, o: nat, p: seq<T>, q: seq<T>)
    requires o + |p| + |q| <= |was|
    ensures Splice(Splice(was, o, p), o + |p|, q) == Splice(was, o, p + q)
  {
  }

  method PutWord(output: array<bv8>, o: nat, w: bv32)
    requires o + 4 <= output.Length
    modifies output
    ensures output[..] == Splice(old(output[..]), o, ColumnBlock(ToColumn(w)))
  {
    hide Byte0, Byte1, Byte2, Byte3;
    output[o] := Byte0(w);
    output[o + 1] := Byte1(w);
    output[o + 2] := Byte2(w);
    output[o + 3] := Byte3(w);
  }

  method Put(output: array<bv8>, o: nat, q: Quad)
    requires o + 16 <= output.Length
    modifies output
    ensures output[..] == Splice(old(output[..]), o, StateBlock(ToState(q)))
  {
    hide ToColumn, ColumnBlock, Splice;
    ghost var was, a, b, c, d := output[..], ColumnBlock(ToColumn(q.w0)), ColumnBlock(ToColumn(q.w1)),
      ColumnBlock(ToColumn(q.w2)), ColumnBlock(ToColumn(q.w3));
    PutWord(output, o, q.w0);
    PutWord(output, o + 4, q.w1);
    SpliceTwice(was, o, a, b);
    PutWord(output, o + 8, q.w2);
    SpliceTwice(was, o, a + b, c);
    PutWord(output, o + 12, q.w3);
    SpliceTwice(was, o, a + b + c, d);
  }

  /**
   * Encrypt the block at `input[i..]` into `output[o..]`; the two may overlap, for
   * all input is read before any output is written.
   */
  method Encrypt(bx: Boxes, input: array<bv8>, i: nat, output: array<bv8>, o: nat, rk: seq<bv32>, rounds: nat)
    requires i + 16 <= input.Length && o + 16 <= output.Length && Schedule(rk, rounds)
    modifies output
    ensures output[..] == Splice(old(output[..]), o, Encrypted(bx, rk, rounds, old(input[i..i + 16])))
  {
    hide EncRound, EncLastRound, XorQuad, AddRoundKey, MixColumns, ShiftRows, SubBytes, ToState, BlockState,
         StateBlock, Load, Splice;
    ghost var b: Block := input[i..i + 16];
    ghost var w, p := Keys(rk, rounds), BlockState(b);
    var s := XorQuad(Load(input[i..i + 16]), KeyQuad(rk, 0));
    LoadMeans(b);
    XorQuadMeans(Load(b), KeyQuad(rk, 0));
    var t;
    var r, k := rounds / 2, 0;
    while true
      invariant 1 <= r && k + 2 * r == rounds && output[..] == old(output[..])
      invariant ToState(s) == Rounds(bx, w, p, k)
      decreases r
    {
      EncRoundMeans(bx, s, KeyQuad(rk, k + 1));
      t := EncRound(bx, s, KeyQuad(rk, k + 1));
      k := k + 2;
      r := r - 1;
      if r == 0 {
        break;
      }
      EncRoundMeans(bx, t, KeyQuad(rk, k));
      s := EncRound(bx, t, KeyQuad(rk, k));
    }
    EncLastRoundMeans(bx, t, KeyQuad(rk, rounds));
    s := EncLastRound(bx, t, KeyQuad(rk, rounds));
    assert ToState(s) == Cipher(bx, w, p);
    assert Encrypted(bx, rk, rounds, b) == StateBlock(ToState(s));
    Put(output, o, s);
  }

  /** Decrypt the block at `input[i..]` into `output[o..]`; the two may overlap. */
  method Decrypt(bx: Boxes, input: array<bv8>, i: nat, output: array<bv8>, o: nat, rk: seq<bv32>, rounds: nat)
    requires i + 16 <= input.Length && o + 16 <= output.Length && Schedule(rk, rounds)
    modifies output
    ensures output[..] == Splice(old(output[..]), o, Decrypted(bx, rk, rounds, old(input[i..i + 16])))
  {
    hide DecRound, DecLastRound, XorQuad, AddRoundKey, InvMixColumns, InvShiftRows, SubBytes, ToState, BlockState,
         StateBlock, Load, Splice;
    ghost var b: Block := input[i..i + 16];
    ghost var w, c := Keys(rk, rounds), BlockState(b);
    var s := XorQuad(Load(input[i..i + 16]), KeyQuad(rk, 0));
    LoadMeans(b);
    XorQuadMeans(Load(b), KeyQuad(rk, 0));
    var t;
    var r, k := rounds / 2, 0;
    while true
      invariant 1 <= r && k + 2 * r == rounds && output[..] == old(output[..])
      invariant ToState(s) == InvRounds(bx, w, c, k)
      decreases r
    {
      DecRoundMeans(bx, s, KeyQuad(rk, k + 1));
      t := DecRound(bx, s, KeyQuad(rk, k + 1));
      k := k + 2;
      r := r - 1;
      if r == 0 {
        break;
      }
      DecRoundMeans(bx, t, KeyQuad(rk, k));
      s := DecRound(bx, t, KeyQuad(rk, k));
    }
    DecLastRoundMeans(bx, t, KeyQuad(rk, rounds));
    s := DecLastRound(bx, t, KeyQuad(rk, rounds));
    assert ToState(s) == EqInvCipher(bx, w, c);
    assert Decrypted(bx, rk, rounds, b) == StateBlock(ToState(s));
    Put(output, o, s);
  }

  // ---------------------------------------------------------------------------
  // The key schedule for decryption
  // ---------------------------------------------------------------------------

  method SwapKeys(rk: array<bv32>, a: nat, b: nat)
    requires a < b && 4 * b + 4 <= rk.Length
    modifies rk
    ensures KeyQuad(rk[..], a) == old(KeyQuad(rk[..], b)) && KeyQuad(rk[..], b) == old(KeyQuad(rk[..], a))
    ensures forall r: nat | 4 * r + 4 <= rk.Length && r != a && r != b :: KeyQuad(rk[..], r) == old(KeyQuad(rk[..], r))
  {
    var i, j := 4 * a, 4 * b;
    SwapWords(rk, i, j);
    SwapWords(rk, i + 1, j + 1);
    SwapWords(rk, i + 2, j + 2);
    SwapWords(rk, i + 3, j + 3);
  }

  method SwapWords(rk: array<bv32>, i: nat, j: nat)
    requires i < j < rk.Length
    modifies rk
    ensures rk[i] == old(rk[j]) && rk[j] == old(rk[i])
    ensures forall x: nat | x < rk.Length && x != i && x != j :: rk[x] == old(rk[x])
  {
    var temp := rk[i];
    rk[i] := rk[j];
    rk[j] := temp;
  }

  function MixedQuad(bx: Boxes, q: Quad): Quad {
    Quad(MixedWord(bx, q.w0), MixedWord(bx, q.w1), MixedWord(bx, q.w2), MixedWord(bx, q.w3))
  }

  lemma MixedQuadMeans(bx: Boxes, q: Quad)
    requires Mutual(bx)
    ensures ToState(MixedQuad(bx, q)) == InvMixColumns(ToState(q))
  {
    hide MixedWord, ToColumn, InvMixColumn;
    MixedWordMeans(bx, q.w0);
    MixedWordMeans(bx, q.w1);
    MixedWordMeans(bx, q.w2);
    MixedWordMeans(bx, q.w3);
  }

  method MixKey(bx: Boxes, rk: array<bv32>, r: nat)
    requires 4 * r + 4 <= rk.Length
    modifies rk
    ensures KeyQuad(rk[..], r) == MixedQuad(bx, old(KeyQuad(rk[..], r)))
    ensures forall q: nat | 4 * q + 4 <= rk.Length && q != r :: KeyQuad(rk[..], q) == old(KeyQuad(rk[..], q))
  {
    hide MixedWord;
    rk[4 * r] := MixedWord(bx, rk[4 * r]);
    rk[4 * r + 1] := MixedWord(bx, rk[4 * r + 1]);
    rk[4 * r + 2] := MixedWord(bx, rk[4 * r + 2]);
    rk[4 * r + 3] := MixedWord(bx, rk[4 * r + 3]);
  }

  /** Reverse the order of the round keys. */
  method ReverseKeys(rk: array<bv32>, rounds: nat)
    requires 4 * rounds + 4 <= rk.Length
    modifies rk
    ensures forall r: nat | r <= rounds :: KeyQuad(rk[..], r) == old(KeyQuad(rk[..], rounds - r))
  {
    hide KeyQuad;
    ghost var was := rk[..];
    var i, j := 0, rounds;
    while i < j
      invariant 0 <= i <= j + 1 && i + j == rounds
      invariant forall r: nat | r < i || j < r <= rounds :: KeyQuad(rk[..], r) == KeyQuad(was, rounds - r)
      invariant forall r: nat | i <= r <= j :: KeyQuad(rk[..], r) == KeyQuad(was, r)
    {
      SwapKeys(rk, i, j);
      i := i + 1;
      j := j - 1;
    }
  }

  /** Turn an encryption schedule, in place, into the decryption schedule. */
  method InvertSchedule(bx: Boxes, rk: array<bv32>, rounds: nat)
    requires Mutual(bx) && 4 * rounds + 4 <= rk.Length
    modifies rk
    ensures Keys(rk[..], rounds) == DecryptionKeys(Keys(old(rk[..]), rounds))
  {
    hide KeyQuad, ToState, MixedQuad, InvMixColumns;
    ghost var was := rk[..];
    ReverseKeys(rk, rounds);
    var i := 1;
    while i < rounds
      invariant 1 <= i && (rounds > 0 ==> i <= rounds)
      invariant forall r: nat | r <= rounds ::
        KeyQuad(rk[..], r) == if 1 <= r < i then MixedQuad(bx, KeyQuad(was, rounds - r)) else KeyQuad(was, rounds - r)
    {
      MixKey(bx, rk, i);
      i := i + 1;
    }
    ghost var w, dw := Keys(was, rounds), Keys(rk[..], rounds);
    forall r: nat | r <= rounds
      ensures dw[r] == DecryptionKeys(w)[r]
    {
      MixedQuadMeans(bx, KeyQuad(was, rounds - r));
    }
  }

  /** Decryption under the inverted schedule undoes encryption, for every block and all round keys. */
  lemma BlockRoundTrip(bx: Boxes, ek: seq<bv32>, dk: seq<bv32>, rounds: nat, b: Block)
    requires Mutual(bx) && Schedule(ek, rounds) && Schedule(dk, rounds)
    requires Keys(dk, rounds) == DecryptionKeys(Keys(ek, rounds))
    ensures Decrypted(bx, dk, rounds, Encrypted(bx, ek, rounds, b)) == b
  {
    hide Cipher, EqInvCipher, BlockState, StateBlock, Keys, DecryptionKeys;
    var w := Keys(ek, rounds);
    DecryptEncrypt(bx, w, BlockState(b));
    BlockBack(b, Cipher(bx, w, BlockState(b)));
  }
}
