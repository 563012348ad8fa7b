/**
 * Encrypted images: runs of sectors under AES in CBC mode, the sector number being
 * the initial chaining value.  This is the cipher that the disk model takes as a
 * parameter.
 */
module QcowCrypt {
  import opened Division
  import opened QcowLayout
  import QcowSpec
  import opened AesCipher
  import opened AesCbc

  const SECTOR: nat := 512

  function LeByte(s: nat, j: nat): bv8
    decreases j
  {
    if j == 0 then (s % 256) as bv8 else LeByte(s / 256, j - 1)
  }

  /** The sector number as 64 bits, least significant byte first, then 64 zero bits. */
  function SectorIv(s: nat): Block {
    seq(16, j requires 0 <= j < 16 => if j < 8 then LeByte(s, j) else 0)
  }

  lemma {:induction false} WholeBlocks(j: nat)
    ensures Room(16 * j) == 16 * j
  {
    if j > 0 { WholeBlocks(j - 1); }
  }

  lemma SectorRoom()
    ensures Room(SECTOR) == SECTOR
  {
    WholeBlocks(32);
  }

  /** One sector, encrypted or decrypted. */
  function OneSector(k: Key, s: nat, x: seq<bv8>, enc: bool): (y: seq<bv8>)
    requires Ready(k) && |x| == SECTOR
    ensures |y| == SECTOR
  {
    SectorRoom();
    if enc then CbcEncrypted(k, SectorIv(s), x) else CbcDecrypted(k, SectorIv(s), x, SECTOR)
  }

  /** `n` sectors from sector number `s` on. */
  function Crypted(k: Key, s: nat, x: seq<bv8>, n: nat, enc: bool): (y: seq<bv8>)
    requires Ready(k) && |x| == SECTOR * n
    ensures |y| == |x|
    decreases n
  {
    if n == 0 then []
    else OneSector(k, s, x[..SECTOR], enc) + Crypted(k, s + 1, x[SECTOR..], n - 1, enc)
  }

  lemma SectorRoundTrip(ek: Key, dk: Key, s: nat, x: seq<bv8>)
    requires Matching(ek, dk) && |x| == SECTOR
    ensures OneSector(dk, s, OneSector(ek, s, x, true), false) == x
  {
    CbcRoundTrip(ek, dk, SectorIv(s), x);
  }

  /** Any run of sectors survives encryption and decryption. */
  lemma {:induction false} SectorsRoundTrip(ek: Key, dk: Key, s: nat, x: seq<bv8>, n: nat)
    requires Matching(ek, dk) && |x| == SECTOR * n
    ensures Crypted(dk, s, Crypted(ek, s, x, n, true), n, false) == x
    decreases n
  {
    hide OneSector;
    if n > 0 {
      var first, rest := OneSector(ek, s, x[..SECTOR], true), Crypted(ek, s + 1, x[SECTOR..], n - 1, true);
      var all := Crypted(ek, s, x, n, true);
      assert all[..SECTOR] == first && all[SECTOR..] == rest;
      SectorRoundTrip(ek, dk, s, x[..SECTOR]);
      SectorsRoundTrip(ek, dk, s + 1, x[SECTOR..], n - 1);
      assert x == x[..SECTOR] + x[SECTOR..];
    }
  }

  // ---------------------------------------------------------------------------
  // The loop
  // ---------------------------------------------------------------------------

  method SetIv(ivec: array<bv8>, s: nat)
    requires ivec.Length == 16
    modifies ivec
    ensures ivec[..] == SectorIv(s)
  {
    var j := 0;
    while j < 16
      invariant j <= 16
      invariant forall x: nat | x < j :: ivec[x] == SectorIv(s)[x]
    {
      ivec[j] := if j < 8 then LeByte(s, j) else 0;
      j := j + 1;
    }
  }

  method CryptSector(k: Key, s: nat, output: array<bv8>, o: nat, input: array<bv8>, i: nat, enc: bool)
    requires Ready(k) && i + SECTOR <= input.Length && o + SECTOR <= output.Length &&
             Overlay(input, i, output, o, SECTOR)
    modifies output
    ensures output[..] == Splice(old(output[..]), o, OneSector(k, s, old(input[i..i + SECTOR]), enc))
  {
    hide CbcEncrypted, CbcDecrypted, Splice, SectorIv, Room, EncIv, DecIv;
    SectorRoom();
    var ivec := new bv8[16];
    SetIv(ivec, s);
    if enc {
      CbcEncrypt(k, input, i, output, o, SECTOR, ivec);
    } else {
      CbcDecrypt(k, input, i, output, o, SECTOR, ivec);
    }
  }

  /** What is left of a run after its first `d` sectors. */
  ghost predicate CryptedAt(k: Key, s: nat, x: seq<bv8>, n: nat, enc: bool, d: nat, written: seq<bv8>)
    requires Ready(k) && |x| == SECTOR * n
  {
    && d <= n && |written| == SECTOR * d
    && Crypted(k, s, x, n, enc) == written + Crypted(k, s + d, x[SECTOR * d..], n - d, enc)
  }

  /** Sector number `d` of the bytes `x`. */
  function SectorAt(x: seq<bv8>, d: nat): (part: seq<bv8>)
    requires SECTOR * d + SECTOR <= |x|
    ensures |part| == SECTOR
  {
    x[SECTOR * d..SECTOR * d + SECTOR]
  }

  lemma CryptedMoves(k: Key, s: nat, x: seq<bv8>, n: nat, enc: bool, d: nat, written: seq<bv8>)
    requires Ready(k) && |x| == SECTOR * n && d < n && CryptedAt(k, s, x, n, enc, d, written)
    ensures CryptedAt(k, s, x, n, enc, d + 1, written + OneSector(k, s + d, SectorAt(x, d), enc))
  {
    hide OneSector, Crypted;
    var y, part := x[SECTOR * d..], SectorAt(x, d);
    assert y[..SECTOR] == part && y[SECTOR..] == x[SECTOR * (d + 1)..];
    FirstSector(k, s + d, y, n - d, enc);
    var rest := Crypted(k, s + d + 1, y[SECTOR..], n - d - 1, enc);
    assert written + (OneSector(k, s + d, part, enc) + rest) == written + OneSector(k, s + d, part, enc) + rest;
  }

  lemma FirstSector(k: Key, s: nat, y: seq<bv8>, n: nat, enc: bool)
    requires Ready(k) && n > 0 && |y| == SECTOR * n
    ensures Crypted(k, s, y, n, enc) == OneSector(k, s, y[..SECTOR], enc) + Crypted(k, s + 1, y[SECTOR..], n - 1, enc)
  {
    hide OneSector;
  }

  /** Encrypt or decrypt `n` sectors, in place, towards the start of the buffer, or from one buffer to another. */
  method EncryptSectors(k: Key, s: nat, output: array<bv8>, o: nat, input: array<bv8>, i: nat, n: nat, enc: bool)
    requires Ready(k) && i + SECTOR * n <= input.Length && o + SECTOR * n <= output.Length &&
             Overlay(input, i, output, o, SECTOR * n)
    modifies output
    ensures output[..] == Splice(old(output[..]), o, Crypted(k, s, old(input[i..i + SECTOR * n]), n, enc))
  {
    hide OneSector, Splice, Crypted, CryptedAt;
    ghost var was, x := output[..], input[i..i + SECTOR * n];
    ghost var written: seq<bv8> := [];
    CryptedBegins(k, s, x, n, enc);
    SpliceNothing(was, o);
    var d := 0;
    while d < n
      invariant d <= n && |written| == SECTOR * d
      invariant CryptedAt(k, s, x, n, enc, d, written)
      invariant output[..] == Splice(was, o, written)
      invariant input[..][i + SECTOR * d..i + SECTOR * n] == x[SECTOR * d..]
    {
      ghost var before, part := output[..], SectorAt(x, d);
      ghost var c := OneSector(k, s + d, part, enc);
      NextInput(input[..], i + SECTOR * d, i + SECTOR * n, SECTOR, x, SECTOR * d);
      CryptedMoves(k, s, x, n, enc, d, written);
      CryptSector(k, s + d, output, o + SECTOR * d, input, i + SECTOR * d, enc);
      SpliceTwice(was, o, written, c);
      if input == output {
        InputKept(before, o + SECTOR * d, c, i + SECTOR * d + SECTOR, i + SECTOR * n);
      }
      written := written + c;
      d := d + 1;
    }
    CryptedEnds(k, s, x, n, enc, written);
  }

  lemma CryptedBegins(k: Key, s: nat, x: seq<bv8>, n: nat, enc: bool)
    requires Ready(k) && |x| == SECTOR * n
    ensures CryptedAt(k, s, x, n, enc, 0, [])
  {
    hide Crypted;
    assert x[0..] == x;
    assert [] + Crypted(k, s, x, n, enc) == Crypted(k, s, x, n, enc);
  }

  lemma CryptedEnds(k: Key, s: nat, x: seq<bv8>, n: nat, enc: bool, written: seq<bv8>)
    requires Ready(k) && |x| == SECTOR * n && CryptedAt(k, s, x, n, enc, n, written)
    ensures Crypted(k, s, x, n, enc) == written
  {
    assert written + [] == written;
  }

  // ---------------------------------------------------------------------------
  // The cipher of the disk model
  // ---------------------------------------------------------------------------

  function CryptOne(k: Key, s: nat, x: Sector, enc: bool): Sector
    requires Ready(k)
  {
    if |x.bytes| == SECTOR then Sector(OneSector(k, s, x.bytes, enc)) else x
  }

  /** AES in CBC mode, as the disk model's sector cipher. */
  function SectorCipher(ek: Key, dk: Key): QcowSpec.Cipher
    requires Ready(ek) && Ready(dk)
  {
    QcowSpec.Cipher((s: nat, x: Sector) => CryptOne(ek, s, x, true), (s: nat, x: Sector) => CryptOne(dk, s, x, false))
  }

  /** The disk model may rely on it: it inverts. */
  lemma SectorCipherInverts(ek: Key, dk: Key)
    requires Matching(ek, dk)
    ensures QcowSpec.Inverts(SectorCipher(ek, dk))
  {
    hide OneSector;
    forall s: nat, x: Sector
      ensures CryptOne(dk, s, CryptOne(ek, s, x, true), false) == x
    {
      if |x.bytes| == SECTOR {
        SectorRoundTrip(ek, dk, s, x.bytes);
      }
    }
  }
}
