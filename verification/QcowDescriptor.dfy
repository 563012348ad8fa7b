/**
 * The 64-bit L2 entry of a compressed cluster: byte offset in the low bits, then
 * the number of further 512-byte sectors, then the COMPRESSED flag.  The split
 * depends on the cluster size, 2^9 to 2^16 bytes.
 */
module QcowDescriptor {
  const COPIED: bv64 := 0x8000_0000_0000_0000
  const COMPRESSED: bv64 := 0x4000_0000_0000_0000

  predicate ClusterBits(bits: bv6) {
    9 <= bits <= 16
  }

  /** Sectors of a cluster. */
  function ClusterSectors(bits: bv6): nat
    requires ClusterBits(bits)
  {
    match bits
    case 9 => 1
    case 10 => 2
    case 11 => 4
    case 12 => 8
    case 13 => 16
    case 14 => 32
    case 15 => 64
    case _ => 128
  }

  /** Bits of the sector count. */
  function CountBits(bits: bv6): bv6 {
    bits - 8
  }

  function Shift(bits: bv6): bv6 {
    62 - CountBits(bits)
  }

  /** Sector boundaries inside `size` bytes from byte `off` on. */
  function Crossings(off: nat, size: nat): (n: nat)
    requires size > 0
  {
    (off + size - 1) / 512 - off / 512
  }

  // ---------------------------------------------------------------------------
  // Fields of a word
  // ---------------------------------------------------------------------------

  /** The three fields do not overlap. */
  lemma FieldsApart(s: bv6, off: bv64, n: bv64)
    requires 54 <= s <= 61 && off < (1 as bv64) << s && n < (1 as bv64) << (62 - s)
    ensures var w := off | COMPRESSED | (n << s);
            && w & (((1 as bv64) << s) - 1) == off
            && (w >> s) & (((1 as bv64) << (62 - s)) - 1) == n
            && w & COPIED == 0 && w & COMPRESSED != 0
  {
  }

  /** A small number as a byte. */
  function Byte(n: nat): bv8 {
    if n == 0 then 0 else Byte(n - 1) + 1
  }

  lemma NextByte(c: bv8)
    requires c < 255
    ensures (c + 1) as nat == c as nat + 1
  {
  }

  lemma SmallerThanAll(c: bv8)
    requires c as nat < 255
    ensures c < 255
  {
  }

  lemma {:induction false} ByteBack(n: nat)
    requires n < 256
    ensures Byte(n) as nat == n
  {
    if n > 0 {
      ByteBack(n - 1);
      SmallerThanAll(Byte(n - 1));
      NextByte(Byte(n - 1));
    }
  }

  lemma CountOrder(a: bv8, b: bv8)
    ensures a <= b <==> a as nat <= b as nat
  {
  }

  lemma CountFits(bits: bv6, n: bv8, m: bv8)
    requires ClusterBits(bits) && n <= m
    requires m == (1 as bv8) << (bits - 9)
    ensures (n as bv64) < (1 as bv64) << (62 - Shift(bits)) && 54 <= Shift(bits) <= 61
  {
  }

  // ---------------------------------------------------------------------------
  // Encoding and decoding
  // ---------------------------------------------------------------------------

  /** What an encoder may be given: the offset fits its field, the data fits a cluster. */
  predicate Fits(bits: bv6, off: bv64, size: nat) {
    ClusterBits(bits) && off < (1 as bv64) << Shift(bits) && 0 < size <= 512 * ClusterSectors(bits)
  }

  /** As many sector boundaries as the cluster has sectors, at most. */
  lemma CrossingsBound(off: nat, size: nat, m: nat)
    requires 0 < size <= 512 * m
    ensures Crossings(off, size) <= m
  {
  }

  /** Offset, flag and count in one word. */
  function Word(bits: bv6, off: bv64, n: bv8): bv64 {
    off | COMPRESSED | ((n as bv64) << Shift(bits))
  }

  function Encode(bits: bv6, off: bv64, size: nat): bv64
    requires Fits(bits, off, size)
  {
    Word(bits, off, Byte(Crossings(off as nat, size)))
  }

  function DecodeOffset(bits: bv6, w: bv64): bv64 {
    w & (((1 as bv64) << Shift(bits)) - 1)
  }

  function DecodeCount(bits: bv6, w: bv64): bv64 {
    (w >> Shift(bits)) & (((1 as bv64) << (62 - Shift(bits))) - 1)
  }

  /** A compressed entry, not marked COPIED, that decodes to `off` and `n`. */
  predicate Decodes(bits: bv6, w: bv64, off: bv64, n: bv8) {
    DecodeOffset(bits, w) == off && DecodeCount(bits, w) == n as bv64 && w & COPIED == 0 && w & COMPRESSED != 0
  }

  predicate Narrow(bits: bv6, off: bv64, n: bv8) {
    54 <= Shift(bits) <= 61 && off < (1 as bv64) << Shift(bits) && (n as bv64) < (1 as bv64) << (62 - Shift(bits))
  }

  lemma WordDecodes(bits: bv6, off: bv64, n: bv8)
    requires Narrow(bits, off, n)
    ensures Decodes(bits, Word(bits, off, n), off, n)
  {
    hide Shift;
    FieldsApart(Shift(bits), off, n as bv64);
  }

  /** Bytes that are read for `count` further sectors: whole sectors, less what precedes the offset. */
  function ReadSize(off: nat, count: nat): int {
    (count + 1) * 512 - off % 512
  }

  /** Whole sectors up to the last byte hold all of the data, and less than a sector more. */
  lemma Covering(off: nat, size: nat)
    requires size > 0
    ensures size <= ReadSize(off, Crossings(off, size)) <= size + 511
  {
  }

  lemma SectorsShifted(bits: bv6)
    requires ClusterBits(bits)
    ensures ClusterSectors(bits) < 256 && Byte(ClusterSectors(bits)) == (1 as bv8) << (bits - 9)
  {
    assert Byte(1) == 1;
    ByteTwice(1);
    ByteTwice(2);
    ByteTwice(4);
    ByteTwice(8);
    ByteTwice(16);
    ByteTwice(32);
    ByteTwice(64);
  }

  lemma TwiceNext(c: bv8)
    ensures (c + 1) << 1 == (c << 1) + 1 + 1
  {
  }

  lemma {:induction false} ByteTwice(n: nat)
    ensures Byte(2 * n) == Byte(n) << 1
  {
    if n > 0 {
      ByteTwice(n - 1);
      TwiceNext(Byte(n - 1));
      assert Byte(2 * n) == Byte(2 * n - 1) + 1 && Byte(2 * n - 1) == Byte(2 * n - 2) + 1;
    }
  }

  /**
   * Decoding gives back the offset and a sector count that covers the data, with
   * the COMPRESSED flag set and the COPIED flag clear, for every cluster size.
   */
  lemma DescriptorRoundTrip(bits: bv6, off: bv64, size: nat)
    requires Fits(bits, off, size)
    ensures var n := Crossings(off as nat, size);
            && Byte(n) as nat == n && Decodes(bits, Encode(bits, off, size), off, Byte(n))
            && size <= ReadSize(off as nat, n) <= size + 511
  {
    hide Crossings, Word, Decodes, Narrow, Byte;
    var n, m := Crossings(off as nat, size), ClusterSectors(bits);
    CrossingsBound(off as nat, size, m);
    SectorsShifted(bits);
    ByteBack(n);
    ByteBack(m);
    CountOrder(Byte(n), Byte(m));
    EntryNarrow(bits, off, Byte(n), Byte(m));
    WordDecodes(bits, off, Byte(n));
    Covering(off as nat, size);
  }

  lemma EntryNarrow(bits: bv6, off: bv64, n: bv8, m: bv8)
    requires ClusterBits(bits) && off < (1 as bv64) << Shift(bits) && n <= m
    requires m == (1 as bv8) << (bits - 9)
    ensures Narrow(bits, off, n)
  {
    CountFits(bits, n, m);
  }
}
