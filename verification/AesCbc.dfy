/**
 * Cipher block chaining over AES: section 6.2 of NIST SP 800-38A, with the
 * program's own treatment of a last block that is not full.
 */
module AesCbc {
  import opened AesSpec
  import opened AesCipher

  /** A key schedule ready for use. */
  datatype Key = Key(bx: Boxes, rk: seq<bv32>, rounds: nat)

  predicate Ready(k: Key) {
    Schedule(k.rk, k.rounds)
  }

  /** `dk` decrypts what `ek` encrypts: the same S-box, the inverted schedule. */
  ghost predicate Matching(ek: Key, dk: Key) {
    && Ready(ek) && Ready(dk) && Mutual(ek.bx)
    && dk.bx == ek.bx && dk.rounds == ek.rounds
    && Keys(dk.rk, dk.rounds) == DecryptionKeys(Keys(ek.rk, ek.rounds))
  }

  function Enc(k: Key, b: Block): Block
    requires Ready(k)
  {
    Encrypted(k.bx, k.rk, k.rounds, b)
  }

  function Dec(k: Key, b: Block): Block
    requires Ready(k)
  {
    Decrypted(k.bx, k.rk, k.rounds, b)
  }

  // ---------------------------------------------------------------------------
  // Chaining, block by block
  // ---------------------------------------------------------------------------

  function Min(a: nat, b: nat): nat {
    if a < b then a else b
  }

  /** Up to 16 bytes mixed with the chaining value; missing bytes count as zero. */
  function Padded(x: seq<bv8>, iv: Block): Block
    requires |x| <= 16
  {
    seq(16, n requires 0 <= n < 16 => if n < |x| then Xor(x[n], iv[n]) else iv[n])
  }

  /** Room that the encryption of `n` bytes takes. */
  function Room(n: nat): nat {
    if n == 0 then 0 else 16 + Room(n - Min(16, n))
  }

  function CbcEncrypted(k: Key, iv: Block, x: seq<bv8>): (c: seq<bv8>)
    requires Ready(k)
    ensures |c| == Room(|x|)
    decreases |x|
  {
    if |x| == 0 then []
    else
      var c := Enc(k, Padded(x[..Min(16, |x|)], iv));
      c + CbcEncrypted(k, c, x[Min(16, |x|)..])
  }

  /** The first `n` bytes behind the ciphertext `c`. */
  function CbcDecrypted(k: Key, iv: Block, c: seq<bv8>, n: nat): (x: seq<bv8>)
    requires Ready(k) && Room(n) <= |c|
    ensures |x| == n
    decreases n
  {
    if n == 0 then []
    else Padded(Dec(k, c[..16]), iv)[..Min(16, n)] + CbcDecrypted(k, c[..16], c[16..], n - Min(16, n))
  }

  /** The chaining value that encryption leaves behind. */
  function EncIv(k: Key, iv: Block, x: seq<bv8>): Block
    requires Ready(k)
    decreases |x|
  {
    if |x| == 0 then iv
    else EncIv(k, Enc(k, Padded(x[..Min(16, |x|)], iv)), x[Min(16, |x|)..])
  }

  /** The chaining value that decryption leaves behind; after a block that was not full it is not the ciphertext. */
  function DecIv(k: Key, iv: Block, c: seq<bv8>, n: nat): Block
    requires Ready(k) && Room(n) <= |c|
    decreases n
  {
    if n == 0 then iv
    else if n < 16 then Dec(k, c[..16])
    else DecIv(k, c[..16], c[16..], n - 16)
  }

  lemma DecEnc(ek: Key, dk: Key, b: Block)
    requires Matching(ek, dk)
    ensures Dec(dk, Enc(ek, b)) == b
  {
    BlockRoundTrip(ek.bx, ek.rk, dk.rk, ek.rounds, b);
  }

  lemma PaddedTwice(x: seq<bv8>, iv: Block)
    requires |x| <= 16
    ensures Padded(Padded(x, iv), iv)[..|x|] == x
  {
    hide Xor;
    forall n: nat | n < |x|
      ensures Padded(Padded(x, iv), iv)[n] == x[n]
    {
      Cancel(x[n], iv[n]);
    }
  }

  /** CBC decryption undoes CBC encryption: every length, every initial value, a partial last block included. */
  lemma {:induction false} CbcRoundTrip(ek: Key, dk: Key, iv: Block, x: seq<bv8>)
    requires Matching(ek, dk)
    ensures CbcDecrypted(dk, iv, CbcEncrypted(ek, iv, x), |x|) == x
    decreases |x|
  {
    hide Padded, Enc, Dec;
    if |x| > 0 {
      var m := Min(16, |x|);
      var p := Padded(x[..m], iv);
      var c := Enc(ek, p);
      var rest := CbcEncrypted(ek, c, x[m..]);
      var all := CbcEncrypted(ek, iv, x);
      assert all == c + rest;
      assert all[..16] == c && all[16..] == rest;
      DecEnc(ek, dk, p);
      PaddedTwice(x[..m], iv);
      CbcRoundTrip(ek, dk, c, x[m..]);
      assert x == x[..m] + x[m..];
    }
  }

  // ---------------------------------------------------------------------------
  // The loops
  // ---------------------------------------------------------------------------

  /** Of `n` input bytes none is overwritten before it is read: the output is no further on, or apart. */
  predicate Overlay(input: array<bv8>, i: nat, output: array<bv8>, o: nat, n: nat) {
    input == output ==> o <= i || i + n <= o
  }

  /** Outside `[o, o + n)` nothing has changed. */
  ghost predicate Outside(was: seq<bv8>, now: seq<bv8>, o: nat, n: nat) {
    |now| == |was| && forall x: nat | x < |was| && !(o <= x < o + n) :: now[x] == was[x]
  }

  lemma Spliced(was: seq<bv8>, o: nat, part: seq<bv8>)
    requires o + |part| <= |was|
    ensures Splice(was, o, part)[o..o + |part|] == part && Outside(was, Splice(was, o, part), o, |part|)
  {
  }

  /** `tmp` becomes the next `m` bytes mixed with the chaining value. */
  method MixIn(input: array<bv8>, i: nat, m: nat, ivec: array<bv8>, tmp: array<bv8>)
    requires m <= 16 && i + m <= input.Length && ivec.Length == tmp.Length == 16
    requires tmp != input && tmp != ivec
    modifies tmp
    ensures tmp[..] == Padded(input[i..i + m], ivec[..])
  {
    hide Xor;
    var n := 0;
    while n < m
      invariant n <= m
      invariant forall x: nat | x < n :: tmp[x] == Xor(input[i + x], ivec[x])
    {
      tmp[n] := Xor(input[i + n], ivec[n]);
      n := n + 1;
    }
    while n < 16
      invariant m <= n <= 16
      invariant forall x: nat | x < m :: tmp[x] == Xor(input[i + x], ivec[x])
      invariant forall x: nat | m <= x < n :: tmp[x] == ivec[x]
    {
      tmp[n] := ivec[n];
      n := n + 1;
    }
  }

  method Copy(to: array<bv8>, t: nat, from: array<bv8>, f: nat)
    requires t + 16 <= to.Length && f + 16 <= from.Length && to != from
    modifies to
    ensures to[..] == Splice(old(to[..]), t, from[f..f + 16])
  {
    forall n | 0 <= n < 16 {
      to[t + n] := from[f + n];
    }
  }

  /** Encrypt one block of the chain, full or not. */
  method EncryptStep(k: Key, input: array<bv8>, i: nat, m: nat, output: array<bv8>, o: nat, ivec: array<bv8>)
    requires Ready(k) && m <= 16 && i + m <= input.Length && o + 16 <= output.Length
    requires ivec.Length == 16 && ivec != input && ivec != output
    modifies output, ivec
    ensures var c := Enc(k, Padded(old(input[i..i + m]), old(ivec[..])));
            output[..] == Splice(old(output[..]), o, c) && ivec[..] == c
  {
    hide Padded, Encrypted, Splice;
    var tmp := new bv8[16];
    MixIn(input, i, m, ivec, tmp);
    assert tmp[0..16] == tmp[..];
    ghost var was := output[..];
    Encrypt(k.bx, tmp, 0, output, o, k.rk, k.rounds);
    Spliced(was, o, Enc(k, tmp[..]));
    ghost var iv := ivec[..];
    Copy(ivec, 0, output, o);
    WholeSplice(iv, output[o..o + 16]);
  }

  lemma WholeSplice(was: Block, part: Block)
    ensures Splice(was, 0, part) == part
  {
  }

  /** What is left of an encryption after its first `done` bytes. */
  ghost predicate EncAt(k: Key, iv: Block, x: seq<bv8>, done: nat, written: seq<bv8>, now: Block)
    requires Ready(k) && done <= |x|
  {
    && Room(|x|) == |written| + Room(|x| - done)
    && CbcEncrypted(k, iv, x) == written + CbcEncrypted(k, now, x[done..])
    && EncIv(k, iv, x) == EncIv(k, now, x[done..])
  }

  lemma EncBegins(k: Key, iv: Block, x: seq<bv8>)
    requires Ready(k)
    ensures EncAt(k, iv, x, 0, [], iv)
  {
    hide CbcEncrypted, EncIv;
    assert x[0..] == x;
    assert [] + CbcEncrypted(k, iv, x) == CbcEncrypted(k, iv, x);
  }

  lemma EncMoves(k: Key, iv: Block, x: seq<bv8>, done: nat, m: nat, written: seq<bv8>, now: Block)
    requires Ready(k) && done < |x| && m == Min(16, |x| - done) && EncAt(k, iv, x, done, written, now)
    ensures var c := Enc(k, Padded(x[done..done + m], now));
            EncAt(k, iv, x, done + m, written + c, c)
  {
    hide Padded, Enc;
    var y := x[done..];
    var c := Enc(k, Padded(x[done..done + m], now));
    assert y[..m] == x[done..done + m] && y[m..] == x[done + m..];
    assert written + (c + CbcEncrypted(k, c, y[m..])) == written + c + CbcEncrypted(k, c, y[m..]);
  }

  lemma EncEnds(k: Key, iv: Block, x: seq<bv8>, written: seq<bv8>, now: Block)
    requires Ready(k) && EncAt(k, iv, x, |x|, written, now)
    ensures CbcEncrypted(k, iv, x) == written && EncIv(k, iv, x) == now
  {
    assert x[|x|..] == [];
    assert written + [] == written;
  }

  lemma NextInput(s: seq<bv8>, lo: nat, hi: nat, m: nat, x: seq<bv8>, done: nat)
    requires lo + m <= hi <= |s| && done <= |x| && s[lo..hi] == x[done..]
    ensures s[lo..lo + m] == x[done..done + m] && s[lo + m..hi] == x[done + m..]
  {
    assert s[lo..lo + m] == s[lo..hi][..m];
    assert s[lo + m..hi] == s[lo..hi][m..];
  }

  /** After a step at `o`, the rest of the input is still there. */
  lemma InputKept(was: seq<bv8>, o: nat, c: seq<bv8>, lo: nat, hi: nat)
    requires o + |c| <= |was| && lo <= hi <= |was| && (o + |c| <= lo || hi <= o)
    ensures Splice(was, o, c)[lo..hi] == was[lo..hi]
  {
  }

  /** The state of the encryption loop: `done` bytes are through, `out` holds their ciphertext. */
  ghost predicate Encrypting(k: Key, iv: Block, x: seq<bv8>, was: seq<bv8>, o: nat, done: nat, out: seq<bv8>,
                             now: Block)
    requires Ready(k)
  {
    && done <= |x| && Room(|x|) == done + Room(|x| - done) && o + Room(|x|) <= |was|
    && exists written: seq<bv8> ::
         |written| == done && EncAt(k, iv, x, done, written, now) && out == Splice(was, o, written)
  }

  lemma EncryptingStarts(k: Key, iv: Block, x: seq<bv8>, was: seq<bv8>, o: nat)
    requires Ready(k) && o + Room(|x|) <= |was|
    ensures Encrypting(k, iv, x, was, o, 0, was, iv)
  {
    hide EncAt;
    EncBegins(k, iv, x);
    SpliceNothing(was, o);
    assert was == Splice(was, o, []);
  }

  lemma EncryptingMoves(k: Key, iv: Block, x: seq<bv8>, was: seq<bv8>, o: nat, done: nat, out: seq<bv8>, now: Block)
    requires Ready(k) && Encrypting(k, iv, x, was, o, done, out, now) && |x| - done >= 16
    ensures var c := Enc(k, Padded(x[done..done + 16], now));
            o + done + 16 <= |out| && Encrypting(k, iv, x, was, o, done + 16, Splice(out, o + done, c), c)
  {
    hide Padded, Enc, Splice, EncAt;
    var written: seq<bv8> :| |written| == done && EncAt(k, iv, x, done, written, now) && out == Splice(was, o, written);
    var c := Enc(k, Padded(x[done..done + 16], now));
    EncMoves(k, iv, x, done, 16, written, now);
    SpliceTwice(was, o, written, c);
    assert |written + c| == done + 16;
  }

  lemma EncryptingEnds(k: Key, iv: Block, x: seq<bv8>, was: seq<bv8>, o: nat, done: nat, out: seq<bv8>, now: Block)
    requires Ready(k) && Encrypting(k, iv, x, was, o, done, out, now) && |x| - done < 16
    ensures |x| == done ==> out == Splice(was, o, CbcEncrypted(k, iv, x)) && now == EncIv(k, iv, x)
    ensures |x| > done ==> var c := Enc(k, Padded(x[done..], now));
                           && o + done + 16 <= |out|
                           && Splice(out, o + done, c) == Splice(was, o, CbcEncrypted(k, iv, x)) && c == EncIv(k, iv, x)
  {
    hide Padded, Enc, Splice, EncAt;
    var written: seq<bv8> :| |written| == done && EncAt(k, iv, x, done, written, now) && out == Splice(was, o, written);
    if |x| == done {
      EncEnds(k, iv, x, written, now);
    } else {
      var m := |x| - done;
      assert x[done..done + m] == x[done..];
      var c := Enc(k, Padded(x[done..], now));
      EncMoves(k, iv, x, done, m, written, now);
      SpliceTwice(was, o, written, c);
      EncEnds(k, iv, x, written + c, c);
    }
  }

  /** Encrypt `length` bytes, in place, towards the start of the buffer, or from one buffer to another. */
  method CbcEncrypt(k: Key, input: array<bv8>, i: nat, output: array<bv8>, o: nat, length: nat, ivec: array<bv8>)
    requires Ready(k) && i + length <= input.Length && o + Room(length) <= output.Length &&
             Overlay(input, i, output, o, length)
    requires ivec.Length == 16 && ivec != input && ivec != output
    modifies output, ivec
    ensures output[..] == Splice(old(output[..]), o, CbcEncrypted(k, old(ivec[..]), old(input[i..i + length])))
    ensures ivec[..] == EncIv(k, old(ivec[..]), old(input[i..i + length]))
  {
    hide Padded, Enc, Splice, Encrypting, CbcEncrypted, EncIv, Room;
    ghost var was, x, iv := output[..], input[i..i + length], ivec[..];
    var done: nat, len: nat := 0, length;
    EncryptingStarts(k, iv, x, was, o);
    while len >= 16
      invariant done + len == length
      invariant Encrypting(k, iv, x, was, o, done, output[..], ivec[..])
      invariant input[..][i + done..i + length] == x[done..]
    {
      ghost var before := output[..];
      ghost var c := Enc(k, Padded(x[done..done + 16], ivec[..]));
      NextInput(input[..], i + done, i + length, 16, x, done);
      EncryptingMoves(k, iv, x, was, o, done, output[..], ivec[..]);
      EncryptStep(k, input, i + done, 16, output, o + done, ivec);
      if input == output {
        InputKept(before, o + done, c, i + done + 16, i + length);
      }
      len, done := len - 16, done + 16;
    }
    EncryptingEnds(k, iv, x, was, o, done, output[..], ivec[..]);
    if len > 0 {
      EncryptStep(k, input, i + done, len, output, o + done, ivec);
    }
  }

  lemma SpliceNothing(was: seq<bv8>, o: nat)
    requires o <= |was|
    ensures Splice(was, o, []) == was
  {
  }

  /** `output[o..o + m]` becomes the first `m` bytes of `tmp` mixed with the chaining value. */
  method MixOut(tmp: array<bv8>, t: nat, m: nat, ivec: array<bv8>, output: array<bv8>, o: nat)
    requires m <= 16 && t + 16 <= tmp.Length && ivec.Length == 16 && o + m <= output.Length && output != ivec
    requires tmp == output ==> t == o
    modifies output
    ensures output[..] == Splice(old(output[..]), o, Padded(old(tmp[t..t + 16]), ivec[..])[..m])
  {
    hide Xor;
    ghost var was, d := output[..], tmp[t..t + 16];
    var n := 0;
    while n < m
      invariant n <= m
      invariant forall x: nat | x < n :: output[o + x] == Xor(d[x], ivec[x])
      invariant forall x: nat | x < output.Length && !(o <= x < o + n) :: output[x] == was[x]
      invariant forall x: nat | n <= x < 16 :: tmp[t + x] == d[x]
    {
      output[o + n] := Xor(tmp[t + n], ivec[n]);
      n := n + 1;
    }
    assert output[..] == Splice(was, o, Padded(d, ivec[..])[..m]);
  }

  /** Decrypt one full block of the chain. */
  method DecryptStep(k: Key, input: array<bv8>, i: nat, output: array<bv8>, o: nat, ivec: array<bv8>)
    requires Ready(k) && i + 16 <= input.Length && o + 16 <= output.Length
    requires ivec.Length == 16 && ivec != input && ivec != output
    modifies output, ivec
    ensures output[..] == Splice(old(output[..]), o, Padded(Dec(k, old(input[i..i + 16])), old(ivec[..])))
    ensures ivec[..] == old(input[i..i + 16])
  {
    hide Padded, Decrypted, Splice;
    var tmp := new bv8[16];
    ghost var junk, c, was, iv := tmp[..], input[i..i + 16], output[..], ivec[..];
    Copy(tmp, 0, input, i);
    WholeSplice(junk, c);
    Decrypt(k.bx, input, i, output, o, k.rk, k.rounds);
    Spliced(was, o, Dec(k, c));
    MixOut(output, o, 16, ivec, output, o);
    SpliceOver(was, o, Dec(k, c), Padded(Dec(k, c), iv));
    assert Padded(Dec(k, c), iv)[..16] == Padded(Dec(k, c), iv);
    assert tmp[0..16] == c;
    Copy(ivec, 0, tmp, 0);
    WholeSplice(iv, c);
  }

  lemma SpliceOver(was: seq<bv8>, o: nat, p: seq<bv8>, q: seq<bv8>)
    requires |p| == |q| && o + |p| <= |was|
    ensures Splice(Splice(was, o, p), o, q) == Splice(was, o, q)
  {
  }

  /** Decrypt a last block of which only `m` bytes are wanted. */
  method DecryptLast(k: Key, input: array<bv8>, i: nat, m: nat, output: array<bv8>, o: nat, ivec: array<bv8>)
    requires Ready(k) && m < 16 && i + 16 <= input.Length && o + m <= output.Length
    requires ivec.Length == 16 && ivec != input && ivec != output
    modifies output, ivec
    ensures output[..] == Splice(old(output[..]), o, Padded(Dec(k, old(input[i..i + 16])), old(ivec[..]))[..m])
    ensures ivec[..] == Dec(k, old(input[i..i + 16]))
  {
    hide Padded, Decrypted, Splice;
    var tmp := new bv8[16];
    ghost var junk, c, iv := tmp[..], input[i..i + 16], ivec[..];
    Copy(tmp, 0, input, i);
    WholeSplice(junk, c);
    assert tmp[0..16] == c;
    Decrypt(k.bx, tmp, 0, tmp, 0, k.rk, k.rounds);
    WholeSplice(c, Dec(k, c));
    assert tmp[0..16] == Dec(k, c);
    MixOut(tmp, 0, m, ivec, output, o);
    Copy(ivec, 0, tmp, 0);
    WholeSplice(iv, Dec(k, c));
  }

  /** What is left of a decryption after its first `done` bytes. */
  ghost predicate DecAt(k: Key, iv: Block, c: seq<bv8>, n: nat, done: nat, written: seq<bv8>, now: Block)
    requires Ready(k) && Room(n) <= |c|
  {
    && done <= n && Room(n) == done + Room(n - done)
    && CbcDecrypted(k, iv, c, n) == written + CbcDecrypted(k, now, c[done..], n - done)
    && DecIv(k, iv, c, n) == DecIv(k, now, c[done..], n - done)
  }

  lemma DecBegins(k: Key, iv: Block, c: seq<bv8>, n: nat)
    requires Ready(k) && Room(n) <= |c|
    ensures DecAt(k, iv, c, n, 0, [], iv)
  {
    hide CbcDecrypted, DecIv;
    assert c[0..] == c;
    assert [] + CbcDecrypted(k, iv, c, n) == CbcDecrypted(k, iv, c, n);
  }

  lemma DecMoves(k: Key, iv: Block, c: seq<bv8>, n: nat, done: nat, written: seq<bv8>, now: Block)
    requires Ready(k) && Room(n) <= |c| && DecAt(k, iv, c, n, done, written, now) && n - done >= 16
    ensures done + 16 <= |c|
    ensures var b := c[done..done + 16];
            DecAt(k, iv, c, n, done + 16, written + Padded(Dec(k, b), now), b)
  {
    hide Padded, Dec;
    var y, b := c[done..], c[done..done + 16];
    assert y[..16] == b && y[16..] == c[done + 16..];
    assert Room(n - done) == 16 + Room(n - done - 16);
    var p := Padded(Dec(k, b), now);
    assert p[..16] == p;
    assert written + (p + CbcDecrypted(k, b, y[16..], n - done - 16)) ==
           written + p + CbcDecrypted(k, b, y[16..], n - done - 16);
  }

  lemma DecStops(k: Key, iv: Block, c: seq<bv8>, n: nat, done: nat, written: seq<bv8>, now: Block)
    requires Ready(k) && Room(n) <= |c| && DecAt(k, iv, c, n, done, written, now) && n - done < 16
    ensures n == done ==> CbcDecrypted(k, iv, c, n) == written && DecIv(k, iv, c, n) == now
    ensures n > done ==> done + 16 <= |c| && var b := c[done..done + 16];
                         && CbcDecrypted(k, iv, c, n) == written + Padded(Dec(k, b), now)[..n - done]
                         && DecIv(k, iv, c, n) == Dec(k, b)
  {
    hide Padded, Dec;
    if n == done {
      assert written + [] == written;
    } else {
      assert Room(n - done) == 16 + Room(0);
      assert c[done..][..16] == c[done..done + 16];
      var q := Padded(Dec(k, c[done..done + 16]), now)[..n - done];
      assert q + [] == q;
    }
  }

  function BlockAt(c: seq<bv8>, d: nat): Block
    requires d + 16 <= |c|
  {
    c[d..d + 16]
  }

  /** The state of the decryption loop. */
  ghost predicate Decrypting(k: Key, iv: Block, c: seq<bv8>, n: nat, was: seq<bv8>, o: nat, done: nat, out: seq<bv8>,
                             now: Block)
    requires Ready(k)
  {
    && done <= n && Room(n) <= |c| && o + n <= |was| && Room(n) == done + Room(n - done)
    && exists written: seq<bv8> ::
         |written| == done && DecAt(k, iv, c, n, done, written, now) && out == Splice(was, o, written)
  }

  lemma DecryptingStarts(k: Key, iv: Block, c: seq<bv8>, n: nat, was: seq<bv8>, o: nat)
    requires Ready(k) && Room(n) <= |c| && o + n <= |was|
    ensures Decrypting(k, iv, c, n, was, o, 0, was, iv)
  {
    hide DecAt;
    DecBegins(k, iv, c, n);
    SpliceNothing(was, o);
    assert was == Splice(was, o, []);
  }

  lemma DecryptingMoves(k: Key, iv: Block, c: seq<bv8>, n: nat, was: seq<bv8>, o: nat, done: nat, out: seq<bv8>,
                        now: Block)
    requires Ready(k) && Decrypting(k, iv, c, n, was, o, done, out, now) && n - done >= 16
    ensures done + 16 <= |c| && o + done + 16 <= |out|
    ensures var p := Padded(Dec(k, BlockAt(c, done)), now);
            Decrypting(k, iv, c, n, was, o, done + 16, Splice(out, o + done, p), BlockAt(c, done))
  {
    hide Padded, Dec, Splice, DecAt;
    var written: seq<bv8> :| |written| == done && DecAt(k, iv, c, n, done, written, now) &&
      out == Splice(was, o, written);
    DecMoves(k, iv, c, n, done, written, now);
    var p := Padded(Dec(k, BlockAt(c, done)), now);
    SpliceTwice(was, o, written, p);
    assert |written + p| == done + 16;
  }

  lemma DecryptingEnds(k: Key, iv: Block, c: seq<bv8>, n: nat, was: seq<bv8>, o: nat, done: nat, out: seq<bv8>,
                       now: Block)
    requires Ready(k) && Decrypting(k, iv, c, n, was, o, done, out, now) && n - done < 16
    ensures n == done ==> out == Splice(was, o, CbcDecrypted(k, iv, c, n)) && now == DecIv(k, iv, c, n)
    ensures n > done ==> done + 16 <= |c| && o + n <= |out|
    ensures n > done ==> var b := BlockAt(c, done);
                         && Splice(out, o + done, Padded(Dec(k, b), now)[..n - done]) ==
                           Splice(was, o, CbcDecrypted(k, iv, c, n))
                         && Dec(k, b) == DecIv(k, iv, c, n)
  {
    hide Padded, Dec, Splice, DecAt;
    var written: seq<bv8> :| |written| == done && DecAt(k, iv, c, n, done, written, now) &&
      out == Splice(was, o, written);
    DecStops(k, iv, c, n, done, written, now);
    if n > done {
      SpliceTwice(was, o, written, Padded(Dec(k, BlockAt(c, done)), now)[..n - done]);
    }
  }

  /** Decrypt `length` bytes, in place, towards the start of the buffer, or from one buffer to another. */
  method CbcDecrypt(k: Key, input: array<bv8>, i: nat, output: array<bv8>, o: nat, length: nat, ivec: array<bv8>)
    requires Ready(k) && i + Room(length) <= input.Length && o + length <= output.Length &&
             Overlay(input, i, output, o, Room(length))
    requires ivec.Length == 16 && ivec != input && ivec != output
    modifies output, ivec
    ensures output[..] ==
            Splice(old(output[..]), o, CbcDecrypted(k, old(ivec[..]), old(input[i..i + Room(length)]), length))
    ensures ivec[..] == DecIv(k, old(ivec[..]), old(input[i..i + Room(length)]), length)
  {
    hide Padded, Dec, Splice, Decrypting, CbcDecrypted, DecIv, Room;
    ghost var room := Room(length);
    ghost var was, c, iv := output[..], input[i..i + room], ivec[..];
    var done: nat, len: nat := 0, length;
    DecryptingStarts(k, iv, c, length, was, o);
    while len >= 16
      invariant done + len == length
      invariant Decrypting(k, iv, c, length, was, o, done, output[..], ivec[..])
      invariant done <= room && input[..][i + done..i + room] == c[done..]
    {
      ghost var before := output[..];
      DecryptingMoves(k, iv, c, length, was, o, done, output[..], ivec[..]);
      ghost var p := Padded(Dec(k, BlockAt(c, done)), ivec[..]);
      NextInput(input[..], i + done, i + room, 16, c, done);
      DecryptStep(k, input, i + done, output, o + done, ivec);
      if input == output {
        InputKept(before, o + done, p, i + done + 16, i + room);
      }
      len, done := len - 16, done + 16;
    }
    DecryptingEnds(k, iv, c, length, was, o, done, output[..], ivec[..]);
    if len > 0 {
      NextInput(input[..], i + done, i + room, 16, c, done);
      DecryptLast(k, input, i + done, len, output, o + done, ivec);
    }
  }
}
