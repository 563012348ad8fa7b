/**
 * Snapshot ids that the driver makes up: one more than the largest id, read as a
 * number the way the C library reads it and kept in a 32-bit int.
 */
module QcowIds {
  const ULONG_RANGE: nat := 0x1_0000_0000_0000_0000
  const UINT_RANGE: nat := 0x1_0000_0000
  const INT_MAX: int := 0x7fff_ffff
  const INT_MIN: int := -0x8000_0000

  // ---------------------------------------------------------------------------
  // Reading and writing numbers
  // ---------------------------------------------------------------------------

  predicate IsSpace(c: char) {
    c == ' ' || 9 <= c as int <= 13
  }

  predicate IsDigit(c: char) {
    '0' <= c <= '9'
  }

  function SkipSpaces(s: string): string {
    if |s| > 0 && IsSpace(s[0]) then SkipSpaces(s[1..]) else s
  }

  /** The longest prefix of digits. */
  function Digits(s: string): string {
    if |s| > 0 && IsDigit(s[0]) then [s[0]] + Digits(s[1..]) else ""
  }

  /** The number that a string of digits stands for. */
  function Value(ds: string): nat {
    if |ds| == 0 then 0
    else Value(ds[..|ds| - 1]) * 10 + if IsDigit(ds[|ds| - 1]) then (ds[|ds| - 1] as int - '0' as int) else 0
  }

  /** Unsigned long from decimal text: blanks, a sign, digits; too large numbers give the largest one. */
  function Strtoul(s: string): (u: nat)
    ensures u < ULONG_RANGE
  {
    var t := SkipSpaces(s);
    var signed := |t| > 0 && (t[0] == '-' || t[0] == '+');
    var v := Value(Digits(if signed then t[1..] else t));
    if v >= ULONG_RANGE then ULONG_RANGE - 1
    else if signed && t[0] == '-' && v > 0 then ULONG_RANGE - v
    else v
  }

  /** An integer stored into an int: its low 32 bits, in two's complement. */
  function ToInt(u: int): (i: int)
    ensures INT_MIN <= i <= INT_MAX
  {
    var w := u % UINT_RANGE;
    if w > INT_MAX then w - UINT_RANGE else w
  }

  function Decimal(n: nat): (s: string)
    ensures |s| > 0
  {
    var d := ('0' as int + n % 10) as char;
    if n < 10 then [d] else Decimal(n / 10) + [d]
  }

  function Print(i: int): string {
    if i < 0 then "-" + Decimal(-i) else Decimal(i)
  }

  // ---- reading undoes writing -------------------------------------------------

  lemma {:induction false} DecimalDigits(n: nat)
    ensures forall k: nat | k < |Decimal(n)| :: IsDigit(Decimal(n)[k])
  {
    if n >= 10 { DecimalDigits(n / 10); }
  }

  lemma {:induction false} DecimalValue(n: nat)
    ensures Value(Decimal(n)) == n
  {
    if n >= 10 {
      DecimalValue(n / 10);
      assert Decimal(n)[..|Decimal(n)| - 1] == Decimal(n / 10);
    }
  }

  lemma {:induction false} AllDigits(s: string)
    requires forall k: nat | k < |s| :: IsDigit(s[k])
    ensures Digits(s) == s
  {
    if |s| > 0 { AllDigits(s[1..]); }
  }

  /** What was printed for an int that is not negative is read back as that int. */
  lemma ReadBack(n: nat)
    requires n <= INT_MAX
    ensures ToInt(Strtoul(Decimal(n))) == n
  {
    hide Decimal, Value, Digits;
    DecimalDigits(n);
    DecimalValue(n);
    AllDigits(Decimal(n));
    var s := Decimal(n);
    assert IsDigit(s[0]);
    assert SkipSpaces(s) == s;
    assert n < ULONG_RANGE && Strtoul(s) == n;
  }

  // ---------------------------------------------------------------------------
  // The new id
  // ---------------------------------------------------------------------------

  function Number(id: string): int {
    ToInt(Strtoul(id))
  }

  /** The largest number among the first `k` ids, and at least 0. */
  function MaxNumber(ids: seq<string>, k: nat): (m: int)
    requires k <= |ids|
    ensures 0 <= m <= INT_MAX
  {
    if k == 0 then 0
    else
      var m := MaxNumber(ids, k - 1);
      if Number(ids[k - 1]) > m then Number(ids[k - 1]) else m
  }

  function NewId(ids: seq<string>): string {
    Print(ToInt(MaxNumber(ids, |ids|) + 1))
  }

  lemma {:induction false} MaxIsMax(ids: seq<string>, j: nat, k: nat)
    requires j < k <= |ids|
    ensures Number(ids[j]) <= MaxNumber(ids, k)
  {
    if j < k - 1 { MaxIsMax(ids, j, k - 1); }
  }

  /** As long as the largest number has a successor, the new id is that successor, and nobody has it. */
  lemma NewIdIsNew(ids: seq<string>)
    requires MaxNumber(ids, |ids|) < INT_MAX
    ensures NewId(ids) == Decimal(MaxNumber(ids, |ids|) + 1) && NewId(ids) !in ids
  {
    hide Decimal, Strtoul;
    var n := MaxNumber(ids, |ids|) + 1;
    ReadBack(n);
    assert ToInt(n) == n;
    if NewId(ids) in ids {
      var j: nat :| j < |ids| && ids[j] == NewId(ids);
      MaxIsMax(ids, j, |ids|);
    }
  }

  /** The new id is taken in one case only: the numbers have run out and the wrapped one is there already. */
  lemma NewIdTaken(ids: seq<string>)
    ensures NewId(ids) in ids <==> MaxNumber(ids, |ids|) == INT_MAX && Print(INT_MIN) in ids
  {
    hide Decimal, Strtoul, MaxNumber;
    if MaxNumber(ids, |ids|) < INT_MAX {
      NewIdIsNew(ids);
    }
  }

  /** Ids made up one after the other count 1, 2, 3. */
  lemma {:induction false} CountedUp(n: nat)
    requires n < INT_MAX
    ensures MaxNumber(MadeUp(n), n) == n && NewId(MadeUp(n)) == Decimal(n + 1)
  {
    hide Decimal, Strtoul;
    if n > 0 {
      CountedUp(n - 1);
      MaxPrefix(MadeUp(n - 1), Decimal(n), n - 1);
      ReadBack(n);
    }
    assert ToInt(n + 1) == n + 1;
  }

  function MadeUp(n: nat): (ids: seq<string>)
    ensures |ids| == n
  {
    if n == 0 then [] else MadeUp(n - 1) + [Decimal(n)]
  }

  lemma {:induction false} MaxPrefix(ids: seq<string>, id: string, k: nat)
    requires k <= |ids|
    ensures MaxNumber(ids + [id], k) == MaxNumber(ids, k)
  {
    if k > 0 { MaxPrefix(ids, id, k - 1); }
  }
}
