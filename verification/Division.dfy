/**
 * Division and remainder by a variable number, by repeated subtraction, so that
 * proofs about positions in clusters, pages and rings stay linear.
 */
module Division {
  /** `a >> log2(b)` for a power of two `b`. */
  function Quot(a: nat, b: nat): nat
    requires b > 0
  {
    if a < b then 0 else 1 + Quot(a - b, b)
  }

  /** `a & (b - 1)` for a power of two `b`. */
  function Rem(a: nat, b: nat): (r: nat)
    requires b > 0
    ensures r < b
  {
    if a < b then a else Rem(a - b, b)
  }

  lemma {:induction false} QuotRem(a: nat, b: nat)
    requires b > 0
    ensures a == Quot(a, b) * b + Rem(a, b)
  {
    if a >= b {
      QuotRem(a - b, b);
      assert Quot(a, b) * b == Quot(a - b, b) * b + b;
    }
  }

  /** The two are division and remainder. */
  lemma QuotIsDivision(a: nat, b: nat)
    requires b > 0
    ensures Quot(a, b) == a / b && Rem(a, b) == a % b
  {
    QuotRem(a, b);
    QuotientUnique(Quot(a, b), a / b, Rem(a, b), a % b, b);
  }

  lemma {:induction false} MulStep(a: nat, b: nat, l: nat)
    ensures a < b ==> a * l + l <= b * l
    decreases b
  {
    if a < b {
      MulStep(a, b - 1, l);
      assert b * l == (b - 1) * l + l;
    }
  }

  lemma QuotientUnique(p: nat, q: nat, u: nat, v: nat, b: nat)
    requires u < b && v < b && p * b + u == q * b + v
    ensures p == q && u == v
  {
    MulStep(p, q, b);
    MulStep(q, p, b);
  }

  lemma {:induction false} QuotRemUnique(q: nat, w: nat, l: nat)
    requires w < l
    ensures Quot(q * l + w, l) == q && Rem(q * l + w, l) == w
  {
    if q > 0 {
      QuotRemUnique(q - 1, w, l);
      assert q * l + w - l == (q - 1) * l + w;
    }
  }

  lemma {:induction false} QuotMonotone(a: nat, b: nat, l: nat)
    requires l > 0 && a <= b
    ensures Quot(a, l) <= Quot(b, l)
  {
    if a >= l { QuotMonotone(a - l, b - l, l); }
  }

  /** Adding `x` without leaving the cluster. */
  lemma {:induction false} QuotRemPlus(a: nat, x: nat, l: nat)
    requires l > 0 && Rem(a, l) + x < l
    ensures Quot(a + x, l) == Quot(a, l) && Rem(a + x, l) == Rem(a, l) + x
  {
    if a >= l { QuotRemPlus(a - l, x, l); }
  }

  lemma {:induction false} QuotRemInjective(i: nat, k: nat, l: nat)
    requires l > 0 && Quot(i, l) == Quot(k, l) && Rem(i, l) == Rem(k, l)
    ensures i == k
  {
    if i >= l { QuotRemInjective(i - l, k - l, l); }
  }

  /** Pages before positions: how numbers compare. */
  lemma {:induction false} QuotRemOrder(a: nat, b: nat, l: nat)
    requires l > 0
    ensures a <= b <==> Quot(a, l) < Quot(b, l) || (Quot(a, l) == Quot(b, l) && Rem(a, l) <= Rem(b, l))
  {
    if a >= l && b >= l { QuotRemOrder(a - l, b - l, l); }
  }
}
