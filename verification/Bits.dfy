/** Unsigned 32-bit words as natural numbers, with C++'s bitwise operators defined bit by bit. */
module Bits {

  const WORD: nat := 0x1_0000_0000

  type uint32 = x: nat | x < WORD

  function Pow2(k: nat): (p: nat)
    ensures p >= 1
  {
    if k == 0 then 1 else 2 * Pow2(k - 1)
  }

  function Or(x: nat, y: nat): nat {
    if x == 0 && y == 0 then 0
    else 2 * Or(x / 2, y / 2) + (if x % 2 == 1 || y % 2 == 1 then 1 else 0)
  }

  function And(x: nat, y: nat): nat {
    if x == 0 && y == 0 then 0
    else 2 * And(x / 2, y / 2) + (if x % 2 == 1 && y % 2 == 1 then 1 else 0)
  }

  /** A shift by the word width or more is undefined in C++, hence the precondition. */
  function Shl(x: uint32, k: nat): uint32
    requires k < 32
  {
    x * Pow2(k) % WORD
  }

  function Shr(x: uint32, k: nat): uint32
    requires k < 32
  {
    Quotient(x, Pow2(k))
  }

  function Quotient(x: uint32, d: nat): uint32
    requires d >= 1
  {
    DivLe(x, d);
    x / d
  }

  lemma MulLe(a: nat, b: nat, d: nat)
    requires a <= b
    ensures a * d <= b * d
  {
    assert b * d == a * d + (b - a) * d;
  }

  lemma DivLe(x: nat, d: nat)
    requires d >= 1
    ensures x / d <= x
  {
    MulLe(1, d, x / d);
  }

  /** Halving a quotient is the same as doubling the divisor. */
  lemma HalfQuotient(x: nat, d: nat)
    requires d >= 1
    ensures x / 2 / d == x / (2 * d)
    ensures x % (2 * d) == 2 * (x / 2 % d) + x % 2
  {
    var q, r := x / 2 / d, x / 2 % d;
    assert x == q * (2 * d) + (2 * r + x % 2) by {
      assert x / 2 == q * d + r;
      assert q * (2 * d) == 2 * (q * d);
    }
    Unique(x, 2 * d, q, 2 * r + x % 2);
  }

  lemma Distinct(d: nat, q: nat, r: nat, q': nat, r': nat)
    requires r < d && r' < d && q != q'
    ensures q * d + r != q' * d + r'
  {
    if q < q' {
      MulLe(q + 1, q', d);
    } else {
      MulLe(q' + 1, q, d);
    }
  }

  lemma Unique(x: nat, d: nat, q: nat, r: nat)
    requires r < d && x == q * d + r
    ensures x / d == q && x % d == r
  {
    assert x == x / d * d + x % d;
    if x / d != q {
      Distinct(d, x / d, x % d, q, r);
    }
  }

  /* Masks of k low bits, reasoned about one bit at a time. */

  function High(x: nat, k: nat): nat {
    if k == 0 then x else High(x / 2, k - 1)
  }

  function Low(x: nat, k: nat): nat {
    if k == 0 then 0 else 2 * Low(x / 2, k - 1) + x % 2
  }

  lemma {:induction false} HighLow(x: nat, k: nat)
    ensures High(x, k) == x / Pow2(k) && Low(x, k) == x % Pow2(k)
    decreases k
  {
    if k > 0 {
      HighLow(x / 2, k - 1);
      HalfQuotient(x, Pow2(k - 1));
    }
  }

  /** Masking with the k low bits set is the remainder mod 2^k. */
  lemma AndLowMask(x: nat, k: nat)
    ensures And(x, Pow2(k) - 1) == x % Pow2(k)
  {
    HighLow(x, k);
    AndIsLow(x, k);
  }

  lemma {:induction false} AndIsLow(x: nat, k: nat)
    ensures And(x, Pow2(k) - 1) == Low(x, k)
    decreases k
  {
    if k == 0 {
      AndZero(x);
    } else {
      AndIsLow(x / 2, k - 1);
      AndOdd(x, Pow2(k - 1) - 1);
    }
  }

  lemma AndOdd(x: nat, m: nat)
    ensures And(x, 2 * m + 1) == 2 * And(x / 2, m) + x % 2
  {
    assert (2 * m + 1) / 2 == m;
  }

  lemma {:induction false} AndZero(x: nat)
    ensures And(x, 0) == 0
  {
    if x > 0 {
      AndZero(x / 2);
    }
  }

  /** The source's test `(x | (2^k - 1)) == (y | (2^k - 1))` compares the bits above the k lowest. */
  lemma MaskedEqual(x: nat, y: nat, k: nat)
    ensures Or(x, Pow2(k) - 1) == Or(y, Pow2(k) - 1) <==> x / Pow2(k) == y / Pow2(k)
  {
    HighLow(x, k);
    HighLow(y, k);
    OrComparesHigh(x, y, k);
  }

  lemma {:induction false} OrComparesHigh(x: nat, y: nat, k: nat)
    ensures Or(x, Pow2(k) - 1) == Or(y, Pow2(k) - 1) <==> High(x, k) == High(y, k)
    decreases k
  {
    if k == 0 {
      OrZero(x);
      OrZero(y);
    } else {
      OrComparesHigh(x / 2, y / 2, k - 1);
      OrOdd(x, Pow2(k - 1) - 1);
      OrOdd(y, Pow2(k - 1) - 1);
    }
  }

  lemma OrOdd(x: nat, m: nat)
    ensures Or(x, 2 * m + 1) == 2 * Or(x / 2, m) + 1
  {
    assert (2 * m + 1) / 2 == m;
  }

  lemma {:induction false} OrZero(x: nat)
    ensures Or(x, 0) == x
  {
    if x > 0 {
      OrZero(x / 2);
    }
  }
}
