/** Powers of two and bitwise operators on unbounded naturals. */
module Bits {
  function Pow2(n: nat): (p: nat)
    ensures p > 0
  {
    if n == 0 then 1 else 2 * Pow2(n - 1)
  }

  function Quotient(x: nat, d: nat): nat
    requires d > 0
  {
    x / d
  }

  function BitAnd(a: nat, b: nat): nat {
    if a == 0 || b == 0 then 0
    else 2 * BitAnd(a / 2, b / 2) + (if a % 2 == 1 && b % 2 == 1 then 1 else 0)
  }

  function BitXor(a: nat, b: nat): nat
    decreases a + b
  {
    if a == 0 && b == 0 then 0
    else 2 * BitXor(a / 2, b / 2) + (if a % 2 != b % 2 then 1 else 0)
  }

  lemma {:induction false} Pow2Add(a: nat, b: nat)
    ensures Pow2(a + b) == Pow2(a) * Pow2(b)
  {
    if a > 0 {
      Pow2Add(a - 1, b);
      assert a + b - 1 == a - 1 + b;
      DoubleProduct(Pow2(a - 1), Pow2(b));
    }
  }

  lemma SixteenBits()
    ensures Pow2(16) == 65536
  {
    assert Pow2(8) == 256;
    Pow2Add(8, 8);
  }

  lemma QuotientBound(x: nat, d: nat, b: nat)
    requires d > 0 && x < d * b
    ensures x / d < b
  {
    Division(x, d);
    if x / d >= b {
      MulMonotone(b, x / d, d);
    }
  }

  lemma DoubleProduct(a: nat, b: nat)
    ensures 2 * (a * b) == (2 * a) * b
  {
  }

  lemma {:induction false} Pow2Monotone(a: nat, b: nat)
    requires a <= b
    ensures Pow2(a) <= Pow2(b)
  {
    if a < b {
      Pow2Monotone(a, b - 1);
    }
  }

  lemma MulMonotone(a: nat, b: nat, d: nat)
    requires a <= b
    ensures a * d <= b * d
  {
  }

  /** The quotient and remainder that a decomposition determines. */
  lemma DivModUnique(x: nat, d: nat, q: nat, r: nat)
    requires x == q * d + r && r < d
    ensures x / d == q && x % d == r
  {
    Division(x, d);
    UniqueDigits(d, x / d, x % d, q, r);
  }

  lemma UniqueDigits(d: nat, q1: int, r1: nat, q2: int, r2: nat)
    requires q1 * d + r1 == q2 * d + r2 && r1 < d && r2 < d
    ensures q1 == q2 && r1 == r2
  {
    assert (q1 - q2) * d == r2 - r1;
    NonZeroMultiple(q1 - q2, d);
  }

  lemma NonZeroMultiple(k: int, d: int)
    requires d > 0
    ensures k >= 1 ==> k * d >= d
    ensures k <= -1 ==> k * d <= -d
  {
  }

  lemma SameDigits(x: nat, y: nat, d: nat, high1: nat, low1: nat, high2: nat, low2: nat)
    requires x == high1 * d + low1 && y == high2 * d + low2 && low1 < d && low2 < d
    ensures x == y <==> high1 == high2 && low1 == low2
  {
    DivModUnique(x, d, high1, low1);
    DivModUnique(y, d, high2, low2);
  }

  lemma SameMultiple(d: nat, a: nat, b: nat)
    requires d > 0
    ensures a * d == b * d <==> a == b
  {
    if a * d == b * d {
      UniqueDigits(d, a, 0, b, 0);
    }
  }

  lemma ProductPositive(a: nat, b: nat)
    requires a > 0 && b > 0
    ensures a * b > 0
  {
  }

  lemma Recompose(x: nat, a: nat, b: nat, q: nat, r: nat, q2: nat, r2: nat)
    requires x == q * a + r && r < a && q == q2 * b + r2 && r2 < b
    ensures x == q2 * (a * b) + (r2 * a + r)
    ensures r2 * a + r < a * b
  {
    assert (q2 * b + r2) * a == q2 * (a * b) + r2 * a;
    MulMonotone(r2 + 1, b, a);
    assert (r2 + 1) * a == r2 * a + a;
  }

  lemma Division(x: nat, d: nat)
    requires d > 0
    ensures x == x / d * d + x % d && x % d < d
  {
  }

  lemma QuotientDivision(x: nat, d: nat)
    requires d > 0
    ensures x == Quotient(x, d) * d + x % d && x % d < d
  {
    Division(x, d);
  }

  /** Dividing by a product, one factor at a time. */
  lemma DivModProduct(x: nat, a: nat, b: nat)
    requires a > 0 && b > 0
    ensures a * b > 0
    ensures x / (a * b) == x / a / b
    ensures x % (a * b) == x / a % b * a + x % a
  {
    ProductPositive(a, b);
    Division(x, a);
    Division(Quotient(x, a), b);
    QuotientOfProduct(x, a, b, Quotient(x, a), x % a, Quotient(Quotient(x, a), b), Quotient(x, a) % b);
  }

  lemma QuotientOfProduct(x: nat, a: nat, b: nat, q: nat, r: nat, q2: nat, r2: nat)
    requires a * b > 0
    requires x == q * a + r && r < a && q == q2 * b + r2 && r2 < b
    ensures x / (a * b) == q2 && x % (a * b) == r2 * a + r
  {
    Recompose(x, a, b, q, r, q2, r2);
    DivModUnique(x, a * b, q2, r2 * a + r);
  }

  /** A value with `a` low bits appended. */
  lemma DivModShifted(high: nat, low: nat, a: nat, b: nat)
    requires a > 0 && b > 0 && low < a * b
    ensures (high * (a * b) + low) / a == high * b + low / a
    ensures (high * (a * b) + low) % a == low % a
    ensures low / a < b
  {
    Division(low, a);
    ShiftedDigits(high, a, b, low, Quotient(low, a), low % a);
  }

  lemma ShiftedDigits(high: nat, a: nat, b: nat, low: nat, q: nat, r: nat)
    requires low < a * b && low == q * a + r && r < a
    ensures (high * (a * b) + low) / a == high * b + q
    ensures (high * (a * b) + low) % a == r
    ensures q < b
  {
    assert high * (a * b) == (high * b) * a;
    assert (high * b + q) * a == (high * b) * a + q * a;
    DivModUnique(high * (a * b) + low, a, high * b + q, r);
    if q >= b {
      MulMonotone(b, q, a);
    }
  }

  lemma AndUnfold(a: nat, b: nat)
    ensures BitAnd(a, b) == 2 * BitAnd(a / 2, b / 2) + (if a % 2 == 1 && b % 2 == 1 then 1 else 0)
  {
  }

  lemma Halves(a: nat, bit: nat)
    requires bit < 2
    ensures (2 * a + bit) / 2 == a && (2 * a + bit) % 2 == bit
  {
  }

  lemma {:induction false} AndAllOnes(x: nat, w: nat)
    requires x < Pow2(w)
    ensures BitAnd(x, Pow2(w) - 1) == x
  {
    if w > 0 {
      AndAllOnes(x / 2, w - 1);
      AndUnfold(x, Pow2(w) - 1);
      Halves(Pow2(w - 1) - 1, 1);
    }
  }

  /** Masking with ones above bit `h` clears exactly the low `h` bits. */
  lemma {:induction false} AndHighMask(x: nat, w: nat, h: nat)
    requires h <= w && x < Pow2(w)
    ensures Pow2(h) <= Pow2(w)
    ensures BitAnd(x, Pow2(w) - Pow2(h)) == x / Pow2(h) * Pow2(h)
  {
    Pow2Monotone(h, w);
    if h == 0 {
      AndAllOnes(x, w);
    } else {
      AndHighMask(x / 2, w - 1, h - 1);
      AndUnfold(x, Pow2(w) - Pow2(h));
      Halves(Pow2(w - 1) - Pow2(h - 1), 0);
      ShiftedQuotient(x, h);
    }
  }

  lemma ShiftedQuotient(x: nat, h: nat)
    requires h > 0
    ensures 2 * (x / 2 / Pow2(h - 1) * Pow2(h - 1)) == x / Pow2(h) * Pow2(h)
  {
    DivModProduct(x, 2, Pow2(h - 1));
    var q := x / Pow2(h);
    assert 2 * (q * Pow2(h - 1)) == q * (2 * Pow2(h - 1));
  }

  lemma {:induction false} AndLowMask(x: nat, h: nat)
    ensures BitAnd(x, Pow2(h) - 1) == x % Pow2(h)
  {
    if h > 0 {
      var p := Pow2(h - 1);
      AndLowMask(x / 2, h - 1);
      AndUnfold(x, 2 * (p - 1) + 1);
      Halves(p - 1, 1);
      RemainderStep(x, p);
    }
  }

  lemma RemainderStep(x: nat, p: nat)
    requires p > 0
    ensures x % (2 * p) == 2 * (x / 2 % p) + x % 2
  {
    DivModProduct(x, 2, p);
  }

  lemma XorUnfold(a: nat, b: nat)
    ensures BitXor(a, b) == 2 * BitXor(a / 2, b / 2) + (if a % 2 != b % 2 then 1 else 0)
  {
  }

  lemma {:induction false} XorOfOnes(w: nat, h: nat)
    requires h <= w
    ensures Pow2(h) <= Pow2(w)
    ensures BitXor(Pow2(w) - 1, Pow2(h) - 1) == Pow2(w) - Pow2(h)
  {
    hide BitXor;
    Pow2Monotone(h, w);
    if w == 0 {
      XorOfZero();
    } else {
      XorOfOnes(w - 1, if h > 0 then h - 1 else 0);
      if h > 0 {
        XorStep(Pow2(w - 1) - 1, 1, Pow2(h - 1) - 1, 1);
      } else {
        XorStep(Pow2(w - 1) - 1, 1, 0, 0);
      }
    }
  }

  lemma XorOfZero()
    ensures BitXor(0, 0) == 0
  {
  }

  lemma XorStep(a: nat, i: nat, b: nat, j: nat)
    requires i < 2 && j < 2
    ensures BitXor(2 * a + i, 2 * b + j) == 2 * BitXor(a, b) + (if i != j then 1 else 0)
  {
    hide BitXor;
    XorUnfold(2 * a + i, 2 * b + j);
    Halves(a, i);
    Halves(b, j);
  }
}
