/** Bitwise operations on numbers, bit by bit, and what prefix masks do arithmetically. */
module Bits {
  import opened Division

  function Pow2(n: nat): (p: nat)
    ensures p > 0
  {
    if n == 0 then 1 else 2 * Pow2(n - 1)
  }

  function And(a: nat, b: nat): nat {
    if a == 0 || b == 0 then 0
    else 2 * And(a / 2, b / 2) + (if a % 2 == 1 && b % 2 == 1 then 1 else 0)
  }

  function Xor(a: nat, b: nat): nat
    decreases a + b
  {
    if a == 0 && b == 0 then 0
    else 2 * Xor(a / 2, b / 2) + (if a % 2 != b % 2 then 1 else 0)
  }

  lemma Associate(a: int, b: int, c: int)
    ensures a * (b * c) == (a * b) * c
  {
  }

  lemma {:induction false} Pow2Adds(m: nat, n: nat)
    ensures Pow2(m + n) == Pow2(m) * Pow2(n)
  {
    if m > 0 {
      Pow2Adds(m - 1, n);
      Associate(2, Pow2(m - 1), Pow2(n));
      assert Pow2(m + n) == 2 * Pow2(m - 1 + n);
    }
  }

  lemma {:induction false} Pow2Grows(m: nat, n: nat)
    requires m <= n
    ensures Pow2(m) <= Pow2(n)
  {
    if m < n {
      Pow2Grows(m, n - 1);
    }
  }

  lemma {:induction false} XorZero(a: nat)
    ensures Xor(a, 0) == a
  {
    if a > 0 {
      XorZero(a / 2);
    }
  }

  /** Flipping the low k of w ones. */
  lemma {:induction false} XorOnes(w: nat, k: nat)
    requires k <= w
    ensures Xor(Pow2(w) - 1, Pow2(k) - 1) == Pow2(w) - Pow2(k)
  {
    if k == 0 {
      XorZero(Pow2(w) - 1);
    } else {
      XorOnes(w - 1, k - 1);
      assert (Pow2(w) - 1) / 2 == Pow2(w - 1) - 1 && (Pow2(w) - 1) % 2 == 1;
      assert (Pow2(k) - 1) / 2 == Pow2(k - 1) - 1 && (Pow2(k) - 1) % 2 == 1;
    }
  }

  lemma {:induction false} AndOnes(a: nat, w: nat)
    requires a < Pow2(w)
    ensures And(a, Pow2(w) - 1) == a
  {
    if a > 0 {
      assert w > 0;
      AndOnes(a / 2, w - 1);
      assert (Pow2(w) - 1) / 2 == Pow2(w - 1) - 1 && (Pow2(w) - 1) % 2 == 1;
    }
  }

  lemma ModHalves(a: nat, p: nat)
    requires p > 0
    ensures a % (2 * p) == 2 * ((a / 2) % p) + a % 2
  {
    var h := a / 2;
    var q, r := h / p, h % p;
    assert h == q * p + r;
    assert q * (2 * p) == 2 * (q * p);
    DivMod(a, 2 * p, q, 2 * r + a % 2);
  }

  lemma HalfBelow(a: nat, w: nat)
    requires w > 0 && a < Pow2(w)
    ensures a / 2 < Pow2(w - 1)
  {
  }

  /** Masking with all but the low k ones of a word clears the low k bits. */
  lemma {:induction false} AndHighOnes(a: nat, w: nat, k: nat)
    requires k <= w && a < Pow2(w) && Pow2(k) <= Pow2(w)
    ensures And(a, Pow2(w) - Pow2(k)) == a - a % Pow2(k)
  {
    if k == 0 {
      AndOnes(a, w);
    } else {
      var p, half := Pow2(k - 1), Pow2(w - 1) - Pow2(k - 1);
      Pow2Grows(k - 1, w - 1);
      HalfBelow(a, w);
      AndHighOnes(a / 2, w - 1, k - 1);
      ModHalves(a, p);
      AndDouble(a, half);
      assert Pow2(w) - Pow2(k) == 2 * half;
    }
  }

  lemma AndDouble(a: nat, half: nat)
    ensures And(a, 2 * half) == 2 * And(a / 2, half)
  {
    if a != 0 && half != 0 {
      assert (2 * half) / 2 == half && (2 * half) % 2 == 0;
    } else if a == 0 {
      assert And(0, half) == 0;
    } else {
      assert And(a, 0) == 0 && And(a / 2, 0) == 0;
    }
  }

  /** A block of p numbers starting at a multiple of p is the numbers that round down to it. */
  lemma BlockIs(a: nat, b: nat, p: nat)
    requires p > 0
    ensures a - a % p == b - b % p <==> b - b % p <= a < b - b % p + p
  {
    var q, s := a / p, b / p;
    assert a == q * p + a % p && b == s * p + b % p;
    if b - b % p <= a < b - b % p + p {
      DivMod(a, p, s, a - s * p);
    }
  }
}
