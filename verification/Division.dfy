/** Quotients and remainders by a positive number, from linear facts only. */
module Division {

  lemma NonNegativeProduct(a: int, b: int)
    requires a >= 0 && b >= 0
    ensures a * b >= 0
  {
  }

  lemma Spread(x: int, y: int, d: nat)
    requires x > y
    ensures x * d >= y * d + d
  {
    NonNegativeProduct(x - y - 1, d);
    assert (x - y - 1) * d == x * d - y * d - d;
  }

  /** Numbers written as quotient and remainder compare quotient first. */
  lemma QuotientsInOrder(x: int, r: int, y: int, s: int, d: nat)
    requires 0 <= r < d && 0 <= s < d && x * d + r <= y * d + s
    ensures x <= y
  {
    if x > y {
      Spread(x, y, d);
    }
  }

  lemma DivMonotone(a: int, b: int, d: nat)
    requires d > 0 && a <= b
    ensures a / d <= b / d
  {
    QuotientsInOrder(a / d, a % d, b / d, b % d, d);
  }

  lemma DivUnique(a: int, d: nat, q: int)
    requires d > 0 && q * d <= a < q * d + d
    ensures a / d == q
  {
    QuotientsInOrder(a / d, a % d, q, a - q * d, d);
    QuotientsInOrder(q, a - q * d, a / d, a % d, d);
  }

  lemma DivNext(a: int, d: nat)
    requires d > 0
    ensures (a + d) / d == a / d + 1
  {
    var x := a / d;
    assert a == x * d + a % d;
    assert (x + 1) * d == x * d + d;
    DivUnique(a + d, d, x + 1);
  }

  lemma DivMod(a: int, d: nat, q: int, r: int)
    requires d > 0 && a == q * d + r && 0 <= r < d
    ensures a / d == q && a % d == r
  {
    DivUnique(a, d, q);
  }
}
