/** Money in whole cents: rounding of exact amounts, and the arithmetic of priced lines. */
module Money {
  import opened Options
  import opened Sums

  predicate Even(n: int) { n % 2 == 0 }

  /** Round to the nearest integer, ties to the even neighbour. */
  function HalfEven(x: real): int {
    var low := x.Floor;
    var rest := x - low as real;
    if rest < 0.5 then low
    else if rest > 0.5 then low + 1
    else if Even(low) then low else low + 1
  }

  /** An amount of currency as cents. */
  function Cents(amount: real): int { HalfEven(100.0 * amount) }

  ghost predicate Nearest(x: real, n: int) {
    && -0.5 <= n as real - x <= 0.5
    && (n as real - x == 0.5 || n as real - x == -0.5 ==> n % 2 == 0)
  }

  /** Rounding is the one nearest integer, and the even one of two equally near. */
  lemma HalfEvenIsNearest(x: real, n: int)
    ensures Nearest(x, n) <==> n == HalfEven(x)
  {
    var low := x.Floor;
    if Nearest(x, n) {
      assert n == low || n == low + 1 || n == low - 1;
      assert Even(low) <==> !Even(low + 1);
    }
  }

  lemma HalfEvenMonotone(x: real, y: real)
    requires x <= y
    ensures HalfEven(x) <= HalfEven(y)
  {
    HalfEvenIsNearest(x, HalfEven(x));
    HalfEvenIsNearest(y, HalfEven(y));
  }

  /** Sums of whole cents survive a further rounding untouched. */
  lemma RoundingExact(n: int)
    ensures HalfEven(n as real) == n
  {
    HalfEvenIsNearest(n as real, n);
  }

  datatype DocLine = DocLine(qty: real, unitPrice: real, taxRate: real, product: Option<nat>)

  datatype PricedLine = PricedLine(line: DocLine, amount: int, tax: int)

  function LineAmount(line: DocLine): int { Cents(line.qty * line.unitPrice) }

  /** The tax on an amount that is already rounded to cents. */
  function TaxOn(amount: int, rate: real): int { HalfEven(amount as real * rate / 100.0) }

  function Price(line: DocLine): PricedLine {
    PricedLine(line, LineAmount(line), TaxOn(LineAmount(line), line.taxRate))
  }

  function PriceAll(lines: seq<DocLine>): seq<PricedLine> {
    seq(|lines|, i requires 0 <= i < |lines| => Price(lines[i]))
  }

  const AmountOf: PricedLine -> int := (p: PricedLine) => p.amount

  const TaxOf: PricedLine -> int := (p: PricedLine) => p.tax

  function Subtotal(lines: seq<DocLine>): int { Sum(PriceAll(lines), AmountOf) }

  function TaxTotal(lines: seq<DocLine>): int { Sum(PriceAll(lines), TaxOf) }

  /** The exact value of a line, then of a document, in cents and before any rounding. */
  function Taxed(x: real, rate: real): real { x * (1.0 + rate / 100.0) }

  function ExactLine(line: DocLine): real {
    Taxed(100.0 * (line.qty * line.unitPrice), line.taxRate)
  }

  function Exact(lines: seq<DocLine>): real {
    if lines == [] then 0.0 else ExactLine(lines[0]) + Exact(lines[1..])
  }

  /** What the payload model admits. */
  predicate Billable(line: DocLine) {
    line.qty > 0.0 && line.unitPrice >= 0.0 && 0.0 <= line.taxRate <= 100.0
  }

  lemma PriceSnoc(lines: seq<DocLine>, line: DocLine)
    ensures PriceAll(lines + [line]) == PriceAll(lines) + [Price(line)]
  {
  }

  method PricedLines(lines: seq<DocLine>)
    returns (out: seq<PricedLine>, subtotal: int, taxTotal: int, total: int)
    ensures out == PriceAll(lines)
    ensures subtotal == Subtotal(lines) && taxTotal == TaxTotal(lines)
    ensures total == subtotal + taxTotal
  {
    out, subtotal, taxTotal := [], 0, 0;
    for i := 0 to |lines|
      invariant out == PriceAll(lines[..i])
      invariant subtotal == Sum(out, AmountOf) && taxTotal == Sum(out, TaxOf)
    {
      var amount := LineAmount(lines[i]);
      var tax := TaxOn(amount, lines[i].taxRate);
      subtotal := HalfEven((subtotal + amount) as real);
      taxTotal := HalfEven((taxTotal + tax) as real);
      var priced := PricedLine(lines[i], amount, tax);
      SumSnoc(out, priced, AmountOf);
      SumSnoc(out, priced, TaxOf);
      RoundingExact(Sum(out + [priced], AmountOf));
      RoundingExact(Sum(out + [priced], TaxOf));
      assert lines[..i + 1] == lines[..i] + [lines[i]];
      PriceSnoc(lines[..i], lines[i]);
      out := out + [priced];
    }
    assert lines[..|lines|] == lines;
    total := HalfEven((subtotal + taxTotal) as real);
    RoundingExact(subtotal + taxTotal);
  }

  lemma ScaledError(d: real, k: real)
    requires -0.5 <= d <= 0.5 && 0.0 <= k <= 1.0
    ensures -0.5 <= d * k <= 0.5
  {
    if d >= 0.0 {
      assert d * k <= d * 1.0;
    } else {
      assert (-d) * k <= (-d) * 1.0;
    }
  }

  lemma Distribute(x: real, d: real, k: real)
    ensures (x + d) * k == x * k + d * k
  {
  }

  /** The same bound with every product named, so that only linear reasoning is left. */
  lemma LinearError(x: real, d: real, a: real, t: real, ak: real, xk: real, dk: real)
    requires -0.5 <= d <= 0.5 && -0.5 <= dk <= 0.5 && -0.5 <= t - ak <= 0.5
    requires a == x + d && ak == xk + dk
    ensures -1.5 <= a + t - (x + xk) <= 1.5
  {
  }

  lemma OnePlus(x: real, k: real)
    ensures x * (1.0 + k) == x + x * k
  {
  }

  lemma ErrorSplit(x: real, a: real, k: real, t: real)
    requires -0.5 <= a - x <= 0.5 && -0.5 <= t - a * k <= 0.5 && 0.0 <= k <= 1.0
    ensures -1.5 <= a + t - x * (1.0 + k) <= 1.5
  {
    var d := a - x;
    ScaledError(d, k);
    OnePlus(x, k);
    assert a == x + d;
    assert a * k == x * k + d * k by {
      Distribute(x, d, k);
    }
    LinearError(x, d, a, t, a * k, x * k, d * k);
  }

  lemma RateOf(a: real, rate: real)
    ensures a * rate / 100.0 == a * (rate / 100.0)
  {
  }

  lemma ProductNonNegative(a: real, b: real)
    requires a >= 0.0 && b >= 0.0
    ensures a * b >= 0.0
  {
  }

  lemma RoundedTwice(x: real, rate: real, a: int, t: int)
    requires 0.0 <= rate <= 100.0
    requires Nearest(x, a) && Nearest(a as real * (rate / 100.0), t)
    ensures -1.5 <= (a + t) as real - Taxed(x, rate) <= 1.5
  {
    ErrorSplit(x, a as real, rate / 100.0, t as real);
  }

  lemma TaxNear(amount: int, rate: real)
    ensures Nearest(amount as real * (rate / 100.0), TaxOn(amount, rate))
  {
    RateOf(amount as real, rate);
    HalfEvenIsNearest(amount as real * rate / 100.0, TaxOn(amount, rate));
  }

  lemma AmountNear(line: DocLine)
    ensures Nearest(100.0 * (line.qty * line.unitPrice), LineAmount(line))
  {
    HalfEvenIsNearest(100.0 * (line.qty * line.unitPrice), LineAmount(line));
  }

  lemma LineError(line: DocLine)
    requires Billable(line)
    ensures -1.5 <= (Price(line).amount + Price(line).tax) as real - ExactLine(line) <= 1.5
  {
    AmountNear(line);
    TaxNear(LineAmount(line), line.taxRate);
    RoundedTwice(100.0 * (line.qty * line.unitPrice), line.taxRate, LineAmount(line), TaxOn(LineAmount(line), line.taxRate));
  }

  /** A document's total strays at most a cent and a half per line from its exact value. */
  lemma {:induction false} TotalError(lines: seq<DocLine>)
    requires forall line :: line in lines ==> Billable(line)
    ensures -1.5 * |lines| as real
         <= (Subtotal(lines) + TaxTotal(lines)) as real - Exact(lines)
         <= 1.5 * |lines| as real
  {
    if lines != [] {
      LineError(lines[0]);
      TotalError(lines[1..]);
      assert PriceAll(lines)[1..] == PriceAll(lines[1..]);
      assert PriceAll(lines)[0] == Price(lines[0]);
    }
  }

  lemma AmountNonNegative(line: DocLine)
    requires Billable(line)
    ensures LineAmount(line) >= 0
  {
    ProductNonNegative(line.qty, line.unitPrice);
    HalfEvenMonotone(0.0, 100.0 * (line.qty * line.unitPrice));
    RoundingExact(0);
  }

  lemma TaxNonNegative(amount: nat, rate: real)
    requires rate >= 0.0
    ensures TaxOn(amount, rate) >= 0
  {
    ProductNonNegative(amount as real, rate);
    HalfEvenMonotone(0.0, amount as real * rate / 100.0);
    RoundingExact(0);
  }

  lemma PricedNonNegative(line: DocLine)
    requires Billable(line)
    ensures Price(line).amount >= 0 && Price(line).tax >= 0
  {
    AmountNonNegative(line);
    TaxNonNegative(LineAmount(line), line.taxRate);
  }

  lemma {:induction false} TotalsNonNegative(lines: seq<DocLine>)
    requires forall line :: line in lines ==> Billable(line)
    ensures Subtotal(lines) >= 0 && TaxTotal(lines) >= 0
  {
    if lines != [] {
      TotalsNonNegative(lines[1..]);
      assert PriceAll(lines)[1..] == PriceAll(lines[1..]);
      assert PriceAll(lines)[0] == Price(lines[0]);
      PricedNonNegative(lines[0]);
    }
  }
}
