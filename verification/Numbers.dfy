/** Rounding to whole lots, and the few facts about products that the proofs step through. */
module Numbers {

  function MaxR(a: real, b: real): real { if a >= b then a else b }

  function MinR(a: real, b: real): real { if a <= b then a else b }

  function MaxI(a: int, b: int): int { if a >= b then a else b }

  function MinI(a: int, b: int): int { if a <= b then a else b }

  /** Python's int(x): truncation toward zero. */
  function Trunc(x: real): (n: int)
    ensures x >= 0.0 ==> 0 <= n && n as real <= x < n as real + 1.0
    ensures x < 0.0 ==> n <= 0
  {
    if x >= 0.0 then x.Floor else -((-x).Floor)
  }

  /** Python's n // lot * lot. */
  function WholeLots(n: int, lot: int): int
    requires lot > 0
  {
    n / lot * lot
  }

  /** The value of n shares. */
  function Amount(price: real, n: int): real { price * n as real }

  /** The part of the equity that a weight assigns. */
  function Portion(equity: real, weight: real): real { equity * weight }

  lemma AmountSpread(price: real, a: int, b: int)
    ensures Amount(price, b) == Amount(price, a) + Amount(price, b - a)
    ensures Amount(price, 0) == 0.0
    ensures Amount(price, a - b) == -Amount(price, b - a)
  {
    assert (b - a) as real == b as real - a as real;
    assert (a - b) as real == a as real - b as real;
  }

  /** A whole number of lots. */
  predicate InLots(n: int, lot: int)
    requires lot > 0
  {
    n % lot == 0
  }

  lemma MulLe(a: real, b: real, c: real)
    requires a <= b && c >= 0.0
    ensures a * c <= b * c
  {
  }

  lemma MulNonneg(a: real, b: real)
    requires a >= 0.0 && b >= 0.0
    ensures a * b >= 0.0
  {
  }

  lemma MulPos(a: real, b: real)
    requires a > 0.0 && b > 0.0
    ensures a * b > 0.0
  {
  }

  lemma DivMul(a: real, b: real)
    requires b != 0.0
    ensures a / b * b == a
  {
  }

  /** Dividing by a positive number is monotone in both directions. */
  lemma DivLe(a: real, b: real, x: real)
    requires b > 0.0
    ensures x <= a / b <==> x * b <= a
  {
    var q := a / b;
    DivMul(a, b);
    if x <= q {
      MulLe(x, q, b);
    } else {
      assert (x - q) * b > 0.0;
    }
  }

  lemma IntMulApart(k: int, d: int)
    requires d > 0
    ensures k >= 1 ==> k * d >= d
    ensures k <= -1 ==> k * d <= -d
  {
  }

  lemma MulMod(k: int, d: int)
    requires d > 0
    ensures k * d % d == 0 && k * d / d == k
  {
    var q, m := k * d / d, k * d % d;
    assert k * d == q * d + m;
    assert (k - q) * d == m;
    IntMulApart(k - q, d);
  }

  /** Whole lots are a multiple of the lot, at most one lot below the number, and exact on multiples. */
  lemma WholeLotsProps(n: int, lot: int)
    requires lot > 0
    ensures InLots(WholeLots(n, lot), lot)
    ensures WholeLots(n, lot) <= n < WholeLots(n, lot) + lot
    ensures InLots(n, lot) ==> WholeLots(n, lot) == n
  {
    MulMod(n / lot, lot);
    assert n == n / lot * lot + n % lot;
  }

  lemma OneLot(lot: int)
    requires lot > 0
    ensures InLots(0, lot) && InLots(lot, lot)
  {
    MulMod(0, lot);
    MulMod(1, lot);
  }

  lemma MultiplesClosed(a: int, b: int, lot: int)
    requires lot > 0 && InLots(a, lot) && InLots(b, lot)
    ensures InLots(a + b, lot) && InLots(a - b, lot)
  {
    var i, j := a / lot, b / lot;
    assert a == i * lot && b == j * lot;
    assert a + b == (i + j) * lot && a - b == (i - j) * lot;
    MulMod(i + j, lot);
    MulMod(i - j, lot);
  }

  /** Two multiples of the lot in the same lot-wide interval are equal. */
  lemma MultiplesApart(a: int, b: int, lot: int)
    requires lot > 0 && InLots(a, lot) && InLots(b, lot) && a < b
    ensures a + lot <= b
  {
    MultiplesClosed(b, a, lot);
    assert b - a == (b - a) / lot * lot;
    IntMulApart((b - a) / lot, lot);
  }

  lemma WholeLotsIsMaximal(n: int, lot: int, m: int)
    requires lot > 0 && m <= n && InLots(m, lot)
    ensures m <= WholeLots(n, lot)
  {
    hide WholeLots, InLots;
    WholeLotsProps(n, lot);
    if m > WholeLots(n, lot) {
      MultiplesApart(WholeLots(n, lot), m, lot);
    }
  }
}
