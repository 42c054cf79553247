/**
 Fixed-point arithmetic at eight decimal places. Quantities, unit costs and values are integers
 in units of 10^-8; products and quotients are exact before they are rounded half up, away from
 zero for negative numbers.
 */
module Rounding {

  const SCALE := 100_000_000

  function Abs(x: int): (r: int)
    ensures r == x || r == -x
    ensures r >= 0
  {
    if x < 0 then -x else x
  }

  function Max(x: int, y: int): (r: int)
    ensures r >= x && r >= y && (r == x || r == y)
  {
    if x < y then y else x
  }

  /** n / d rounded half up: the nearest integer, ties going away from zero. */
  function Round(n: int, d: int): int
    requires d > 0
  {
    if n >= 0 then (2 * n + d) / (2 * d) else -((-2 * n + d) / (2 * d))
  }

  /** The product of two eight-place numbers, rounded to eight places. */
  function Times(x: int, y: int): int {
    Round(x * y, SCALE)
  }

  /** The quotient of two eight-place numbers, rounded to eight places. */
  function Over(x: int, y: int): int
    requires y > 0
  {
    Round(x * SCALE, y)
  }

  lemma Quotient(n: nat, d: int)
    requires d > 0
    ensures var k := (2 * n + d) / (2 * d);
            && 0 <= k && d * k - n <= n - d * k + d && n - d * k < d * k - n + d
  {
    var k := (2 * n + d) / (2 * d);
    var m := (2 * n + d) % (2 * d);
    assert 2 * n + d == 2 * d * k + m;
    assert 2 * d * k == 2 * (d * k);
  }

  /** A rounded quotient is within half a unit of the exact one. */
  lemma RoundIsNear(n: int, d: int)
    requires d > 0
    ensures 2 * Abs(d * Round(n, d) - n) <= d
  {
    if n >= 0 {
      Quotient(n, d);
    } else {
      Quotient(-n, d);
      var k := (-2 * n + d) / (2 * d);
      assert d * -k == -(d * k);
    }
  }

  /** What ROUND_HALF_UP means, said without computing it. */
  predicate IsHalfUp(n: int, d: int, r: int)
    requires d > 0
  {
    && 2 * Abs(d * r - n) <= d
    && (2 * Abs(d * r - n) == d ==> Abs(d * r) > Abs(n))
  }

  lemma Distribute(d: int, x: int, y: int)
    ensures d * (x + y) == d * x + d * y
  {
  }

  lemma MultipleAtLeast(d: int, x: int)
    requires d > 0 && x >= 1
    ensures d * x >= d
  {
  }

  /** Distinct multiples of d lie at least d apart. */
  lemma MultiplesApart(d: int, k: int, m: int)
    requires d > 0 && k != m
    ensures d * k - d * m >= d || d * m - d * k >= d
  {
    if k > m {
      Distribute(d, m, k - m);
      MultipleAtLeast(d, k - m);
    } else {
      Distribute(d, k, m - k);
      MultipleAtLeast(d, m - k);
    }
  }

  /** At most one number is nearest with ties away from zero. */
  lemma HalfUpIsUnique(n: int, d: int, r: int, k: int)
    requires d > 0 && IsHalfUp(n, d, r) && IsHalfUp(n, d, k)
    ensures r == k
  {
    if r != k {
      MultiplesApart(d, r, k);
      if r != 0 { MultiplesApart(d, r, 0); }
      if k != 0 { MultiplesApart(d, k, 0); }
    }
  }

  /** Round computes the one number that is nearest with ties away from zero. */
  lemma RoundIsHalfUp(n: int, d: int, r: int)
    requires d > 0
    ensures r == Round(n, d) <==> IsHalfUp(n, d, r)
  {
    RoundMeetsHalfUp(n, d);
    if IsHalfUp(n, d, r) {
      HalfUpIsUnique(n, d, r, Round(n, d));
    }
  }

  lemma RoundMeetsHalfUp(n: int, d: int)
    requires d > 0
    ensures IsHalfUp(n, d, Round(n, d))
  {
    RoundIsNear(n, d);
    var k := (2 * Abs(n) + d) / (2 * d);
    Quotient(Abs(n), d);
    assert d * -k == -(d * k);
  }

  lemma RoundExact(k: int, d: int)
    requires d > 0
    ensures Round(k * d, d) == k
  {
    RoundIsNear(k * d, d);
    RoundIsHalfUp(k * d, d, k);
    assert d * k - k * d == 0;
  }

  lemma TimesIsNonNegative(x: int, y: int)
    requires x >= 0 && y >= 0
    ensures Times(x, y) >= 0
  {
    assert x * y >= 0;
    RoundSign(x * y, SCALE);
  }

  lemma RoundSign(n: int, d: int)
    requires d > 0
    ensures n >= 0 ==> Round(n, d) >= 0
    ensures n <= 0 ==> Round(n, d) <= 0
  {
    if n >= 0 {
      Quotient(n, d);
    }
    if n <= 0 {
      Quotient(-n, d);
    }
  }

  lemma TimesIsNear(x: int, y: int)
    ensures 2 * Abs(Times(x, y) * SCALE - x * y) <= SCALE
  {
    RoundIsNear(x * y, SCALE);
  }

  lemma OverIsNear(x: int, y: int)
    requires y > 0
    ensures 2 * Abs(Over(x, y) * y - x * SCALE) <= y
  {
    RoundIsNear(x * SCALE, y);
    assert y * Over(x, y) == Over(x, y) * y;
  }

  /** A unit cost rounds to zero exactly when the amount is less than half a unit for each unit of quantity. */
  lemma OverIsZero(x: int, y: int)
    requires x >= 0 && y > 0
    ensures Over(x, y) == 0 <==> 2 * x * SCALE < y
  {
    RoundIsHalfUp(x * SCALE, y, 0);
  }

  /** Dividing a value by a quantity and multiplying back misses it by at most (quantity + S) / 2S units. */
  lemma RevaluedIsNear(value: int, quantity: int)
    requires quantity > 0
    ensures 2 * SCALE * Abs(Times(Over(value, quantity), quantity) - value) <= quantity + SCALE
  {
    var average := Over(value, quantity);
    var product := average * quantity;
    OverIsNear(value, quantity);
    TimesIsNear(average, quantity);
  }
}
