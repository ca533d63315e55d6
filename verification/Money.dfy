/** Money is counted in whole cents and multipliers in whole hundredths.

    Every `round...Money` helper of the repository is `Math.round(x * 100) / 100`
    on an exact value x = num / den, i.e. round half up to the nearest hundredth. */
module Money {

  /** The integer nearest to num / den; a tie goes up. */
  function RoundHalfUp(num: int, den: int): (r: int)
    requires den > 0
    ensures 2 * den * r <= 2 * num + den < 2 * den * (r + 1)
  {
    DivisionBounds(2 * num + den, 2 * den);
    (2 * num + den) / (2 * den)
  }

  lemma DivisionBounds(a: int, b: int)
    requires b > 0
    ensures b * (a / b) <= a < b * (a / b + 1)
  {
  }

  /** Multiplying by a positive factor keeps the order, both ways. */
  lemma MulOrder(b: int, x: int, y: int)
    requires b > 0
    ensures b * x < b * y <==> x < y
    ensures b * x <= b * y <==> x <= y
    ensures b * x == b * y <==> x == y
  {
  }

  /** The two bounds of `RoundHalfUp` leave room for one integer only. */
  lemma RoundUnique(num: int, den: int, r: int)
    requires den > 0
    requires 2 * den * r <= 2 * num + den < 2 * den * (r + 1)
    ensures RoundHalfUp(num, den) == r
  {
    var q := RoundHalfUp(num, den);
    MulOrder(2 * den, q, r + 1);
    MulOrder(2 * den, r, q + 1);
  }

  /** A larger fraction never rounds to a smaller integer. */
  lemma RoundMonotone(a: int, b: int, c: int, d: int)
    requires b > 0 && d > 0
    requires a * d <= c * b
    ensures RoundHalfUp(a, b) <= RoundHalfUp(c, d)
  {
    var r, s := RoundHalfUp(a, b), RoundHalfUp(c, d);
    MulOrder(d, 2 * b * r, 2 * a + b);
    MulOrder(b, 2 * c + d, 2 * d * (s + 1));
    assert d * (2 * a + b) == 2 * (a * d) + b * d;
    assert b * (2 * c + d) == 2 * (c * b) + b * d;
    assert d * (2 * b * r) == (2 * (b * d)) * r;
    assert b * (2 * d * (s + 1)) == (2 * (b * d)) * (s + 1);
    assert b * d > 0;
    MulOrder(2 * (b * d), r, s + 1);
  }

  /** Rounding depends on the ratio only, not on how the fraction is written. */
  lemma RoundSameRatio(a: int, b: int, c: int, d: int)
    requires b > 0 && d > 0
    requires a * d == c * b
    ensures RoundHalfUp(a, b) == RoundHalfUp(c, d)
  {
    RoundMonotone(a, b, c, d);
    RoundMonotone(c, d, a, b);
  }

  /** A whole number of cents is left alone. */
  lemma RoundWhole(cents: int, den: int)
    requires den > 0
    ensures RoundHalfUp(cents * den, den) == cents
  {
    assert 2 * den * cents == 2 * (cents * den);
    RoundUnique(cents * den, den, cents);
  }
}
