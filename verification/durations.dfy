/**
 * Go's time.Duration arithmetic on integer nanoseconds: the unit constants and
 * integer division that truncates toward zero (Dafny's `/` is Euclidean).
 */
module Durations {
  const Second: int := 1_000_000_000
  const Minute: int := 60 * Second
  const Hour: int := 60 * Minute

  /** Euclidean division of a non-negative dividend, bounded on both sides. */
  lemma DivBounds(a: int, b: int)
    requires a >= 0 && b > 0
    ensures 0 <= a / b && 0 <= (a / b) * b <= a < (a / b) * b + b
  {
    assert a == (a / b) * b + a % b;
  }

  lemma NegMul(x: int, b: int)
    ensures (-x) * b == -(x * b)
  {
  }

  /** Go's `a / b` for a positive divisor: the quotient truncated toward zero. */
  function TruncDiv(a: int, b: int): (q: int)
    requires b > 0
    ensures a >= 0 ==> 0 <= q * b <= a < q * b + b
    ensures a < 0 ==> a <= q * b < a + b && q * b <= 0
    ensures a >= 0 ==> q == a / b
  {
    if a >= 0 then
      DivBounds(a, b);
      a / b
    else
      DivBounds(-a, b);
      NegMul((-a) / b, b);
      -((-a) / b)
  }

  /** Minutes and leftover seconds of a duration of at least a minute and under an hour. */
  lemma SplitMinutes(d: int)
    requires 60_000_000_000 <= d < 3_600_000_000_000
    ensures var m, s := d / 60_000_000_000, (d / 1_000_000_000) % 60;
      && 1 <= m < 60 && 0 <= s < 60
      && m * 60_000_000_000 + s * 1_000_000_000 <= d < m * 60_000_000_000 + (s + 1) * 1_000_000_000
  {
  }

  /** Hours and leftover minutes of a duration of at least an hour. */
  lemma SplitHours(d: int)
    requires d >= 3_600_000_000_000
    ensures var h, m := d / 3_600_000_000_000, (d / 60_000_000_000) % 60;
      && 1 <= h && 0 <= m < 60
      && h * 3_600_000_000_000 + m * 60_000_000_000 <= d < h * 3_600_000_000_000 + (m + 1) * 60_000_000_000
  {
  }
}
