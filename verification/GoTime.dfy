/** Go's instants and durations. An instant is an unbounded count of nanoseconds; a
    duration is an int64, so subtracting instants saturates and multiplying durations wraps. */
module GoTime {
  type Time = int

  const MIN_DURATION: int := -0x8000_0000_0000_0000
  const MAX_DURATION: int := 0x7FFF_FFFF_FFFF_FFFF
  const TWO_TO_THE_64: int := 0x1_0000_0000_0000_0000

  type Duration = d: int | MIN_DURATION <= d <= MAX_DURATION

  /** The int64 that an unbounded result is stored as: two's complement wrap-around. */
  function Wrap(x: int): (d: Duration) {
    (x - MIN_DURATION) % TWO_TO_THE_64 + MIN_DURATION
  }

  /** Go's `/` on integers, which truncates toward zero. */
  function TruncDiv(x: int, y: int): (q: int)
    requires y > 0
  {
    if x >= 0 then x / y else -((-x) / y)
  }

  /** `t.Sub(u)`: the difference of two instants, saturated to the int64 range. */
  function Sub(t: Time, u: Time): (d: Duration) {
    if t - u > MAX_DURATION then MAX_DURATION
    else if t - u < MIN_DURATION then MIN_DURATION
    else t - u
  }

  /** The largest multiple of `interval` that is a duration. */
  function LastMultiple(interval: Duration): (d: int)
    requires interval > 0
  {
    MAX_DURATION / interval * interval
  }

  lemma WrapIdentity(x: int)
    requires MIN_DURATION <= x <= MAX_DURATION
    ensures Wrap(x) == x
  {}

  lemma WrapOverflow(x: int)
    requires MAX_DURATION < x <= 2 * MAX_DURATION + 1
    ensures Wrap(x) == x - TWO_TO_THE_64
  {
    var y := x - MIN_DURATION - TWO_TO_THE_64;
    assert 0 <= y < TWO_TO_THE_64;
    assert (y + TWO_TO_THE_64) % TWO_TO_THE_64 == y;
  }

  /** A quotient sits at most one divisor below its dividend. */
  lemma DivBounds(x: nat, y: int)
    requires y > 0
    ensures x / y * y <= x < (x / y + 1) * y
  {
    assert x == y * (x / y) + x % y;
  }

  /** A larger factor gives a larger multiple, by at least one divisor. */
  lemma MultipleGrows(m: int, n: int, y: int)
    requires y > 0 && m < n
    ensures m * y + y <= n * y
  {
    var gap := n - m - 1;
    assert gap * y >= 0;
    assert n == m + 1 + gap;
  }

  /** Order between multiples is order between factors. */
  lemma MultipleOrder(m: int, n: int, y: int)
    requires y > 0
    ensures m * y < n * y <==> m < n
  {
    if m < n {
      MultipleGrows(m, n, y);
    } else if n < m {
      MultipleGrows(n, m, y);
    }
  }

  /** The quotient is the only factor whose multiple brackets the dividend. */
  lemma QuotientIsUnique(x: nat, y: int, q: int)
    requires y > 0
    requires q * y <= x < (q + 1) * y
    ensures x / y == q
  {
    DivBounds(x, y);
    MultipleOrder(q, x / y + 1, y);
    MultipleOrder(x / y, q + 1, y);
  }

  /** Multiples of a divisor are at least their factor, and no smaller than the divisor. */
  lemma MultipleAtLeastFactor(n: nat, y: int)
    requires y > 0
    ensures n <= n * y
    ensures n > 0 ==> y <= n * y
  {
    if n > 0 {
      MultipleGrows(0, n, y);
      assert n * y - n == n * (y - 1);
    }
  }

  /** Below the last multiple the next multiple still fits. */
  lemma NextMultipleFits(x: nat, bound: nat, y: int)
    requires y > 0 && x < bound / y * y
    ensures x / y + 1 <= (x / y + 1) * y <= bound / y * y <= bound
    ensures x < (x / y + 1) * y <= x + y
  {
    var n, m := x / y, bound / y;
    DivBounds(x, y);
    DivBounds(bound, y);
    MultipleOrder(n, m, y);
    MultipleAtLeastFactor(n + 1, y);
    assert (n + 1) * y == n * y + y;
    if n + 1 < m {
      MultipleOrder(n + 1, m, y);
    }
  }

  /** Truncation of a negative dividend: one past the quotient is less than two divisors up. */
  lemma TruncationOvershoots(x: int, y: int)
    requires y > 0 && x < 0
    ensures var p := (TruncDiv(x, y) + 1) * y; x + y <= p <= y && p < x + 2 * y
    ensures x <= TruncDiv(x, y) <= 0
  {
    var k := (-x) / y;
    DivBounds(-x, y);
    MultipleAtLeastFactor(k, y);
    assert (k + 1) * y == k * y + y;
    assert (-k + 1) * y == y - k * y;
  }

  lemma TruncZeroIff(x: int, y: int)
    requires y > 0 && x < 0
    ensures TruncDiv(x, y) == 0 <==> -y < x
    ensures TruncDiv(x, y) <= 0
  {
    DivBounds(-x, y);
    if -x < y {
      QuotientIsUnique(-x, y, 0);
    }
  }

  /** A multiple is within a dividend exactly when its factor is within the quotient. */
  lemma MultipleWithinIff(m: int, x: nat, y: int)
    requires y > 0
    ensures m * y <= x <==> m <= x / y
  {
    var n := x / y;
    DivBounds(x, y);
    if m < n {
      MultipleOrder(m, n, y);
    } else if n < m {
      MultipleGrows(n, m, y);
      assert (n + 1) * y == n * y + y;
    }
  }
}
