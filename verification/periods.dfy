/** Conversion of the interest-only window from months to payment periods.

    The calculator takes the number of interest-only months and rounds
    months * payments-per-year / 12 to a whole number of periods with the
    rounding of its host language: to the nearest integer, ties to the even one.
    The quotient is an exact rational here, which is faithful: months * frequency
    is an integer, and a tie (a fraction of exactly one half) is representable.
 */
module Periods {

  /** `r` is a nearest integer to a / b and, when a / b lies exactly halfway, the even one. */
  predicate NearestTiesEven(a: int, b: int, r: int)
    requires b > 0
  {
    && -b <= 2 * (a - r * b) <= b
    && (2 * (a - r * b) == b || 2 * (a - r * b) == -b ==> r % 2 == 0)
  }

  /** a / b rounded to the nearest integer, ties to even. */
  function RoundHalfEven(a: int, b: int): (r: int)
    requires b > 0
    ensures NearestTiesEven(a, b, r)
  {
    var q, m := a / b, a % b;
    assert a == q * b + m;
    if 2 * m < b then q
    else if 2 * m > b then q + 1
    else if q % 2 == 0 then q
    else q + 1
  }

  lemma SmallMultiple(k: int, b: int)
    requires b > 0 && -b <= k * b <= b
    ensures -1 <= k <= 1
  {
  }

  /** The rounding is the only integer with its defining property. */
  lemma RoundHalfEvenUnique(a: int, b: int, r: int)
    requires b > 0
    ensures NearestTiesEven(a, b, r) <==> r == RoundHalfEven(a, b)
  {
    var r0 := RoundHalfEven(a, b);
    if NearestTiesEven(a, b, r) {
      var k := r - r0;
      assert 2 * (k * b) == 2 * (a - r0 * b) - 2 * (a - r * b);
      SmallMultiple(k, b);
    }
  }

  /** Number of interest-only payment periods for `ioMonths` months at
      `payPerYear` payments a year. */
  function IoPeriods(ioMonths: int, payPerYear: int): (periods: int)
    ensures NearestTiesEven(ioMonths * payPerYear, 12, periods)
  {
    RoundHalfEven(ioMonths * payPerYear, 12)
  }

  /** With monthly payments the window is exactly the number of months. */
  lemma IoPeriodsMonthly(ioMonths: int)
    ensures IoPeriods(ioMonths, 12) == ioMonths
  {
    RoundHalfEvenUnique(ioMonths * 12, 12, ioMonths);
  }

  /** Ties go to the even neighbour: 3 months biweekly is 6.5 periods, rounded
      down to 6; 9 months biweekly is 19.5 periods, rounded up to 20. */
  lemma IoPeriodsBiweeklyTies()
    ensures IoPeriods(3, 26) == 6
    ensures IoPeriods(9, 26) == 20
    ensures IoPeriods(12, 26) == 26
    ensures IoPeriods(12, 52) == 52
  {
  }
}
