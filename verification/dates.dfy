/** Payment dates. A date is an ordinal day number. Weekly and biweekly
    schedules step by a fixed number of days; every other frequency steps by one
    calendar month, whose month-end policy belongs to a date library outside
    this model, so the month step is supplied by the caller as `addMonth`. */
module Dates {

  datatype Date = Date(day: int)

  /** The date one payment period after `d`. */
  function Advance(d: Date, payPerYear: int, addMonth: Date -> Date): (next: Date)
    ensures payPerYear == 26 ==> next.day == d.day + 14
    ensures payPerYear == 52 ==> next.day == d.day + 7
    ensures payPerYear != 26 && payPerYear != 52 ==> next == addMonth(d)
  {
    if payPerYear == 12 then addMonth(d)
    else if payPerYear == 26 then Date(d.day + 14)
    else if payPerYear == 52 then Date(d.day + 7)
    else addMonth(d)
  }

  /** `k` calendar-month steps after `start`. */
  function MonthsAfter(start: Date, addMonth: Date -> Date, k: nat): Date
  {
    if k == 0 then start else addMonth(MonthsAfter(start, addMonth, k - 1))
  }

  /** The date of the payment `k` periods after `start`: the start itself for
      the first payment and, on a monthly (or any non-weekly, non-biweekly)
      schedule, `k` month steps after it. */
  function DateAt(start: Date, payPerYear: int, addMonth: Date -> Date, k: nat): (d: Date)
    ensures k == 0 ==> d == start
    ensures payPerYear != 26 && payPerYear != 52 ==> d == MonthsAfter(start, addMonth, k)
  {
    if k == 0 then start else Advance(DateAt(start, payPerYear, addMonth, k - 1), payPerYear, addMonth)
  }

  /** Fixed-interval schedules never drift: payment `k` falls exactly
      7k (weekly) or 14k (biweekly) days after the first. */
  lemma {:induction false} FixedIntervalDates(start: Date, payPerYear: int, addMonth: Date -> Date, k: nat)
    requires payPerYear == 26 || payPerYear == 52
    ensures DateAt(start, payPerYear, addMonth, k).day
         == start.day + k * (if payPerYear == 26 then 14 else 7)
  {
    if k > 0 {
      FixedIntervalDates(start, payPerYear, addMonth, k - 1);
    }
  }
}
