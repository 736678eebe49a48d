/** `calculate_months`: the number of calendar months from one date to
    another, counted on year and month alone. */
module Months {
  import opened Dates

  /** streamlit_app.py's `calculate_months(start_date, end_date)`. The day of
      the month is never read, and the result is negative when `end` lies in
      an earlier month than `start`. */
  function CalculateMonths(start: Date, end: Date): (m: int) {
    (end.year - start.year) * 12 + (end.month - start.month)
  }

  /** The month one calendar step after `d`'s month; the day is carried
      along untouched. */
  function NextMonth(d: Date): (n: Date)
    requires 1 <= d.month <= 12
    ensures 1 <= n.month <= 12 && n.day == d.day
    ensures !PairLess(n.year, n.month, d.year, d.month) && (n.year, n.month) != (d.year, d.month)
    ensures forall y, m :: PairLess(d.year, d.month, y, m) && 1 <= m <= 12 ==> !PairLess(y, m, n.year, n.month)
  {
    if d.month == 12 then Date(d.year + 1, 1, d.day) else Date(d.year, d.month + 1, d.day)
  }

  /** `k` single-month steps forward from `d`: the reference notion of
      "k months later" that `CalculateMonths` is checked against. */
  function ShiftMonths(d: Date, k: nat): (r: Date)
    requires 1 <= d.month <= 12
    ensures 1 <= r.month <= 12 && r.day == d.day
  {
    if k == 0 then d else NextMonth(ShiftMonths(d, k - 1))
  }

  /** The result depends on the two dates' year and month only. */
  lemma MonthsIgnoreDay(start: Date, end: Date, startDay: int, endDay: int)
    ensures CalculateMonths(Date(start.year, start.month, startDay), Date(end.year, end.month, endDay))
            == CalculateMonths(start, end)
  {
  }

  /** From a date to itself, or to any day of the same month, is zero months. */
  lemma MonthsSameMonthIsZero(d: Date, day: int)
    ensures CalculateMonths(d, d) == 0
    ensures CalculateMonths(d, Date(d.year, d.month, day)) == 0
  {
  }

  /** Swapping the dates negates the result. */
  lemma MonthsAntisymmetric(a: Date, b: Date)
    ensures CalculateMonths(a, b) == -CalculateMonths(b, a)
  {
  }

  /** Month differences add up along a chain of dates. */
  lemma MonthsAdditive(a: Date, b: Date, c: Date)
    ensures CalculateMonths(a, b) + CalculateMonths(b, c) == CalculateMonths(a, c)
  {
  }

  /** For real months, the sign of the result is the order of the two
      (year, month) pairs: negative exactly when `end`'s month comes first,
      zero exactly when both dates fall in the same month. */
  lemma MonthsSignIsMonthOrder(start: Date, end: Date)
    requires 1 <= start.month <= 12 && 1 <= end.month <= 12
    ensures CalculateMonths(start, end) < 0 <==> PairLess(end.year, end.month, start.year, start.month)
    ensures CalculateMonths(start, end) == 0 <==> end.year == start.year && end.month == start.month
    ensures CalculateMonths(start, end) > 0 <==> PairLess(start.year, start.month, end.year, end.month)
  {
  }

  /** A later date is never a negative number of months away. */
  lemma MonthsNonNegativeWhenOrdered(start: Date, end: Date)
    requires Valid(start) && Valid(end) && OnOrBefore(start, end)
    ensures CalculateMonths(start, end) >= 0
  {
  }

  /** `CalculateMonths` counts single-month steps: `k` steps forward from a
      date are exactly `k` months away from it. */
  lemma {:induction false} ShiftCounts(start: Date, k: nat)
    requires 1 <= start.month <= 12
    ensures CalculateMonths(start, ShiftMonths(start, k)) == k
  {
    if k > 0 {
      ShiftCounts(start, k - 1);
      var prev := ShiftMonths(start, k - 1);
      assert CalculateMonths(prev, NextMonth(prev)) == 1;
      MonthsAdditive(start, prev, NextMonth(prev));
    }
  }

  /** Conversely, stepping `CalculateMonths(start, end)` months forward from
      `start` lands in `end`'s month whenever `end` is not in an earlier one. */
  lemma ShiftReachesEnd(start: Date, end: Date)
    requires 1 <= start.month <= 12 && 1 <= end.month <= 12
    requires !PairLess(end.year, end.month, start.year, start.month)
    ensures CalculateMonths(start, end) >= 0
    ensures ShiftMonths(start, CalculateMonths(start, end)).year == end.year
    ensures ShiftMonths(start, CalculateMonths(start, end)).month == end.month
  {
    MonthsSignIsMonthOrder(start, end);
    var t := ShiftMonths(start, CalculateMonths(start, end));
    ShiftCounts(start, CalculateMonths(start, end));
    MonthsAdditive(start, t, end);
    MonthsSignIsMonthOrder(t, end);
  }

  /** Examples: from 15 January to 1 June 2023 is five months, the reverse
      is minus five, and 31 January to 1 February is one month. */
  lemma MonthsExamples()
    ensures CalculateMonths(Date(2023, 1, 15), Date(2023, 6, 1)) == 5
    ensures CalculateMonths(Date(2023, 6, 1), Date(2023, 1, 15)) == -5
    ensures CalculateMonths(Date(2023, 1, 31), Date(2023, 2, 1)) == 1
  {
  }
}
