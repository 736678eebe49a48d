/** Calendar dates as Python's `datetime.date` holds them, with Python's
    ordering: tuples compare lexicographically, and so do dates. */
module Dates {

  /** A date as a (year, month, day) triple. Only `Valid` dates come out of
      a date picker; the arithmetic of the model is defined on every triple. */
  datatype Date = Date(year: int, month: int, day: int)

  /** Python's `datetime.MINYEAR` and `datetime.MAXYEAR`. */
  const MinYear: int := 1
  const MaxYear: int := 9999

  /** Gregorian leap years. */
  predicate IsLeapYear(y: int) {
    y % 4 == 0 && (y % 100 != 0 || y % 400 == 0)
  }

  function DaysInMonth(y: int, m: int): (n: int)
    requires 1 <= m <= 12
    ensures 28 <= n <= 31
    ensures n == 29 <==> m == 2 && IsLeapYear(y)
  {
    if m == 2 then (if IsLeapYear(y) then 29 else 28)
    else if m == 4 || m == 6 || m == 9 || m == 11 then 30
    else 31
  }

  /** The triples a `datetime.date` can hold. */
  predicate Valid(d: Date) {
    && MinYear <= d.year <= MaxYear
    && 1 <= d.month <= 12
    && 1 <= d.day <= DaysInMonth(d.year, d.month)
  }

  /** Python's `(a1, a2) < (b1, b2)`. */
  predicate PairLess(a1: int, a2: int, b1: int, b2: int) {
    a1 < b1 || (a1 == b1 && a2 < b2)
  }

  /** Python's `a < b` on dates, that is on (year, month, day) triples. */
  predicate Before(a: Date, b: Date) {
    a.year < b.year || (a.year == b.year && PairLess(a.month, a.day, b.month, b.day))
  }

  /** Python's `a <= b` on dates. */
  predicate OnOrBefore(a: Date, b: Date) {
    a == b || Before(a, b)
  }

  /** The calendar day before `d`: used to state what happens on the eve
      of a birthday. */
  function PrevDay(d: Date): (p: Date)
    requires Valid(d) && d != Date(MinYear, 1, 1)
    ensures Valid(p) && Before(p, d)
    ensures forall e :: Valid(e) && Before(e, d) ==> OnOrBefore(e, p)
  {
    if d.day > 1 then Date(d.year, d.month, d.day - 1)
    else if d.month > 1 then Date(d.year, d.month - 1, DaysInMonth(d.year, d.month - 1))
    else Date(d.year - 1, 12, 31)
  }
}
