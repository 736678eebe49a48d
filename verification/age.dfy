/** The calendar age computed when the form is submitted. */
module Age {
  import opened Dates
  import opened Months

  /** Python's `int(b)` for a boolean: `True` subtracts as 1. */
  function BoolToInt(b: bool): (n: int) {
    if b then 1 else 0
  }

  /** streamlit_app.py's inline age: the difference of the years, less one
      when `today`'s (month, day) pair is below the birth (month, day) pair
      under tuple comparison. */
  function AgeInYears(dateOfBirth: Date, today: Date): (age: int)
    ensures today.year - dateOfBirth.year - 1 <= age <= today.year - dateOfBirth.year
  {
    today.year - dateOfBirth.year
      - BoolToInt(PairLess(today.month, today.day, dateOfBirth.month, dateOfBirth.day))
  }

  /** The `n`-th birthday falls on or before `today`: the triple
      (birth year + n, birth month, birth day) is not after today's. It is a
      plain triple, so a 29 February birthday "falls" on the non-existent
      29 February of common years, as Python's tuple comparison has it. */
  predicate BirthdayReached(dateOfBirth: Date, n: int, today: Date) {
    !Before(today, Date(dateOfBirth.year + n, dateOfBirth.month, dateOfBirth.day))
  }

  /** The age is the number of birthdays completed: the `n`-th birthday has
      been reached exactly when `n` is at most the age. */
  lemma AgeCountsBirthdays(dateOfBirth: Date, today: Date, n: int)
    ensures BirthdayReached(dateOfBirth, n, today) <==> n <= AgeInYears(dateOfBirth, today)
  {
  }

  /** On the `n`-th birthday itself the age is `n`. */
  lemma AgeOnBirthday(dateOfBirth: Date, n: int)
    ensures AgeInYears(dateOfBirth, Date(dateOfBirth.year + n, dateOfBirth.month, dateOfBirth.day)) == n
  {
  }

  /** On the day before a birthday the age is one less than the difference
      of the years, including when that day is the last of the previous
      month or 31 December of the previous year. */
  lemma AgeOnEveOfBirthday(dateOfBirth: Date, year: int)
    requires Valid(dateOfBirth)
    requires Valid(Date(year, dateOfBirth.month, dateOfBirth.day))
    requires Date(year, dateOfBirth.month, dateOfBirth.day) != Date(MinYear, 1, 1)
    ensures AgeInYears(dateOfBirth, PrevDay(Date(year, dateOfBirth.month, dateOfBirth.day))) == year - dateOfBirth.year - 1
  {
  }

  /** Someone born on or before `today` has a non-negative age, and is zero
      years old on the day of birth. */
  lemma AgeNonNegative(dateOfBirth: Date, today: Date)
    requires OnOrBefore(dateOfBirth, today)
    ensures AgeInYears(dateOfBirth, today) >= 0
    ensures today == dateOfBirth ==> AgeInYears(dateOfBirth, today) == 0
  {
  }

  /** Age never decreases as the reference date moves forward. */
  lemma AgeMonotone(dateOfBirth: Date, earlier: Date, later: Date)
    requires OnOrBefore(earlier, later)
    ensures AgeInYears(dateOfBirth, earlier) <= AgeInYears(dateOfBirth, later)
  {
  }

  /** The age is the number of whole twelve-month spans in the months
      completed since birth, where the current month counts only once its
      birth day has been reached. */
  lemma AgeFromCompletedMonths(dateOfBirth: Date, today: Date)
    requires 1 <= dateOfBirth.month <= 12 && 1 <= today.month <= 12
    ensures AgeInYears(dateOfBirth, today)
            == (CalculateMonths(dateOfBirth, today) - BoolToInt(today.day < dateOfBirth.day)) / 12
  {
  }

  /** Examples: the day before and the day of a 24th birthday, and a
      29 February birthday in a common year, which is reached on 1 March. */
  lemma AgeExamples()
    ensures AgeInYears(Date(2000, 3, 10), Date(2024, 3, 9)) == 23
    ensures AgeInYears(Date(2000, 3, 10), Date(2024, 3, 10)) == 24
    ensures AgeInYears(Date(2000, 2, 29), Date(2023, 2, 28)) == 22
    ensures AgeInYears(Date(2000, 2, 29), Date(2023, 3, 1)) == 23
  {
  }
}
