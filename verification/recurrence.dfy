/** The three "time to recurrence" intervals and the remembered recurrence
    dates they are computed from. */
module Recurrence {
  import opened Optional
  import opened Dates
  import opened Months

  /** The answer of a `["No", "Yes"]` radio button. */
  datatype YesNo = No | Yes {
    /** The option string the radio returns and the row stores. */
    function Label(): (s: string) {
      match this
      case No => "No"
      case Yes => "Yes"
    }
  }

  /** One recurrence question on the form: its flag, and the value of the
      date picker that is shown only while the flag is "Yes". */
  datatype RecurrenceInput = RecurrenceInput(flag: YesNo, date: Date)

  /** The remembered recurrence date after a rerun draws the form: a "Yes"
      flag stores the picker's value, a "No" flag leaves whatever an earlier
      rerun stored (possibly a stale date, possibly none). */
  function RememberDate(input: RecurrenceInput, remembered: Option<Date>): (r: Option<Date>) {
    if input.flag.Yes? then Some(input.date) else remembered
  }

  /** The interval as the Calculate step computes it from the remembered
      date: months from the last radiotherapy when the flag is "Yes", `None`
      otherwise. Reading a missing date would fail in Python, so a "Yes"
      flag needs a remembered date, which `RememberDate` always supplies. */
  function TimeToRecurrence(flag: YesNo, lastRadiotherapy: Date, remembered: Option<Date>): (r: Option<int>)
    requires flag == Yes ==> remembered.Some?
    ensures r.None? <==> flag == No
  {
    if flag.Yes? then Some(CalculateMonths(lastRadiotherapy, remembered.value)) else None
  }

  /** The interval stated directly on the form's answer, with no remembered
      state: the reference the session-threaded computation must agree with. */
  function IntervalOf(lastRadiotherapy: Date, input: RecurrenceInput): (r: Option<int>) {
    if input.flag.Yes? then Some(CalculateMonths(lastRadiotherapy, input.date)) else None
  }

  /** Drawing the form, then calculating, gives the interval of the form's
      own answer whatever date an earlier rerun left behind: a stale date is
      never read when the flag is "No". */
  lemma StaleDateIgnored(lastRadiotherapy: Date, input: RecurrenceInput, remembered: Option<Date>)
    ensures TimeToRecurrence(input.flag, lastRadiotherapy, RememberDate(input, remembered))
            == IntervalOf(lastRadiotherapy, input)
  {
  }

  /** A "Yes" interval is negative exactly when the recurrence date lies in
      an earlier month than the last radiotherapy. */
  lemma IntervalSign(lastRadiotherapy: Date, input: RecurrenceInput)
    requires Valid(lastRadiotherapy) && Valid(input.date) && input.flag == Yes
    ensures IntervalOf(lastRadiotherapy, input).value < 0
            <==> PairLess(input.date.year, input.date.month, lastRadiotherapy.year, lastRadiotherapy.month)
  {
  }
}
