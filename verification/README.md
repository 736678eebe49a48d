# Breast clinic follow-up form: derived fields and save gating

This project models the logic of `streamlit_app.py`, a Streamlit form that
records radiotherapy follow-up visits for breast-cancer patients and appends
each visit as one row to a Google Sheets worksheet. The model covers the
parts that compute something:

- `calculate_months`: whole calendar months between two dates. Only year and
  month are used, and the result may be negative.
- The inline calendar age. It takes the year difference and subtracts one
  when `(today.month, today.day) < (birth.month, birth.day)` under Python's
  tuple comparison.
- The three "time to recurrence" intervals. Each is a month count from the
  last radiotherapy when its flag is `"Yes"`, and `None` when it is `"No"`.
  The recurrence dates are kept in `st.session_state` across reruns.
- The Save button. It is refused until age and time since treatment have been
  calculated. Otherwise it builds the 15-value row in dictionary order and
  appends it.

Modules:

- `Dates`: the `Date` triple, Python's date ordering, validity, and the day before a date.
- `Months`: `CalculateMonths` and its laws. It is checked against a stepwise
  reference, `ShiftMonths`, which moves forward one calendar month per step.
- `Age`: `AgeInYears`, checked against a reference that counts completed birthdays.
- `Recurrence`: the `"No"/"Yes"` radio, the remembered recurrence date and
  the gated interval.
- `Record`: the form values, the cell type, the column order, the row builder
  and the well-formedness of a saved row.
- `App`: the app as a run of Streamlit reruns. A rerun is caused by the
  Calculate submit, by Save, or by any other interaction. The session state
  and the worksheet rows pass from one rerun to the next.

The environment is passed in explicitly:

- `datetime.today()` is the `today` carried by each Calculate event.
- `st.session_state` is the `App.Session` value.
- The worksheet is a `seq<Row>`, and `append_row` appends to it.
- Python's `None` in an appended list becomes the empty cell `Blank`.

Widgets inside `st.form` hand their values to the script only when the form
is submitted. The form's only submit button is Calculate. So a Save rerun sees
the form as it was at the last Calculate, and `App.AppState` keeps that
committed form. `App.Consistent` says that the session's calculated values
match the committed form. It holds initially and after every rerun. Because of
it, every appended row leaves an interval empty exactly when that interval's
flag is "No".

Three consequences of the code are worth stating plainly:

- A non-applicable interval is Python's `None`, which leaves its cell empty.
  No sentinel string is written.
- A "Yes" flag always has a recurrence date, so no validation error exists
  for a missing one. Line 56 stores the date picker's value in the session
  before line 79 reads it (`App.Draw` ensures `DatesDrawn`).
- `calculate_months` is exactly antisymmetric (`Months.MonthsAntisymmetric`),
  because the formula never reads the day.

## Model

| member | source | states |
|---|---|---|
| Months.CalculateMonths | streamlit_app.py:7-8 | the month count from start to end: twelve per year of difference plus the difference of the month numbers; its laws are the lemmas below |
| Months.MonthsIgnoreDay | streamlit_app.py:7-8 | changing the day of either date never changes the month difference |
| Months.MonthsSameMonthIsZero | streamlit_app.py:7-8 | a date is zero months from itself and from any other day of its month |
| Months.MonthsAntisymmetric | streamlit_app.py:8 | swapping start and end negates the month difference |
| Months.MonthsAdditive | streamlit_app.py:8 | month differences add up along a chain a → b → c |
| Months.MonthsSignIsMonthOrder | streamlit_app.py:7-8 | the result is negative, zero or positive exactly when end's (year, month) is before, equal to or after start's, so an earlier end gives a negative count rather than an error |
| Months.MonthsNonNegativeWhenOrdered | streamlit_app.py:7-8 | for valid dates with start on or before end the month count is not negative |
| Months.ShiftCounts | streamlit_app.py:8 | k single-month steps forward from a date are exactly k months away from it |
| Months.ShiftReachesEnd | streamlit_app.py:8 | stepping CalculateMonths(start, end) months forward from start lands in end's year and month whenever end's month is not earlier |
| Months.MonthsExamples | streamlit_app.py:8 | 15 Jan → 1 Jun 2023 is 5 months, the reverse is −5, and 31 Jan → 1 Feb is 1 |
| Age.AgeInYears | streamlit_app.py:71-73 | the calendar age is always the difference of the years or one less; which of the two is settled by the birthday count of Age.AgeCountsBirthdays |
| Age.AgeCountsBirthdays | streamlit_app.py:71-73 | the n-th birthday (as a tuple) is on or before today exactly when n is at most the computed age |
| Age.AgeOnBirthday | streamlit_app.py:71-73 | on the n-th birthday itself the age is n |
| Age.AgeOnEveOfBirthday | streamlit_app.py:71-73 | on the calendar day before a birthday in year y the age is y − birth year − 1, across month and year boundaries |
| Age.AgeNonNegative | streamlit_app.py:71-73 | a birth date on or before today, which the picker's max_value of today enforces, gives a non-negative age, and zero on the day of birth |
| Age.AgeMonotone | streamlit_app.py:71-73 | the age never decreases as the reference date moves later |
| Age.AgeFromCompletedMonths | streamlit_app.py:71-73 | the age is the number of whole 12-month spans in the months completed since birth, where the current month counts once its birth day is reached |
| Age.AgeExamples | streamlit_app.py:71-73 | 10 Mar 2000 gives 23 on 9 Mar 2024 and 24 on 10 Mar 2024; 29 Feb 2000 gives 22 on 28 Feb 2023 and 23 on 1 Mar 2023 |
| Recurrence.TimeToRecurrence | streamlit_app.py:78-89 | the interval is None exactly when the flag is "No"; a "Yes" flag needs a remembered date |
| Recurrence.StaleDateIgnored | streamlit_app.py:54-89 | after drawing the form and calculating, the interval equals that of the form's own answer, whatever date an earlier rerun left |
| Recurrence.IntervalSign | streamlit_app.py:78-81 | a "Yes" interval is negative exactly when the recurrence month is earlier than the last radiotherapy month |
| Record.DefaultForm | streamlit_app.py:37-64 | before the first submit every recurrence flag is "No" and each select box shows an option from its list |
| Record.BuildRow | streamlit_app.py:121-140 | the row has the 15 columns in dictionary order: MRN, age and treatment time, the six side-effect answers, then each recurrence flag's label followed by its interval: an integer cell holding the interval's value, or an empty cell exactly when it is None |
| Record.BuiltRowWellFormed | streamlit_app.py:121-137 | a row built from the form's own intervals gates every interval by its flag and carries the form's MRN, its six side-effect answers and its flag labels |
| Record.ColumnPositions | streamlit_app.py:121-137 | each flag column is followed by the interval column it gates |
| App.Draw | streamlit_app.py:54-64 | every rerun leaves a date in the session for each "Yes" flag and keeps the calculated values |
| App.Calculate | streamlit_app.py:69-96 | Calculate stores the calendar age, the month count from last radiotherapy to follow-up, and an interval that is None exactly for each "No" flag |
| App.Save | streamlit_app.py:109-142 | Save is refused with the error message and the sheet unchanged exactly when age or time since treatment is missing; otherwise exactly one row is appended after the untouched earlier rows, carrying the MRN, the session's age, treatment time and intervals, the form's side-effect answers and its recurrence flag labels |
| App.Step | streamlit_app.py:67-142 | a rerun keeps every existing row and adds at most one |
| App.InitialState | streamlit_app.py:27-64 | the first run keeps the worksheet's rows, starts with nothing calculated and every recurrence flag at "No", and is consistent |
| App.StepPreservesConsistent | streamlit_app.py:69-115 | every rerun keeps the session's calculated values in agreement with the committed form; only Calculate sets the age |
| App.SaveAppendsFormRow | streamlit_app.py:117-140 | in a consistent state Save is refused exactly when nothing was calculated; otherwise the new row is well formed and carries the committed form's MRN, side-effect answers, flags and intervals |
| App.SaveTwiceAppendsTwice | streamlit_app.py:109-140 | nothing is cleared after a save, so two Save clicks append two identical rows |
| App.RunEvents | streamlit_app.py:109-140 | over any run of events the sheet keeps its earlier rows and grows by exactly one well-formed row per Save click that follows some Calculate |

## Left out

- Google Sheets connection, credentials and `client.open` (lines 11-21): network and authentication I/O through libraries outside this model.
- Widget rendering, `st.write` previews, `st.error` and `st.success`: this is UI. Button presses are `App.Event` values. Messages and previews are `App.Outcome` values, and their formatting is not modelled.
- The date pickers' `min_value` and `max_value` bounds (lines 37, 56, 60, 64): these are widget constraints. They appear only as preconditions (`Age.AgeNonNegative`), not as checks in the model.
- The first time a recurrence date picker appears, it returns its default value (today). The model carries whatever value the picker returns in the Calculate event. It does not model how Streamlit chooses that value.
- `datetime.today()` is read several times in one rerun. The model uses a single `today` per rerun, so it ignores a rerun that crosses midnight.
- Concurrency between two users appending to one sheet: the app does nothing about it, and it is not modelled.
- Patient lookup by MRN, parsing of list-valued fields, a read/write-all store contract and a days/365 age rule belong to other variants of this application. `streamlit_app.py` contains none of them, so they are not part of this model.
