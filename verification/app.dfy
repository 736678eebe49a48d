/** The app as a sequence of Streamlit reruns. Each rerun is caused by one
    event: the form's Calculate button (which also commits the form's
    widget values), the Save button, or any other interaction. The session
    state and the worksheet's rows are threaded from rerun to rerun. */
module App {
  import opened Optional
  import opened Dates
  import opened Months
  import opened Age
  import opened Recurrence
  import opened Record

  /** The keys the app keeps in `st.session_state`. A key never set reads as
      `None` through `.get(key, None)`, just like a key set to `None`. */
  datatype Session = Session(
    localDate: Option<Date>,
    regionalDate: Option<Date>,
    distantDate: Option<Date>,
    age: Option<int>,
    timeSinceTreatment: Option<int>,
    toLocal: Option<int>,
    toRegional: Option<int>,
    toDistant: Option<int>)

  /** The session at the first run: the three recurrence dates set to
      `None`, nothing calculated yet. */
  const InitialSession: Session := Session(None, None, None, None, None, None, None, None)

  /** What a rerun shows the user. */
  datatype Outcome =
    | Quiet
    | Preview(age: int, timeSinceTreatment: int,
              toLocal: Option<int>, toRegional: Option<int>, toDistant: Option<int>)
    | SaveError(message: string)
    | SaveSuccess(message: string)

  const NotCalculatedMessage: string := "Please calculate the age and treatment times before saving."
  const SavedMessage: string := "Patient data has been successfully saved!"

  /** What triggers a rerun. `Submit` is the form's Calculate button; it
      carries the widget values it commits and the day `datetime.today()`
      reads during that rerun. */
  datatype Event = Submit(form: FormValues, today: Date) | SaveClicked | OtherRerun

  /** Between reruns: the form's committed values, the session, the rows of
      the worksheet. */
  datatype AppState = AppState(form: FormValues, session: Session, sheet: seq<Row>)

  /** Every "Yes" flag of `form` has a remembered date. */
  predicate DatesDrawn(form: FormValues, s: Session) {
    && (form.local.flag == Yes ==> s.localDate.Some?)
    && (form.regional.flag == Yes ==> s.regionalDate.Some?)
    && (form.distant.flag == Yes ==> s.distantDate.Some?)
  }

  /** Drawing the form on every rerun: each "Yes" recurrence stores its
      date picker's value in the session; the rest of the session is kept. */
  function Draw(form: FormValues, s: Session): (r: Session)
    ensures DatesDrawn(form, r)
    ensures r.age == s.age && r.timeSinceTreatment == s.timeSinceTreatment
    ensures r.toLocal == s.toLocal && r.toRegional == s.toRegional && r.toDistant == s.toDistant
  {
    s.(localDate := RememberDate(form.local, s.localDate),
       regionalDate := RememberDate(form.regional, s.regionalDate),
       distantDate := RememberDate(form.distant, s.distantDate))
  }

  /** The Calculate branch: age, time since treatment and the three gated
      intervals, stored in the session. */
  function Calculate(form: FormValues, today: Date, s: Session): (r: Session)
    requires DatesDrawn(form, s)
    ensures r.age == Some(AgeInYears(form.dateOfBirth, today))
    ensures r.timeSinceTreatment == Some(CalculateMonths(form.lastRadiotherapy, form.followUp))
    ensures r.toLocal.None? <==> form.local.flag == No
    ensures r.toRegional.None? <==> form.regional.flag == No
    ensures r.toDistant.None? <==> form.distant.flag == No
    ensures r.localDate == s.localDate && r.regionalDate == s.regionalDate && r.distantDate == s.distantDate
  {
    s.(age := Some(AgeInYears(form.dateOfBirth, today)),
       timeSinceTreatment := Some(CalculateMonths(form.lastRadiotherapy, form.followUp)),
       toLocal := TimeToRecurrence(form.local.flag, form.lastRadiotherapy, s.localDate),
       toRegional := TimeToRecurrence(form.regional.flag, form.lastRadiotherapy, s.regionalDate),
       toDistant := TimeToRecurrence(form.distant.flag, form.lastRadiotherapy, s.distantDate))
  }

  /** The Save branch: refused, with the sheet untouched, unless both age
      and time since treatment are in the session; otherwise exactly one
      row, built from the committed form and the session's values, is
      appended after the existing ones. */
  function Save(form: FormValues, s: Session, sheet: seq<Row>): (r: (seq<Row>, Outcome))
    ensures r.1.SaveError? <==> s.age.None? || s.timeSinceTreatment.None?
    ensures r.1.SaveError? ==> r.0 == sheet && r.1.message == NotCalculatedMessage
    ensures !r.1.SaveError? ==> r.1 == SaveSuccess(SavedMessage)
    ensures !r.1.SaveError? ==>
      && |r.0| == |sheet| + 1 && r.0[..|sheet|] == sheet && |r.0[|sheet|]| == |Columns|
      && r.0[|sheet|][0] == Text(form.mrn)
      && r.0[|sheet|][1] == Int(s.age.value)
      && r.0[|sheet|][2] == Int(s.timeSinceTreatment.value)
      && SideEffectsCopied(r.0[|sheet|], form)
      && RecurrenceCells(r.0[|sheet|], LocalFlag, form.local, s.toLocal)
      && RecurrenceCells(r.0[|sheet|], RegionalFlag, form.regional, s.toRegional)
      && RecurrenceCells(r.0[|sheet|], DistantFlag, form.distant, s.toDistant)
  {
    if s.age.None? || s.timeSinceTreatment.None? then
      (sheet, SaveError(NotCalculatedMessage))
    else
      var row := BuildRow(form, s.age.value, s.timeSinceTreatment.value, s.toLocal, s.toRegional, s.toDistant);
      (sheet + [row], SaveSuccess(SavedMessage))
  }

  /** One rerun of the script for one event. */
  function Step(st: AppState, ev: Event): (r: (AppState, Outcome))
    ensures |st.sheet| <= |r.0.sheet| <= |st.sheet| + 1 && r.0.sheet[..|st.sheet|] == st.sheet
  {
    match ev
    case Submit(form, today) =>
      var s := Calculate(form, today, Draw(form, st.session));
      (AppState(form, s, st.sheet),
       Preview(s.age.value, s.timeSinceTreatment.value, s.toLocal, s.toRegional, s.toDistant))
    case SaveClicked =>
      var s := Draw(st.form, st.session);
      var saved := Save(st.form, s, st.sheet);
      (AppState(st.form, s, saved.0), saved.1)
    case OtherRerun =>
      (st.(session := Draw(st.form, st.session)), Quiet)
  }

  /** The state before any interaction: default widget values, the initial
      session, and whatever rows the worksheet already holds. */
  function InitialState(today: Date, sheet: seq<Row>): (st: AppState)
    ensures st.sheet == sheet && Consistent(st) && st.session.age.None?
    ensures st.form.local.flag == No && st.form.regional.flag == No && st.form.distant.flag == No
  {
    AppState(DefaultForm(today), InitialSession, sheet)
  }

  /** The session's calculated values agree with the committed form: age and
      time since treatment are present together, and when present the
      treatment time and each interval are those of the form's own answers. */
  predicate Consistent(st: AppState) {
    && (st.session.age.Some? <==> st.session.timeSinceTreatment.Some?)
    && (st.session.age.Some? ==>
          && st.session.timeSinceTreatment == Some(CalculateMonths(st.form.lastRadiotherapy, st.form.followUp))
          && st.session.toLocal == IntervalOf(st.form.lastRadiotherapy, st.form.local)
          && st.session.toRegional == IntervalOf(st.form.lastRadiotherapy, st.form.regional)
          && st.session.toDistant == IntervalOf(st.form.lastRadiotherapy, st.form.distant))
  }

  /** Every rerun keeps the session consistent with the committed form, and
      only a Calculate sets the age; a save never clears it. */
  lemma StepPreservesConsistent(st: AppState, ev: Event)
    requires Consistent(st)
    ensures Consistent(Step(st, ev).0)
    ensures Step(st, ev).0.session.age.Some? <==> ev.Submit? || st.session.age.Some?
  {
  }

  /** In a consistent state a Save is refused exactly when nothing has been
      calculated, and otherwise appends a well-formed row that carries the
      committed form's answers, each interval empty exactly when its flag
      reads "No". */
  lemma SaveAppendsFormRow(st: AppState)
    requires Consistent(st)
    ensures var (next, out) := Step(st, SaveClicked);
            && (out.SaveError? <==> st.session.age.None?)
            && (out.SaveError? ==> next.sheet == st.sheet)
            && (!out.SaveError? ==>
                  && |next.sheet| == |st.sheet| + 1
                  && RowWellFormed(next.sheet[|st.sheet|])
                  && RowMatchesForm(next.sheet[|st.sheet|], st.form))
  {
  }

  /** Nothing in the session changes on a save, so pressing Save twice
      appends the same row twice. */
  lemma SaveTwiceAppendsTwice(st: AppState)
    requires Consistent(st) && st.session.age.Some?
    ensures var once := Step(st, SaveClicked).0;
            var twice := Step(once, SaveClicked).0;
            |twice.sheet| == |st.sheet| + 2 && twice.sheet[|st.sheet|] == twice.sheet[|st.sheet| + 1]
  {
  }

  /** Some Calculate has happened, before `events` or among them. */
  predicate CalculatedIn(calculatedBefore: bool, events: seq<Event>) {
    calculatedBefore || exists j :: 0 <= j < |events| && events[j].Submit?
  }

  /** The number of Save clicks in `events` that come after some Calculate. */
  function AcceptedSaves(calculatedBefore: bool, events: seq<Event>): nat {
    if |events| == 0 then 0
    else
      var prefix := events[..|events| - 1];
      AcceptedSaves(calculatedBefore, prefix)
        + (if events[|events| - 1].SaveClicked? && CalculatedIn(calculatedBefore, prefix) then 1 else 0)
  }

  /** Runs the app over a sequence of events. The worksheet keeps its
      earlier rows, grows by one row per Save click that follows some
      Calculate and by nothing else, and every row it gains is well formed. */
  method RunEvents(init: AppState, events: seq<Event>) returns (final: AppState, saved: nat)
    requires Consistent(init)
    ensures Consistent(final)
    ensures final.session.age.Some? <==> CalculatedIn(init.session.age.Some?, events)
    ensures saved == AcceptedSaves(init.session.age.Some?, events)
    ensures |final.sheet| == |init.sheet| + saved
    ensures final.sheet[..|init.sheet|] == init.sheet
    ensures forall k :: |init.sheet| <= k < |final.sheet| ==> RowWellFormed(final.sheet[k])
  {
    final := init;
    saved := 0;
    var i := 0;
    while i < |events|
      invariant 0 <= i <= |events|
      invariant Consistent(final)
      invariant final.session.age.Some? <==> CalculatedIn(init.session.age.Some?, events[..i])
      invariant saved == AcceptedSaves(init.session.age.Some?, events[..i])
      invariant |final.sheet| == |init.sheet| + saved
      invariant final.sheet[..|init.sheet|] == init.sheet
      invariant forall k :: |init.sheet| <= k < |final.sheet| ==> RowWellFormed(final.sheet[k])
    {
      var ev := events[i];
      assert events[..i + 1][..i] == events[..i];
      StepPreservesConsistent(final, ev);
      if ev.SaveClicked? {
        SaveAppendsFormRow(final);
      }
      var next := Step(final, ev);
      if |next.0.sheet| > |final.sheet| {
        saved := saved + 1;
      }
      assert next.0.sheet[..|final.sheet|] == final.sheet;
      final := next.0;
      i := i + 1;
    }
    assert events[..i] == events;
  }
}
