/** The form's values and the 15-value row that a save appends to the
    worksheet. */
module Record {
  import opened Optional
  import opened Dates
  import opened Recurrence

  /** One spreadsheet cell as `append_row` receives it: a string, an
      integer, or Python's `None`, which leaves the cell empty. */
  datatype Cell = Text(text: string) | Int(number: int) | Blank

  type Row = seq<Cell>

  /** The keys of the saved dictionary, in insertion order; `append_row`
      writes the values in this order. */
  const Columns: seq<string> := [
    "MRN", "Age", "Time_since_treatment", "Radiodermatitis", "Telangiectasia",
    "Breast_pain", "Cosmetic_outcome", "Breast_shrinkage", "Surgery_for_cosmetics",
    "Local_recurrence", "Time_to_local_recurrence",
    "Regional_recurrence", "Time_to_regional_recurrence",
    "Distant_recurrence", "Time_to_distant_recurrence"
  ]

  /** Positions of each recurrence flag and of the interval it gates. */
  const LocalFlag: nat := 9
  const LocalInterval: nat := 10
  const RegionalFlag: nat := 11
  const RegionalInterval: nat := 12
  const DistantFlag: nat := 13
  const DistantInterval: nat := 14

  /** The option lists of the select boxes; the radios are `YesNo`. */
  const RadiodermatitisGrades: seq<string> := ["None", "I", "II", "III", "IV"]
  const BreastPainGrades: seq<string> := ["None", "I", "II", "III"]
  const CosmeticOutcomes: seq<string> := ["Excellent", "Good", "Poor"]

  /** The values of the form's widgets as last submitted. */
  datatype FormValues = FormValues(
    dateOfBirth: Date,
    mrn: string,
    lastRadiotherapy: Date,
    followUp: Date,
    radiodermatitis: string,
    telangiectasia: YesNo,
    breastPain: string,
    cosmeticOutcome: string,
    breastShrinkage: YesNo,
    surgeryForCosmetics: YesNo,
    local: RecurrenceInput,
    regional: RecurrenceInput,
    distant: RecurrenceInput)

  /** The widgets' values before the form is first submitted: pickers show
      `today`, the MRN box is empty, every select box and radio shows its
      first option. */
  function DefaultForm(today: Date): (f: FormValues)
    ensures f.local.flag == No && f.regional.flag == No && f.distant.flag == No
    ensures f.radiodermatitis in RadiodermatitisGrades && f.breastPain in BreastPainGrades
    ensures f.cosmeticOutcome in CosmeticOutcomes
  {
    FormValues(today, "", today, today,
      RadiodermatitisGrades[0], No, BreastPainGrades[0], CosmeticOutcomes[0], No, No,
      RecurrenceInput(No, today), RecurrenceInput(No, today), RecurrenceInput(No, today))
  }

  /** Python's `None` or an integer, as a cell. */
  function IntOrBlank(o: Option<int>): (c: Cell) {
    match o
    case None => Blank
    case Some(n) => Int(n)
  }

  /** Columns 3 to 8 carry the six side-effect answers of the form, in the
      order the dictionary lists them. */
  predicate SideEffectsCopied(row: Row, form: FormValues)
    requires 9 <= |row|
  {
    && row[3] == Text(form.radiodermatitis)
    && row[4] == Text(form.telangiectasia.Label())
    && row[5] == Text(form.breastPain)
    && row[6] == Text(form.cosmeticOutcome)
    && row[7] == Text(form.breastShrinkage.Label())
    && row[8] == Text(form.surgeryForCosmetics.Label())
  }

  /** A recurrence flag's label followed by the interval it gates: the
      interval's number, or an empty cell exactly when it is `None`. */
  predicate RecurrenceCells(row: Row, flagColumn: nat, input: RecurrenceInput, interval: Option<int>)
    requires flagColumn + 1 < |row|
  {
    && row[flagColumn] == Text(input.flag.Label())
    && row[flagColumn + 1] == IntOrBlank(interval)
    && (row[flagColumn + 1] == Blank <==> interval.None?)
  }

  /** The row `list(data.values())` for the dictionary built at save time. */
  function BuildRow(form: FormValues, age: int, timeSinceTreatment: int,
                    toLocal: Option<int>, toRegional: Option<int>, toDistant: Option<int>): (r: Row)
    ensures |r| == 15
    ensures r[0] == Text(form.mrn) && r[1] == Int(age) && r[2] == Int(timeSinceTreatment)
    ensures SideEffectsCopied(r, form)
    ensures RecurrenceCells(r, LocalFlag, form.local, toLocal)
    ensures RecurrenceCells(r, RegionalFlag, form.regional, toRegional)
    ensures RecurrenceCells(r, DistantFlag, form.distant, toDistant)
  {
    var identity := [Text(form.mrn), Int(age), Int(timeSinceTreatment)];
    var sideEffects := [
      Text(form.radiodermatitis), Text(form.telangiectasia.Label()),
      Text(form.breastPain), Text(form.cosmeticOutcome),
      Text(form.breastShrinkage.Label()), Text(form.surgeryForCosmetics.Label())];
    var recurrences := [
      Text(form.local.flag.Label()), IntOrBlank(toLocal),
      Text(form.regional.flag.Label()), IntOrBlank(toRegional),
      Text(form.distant.flag.Label()), IntOrBlank(toDistant)];
    identity + sideEffects + recurrences
  }

  /** A flag cell and the interval cell it gates agree: the interval is
      empty exactly when the flag reads "No". */
  predicate Gated(row: Row, flag: nat, interval: nat)
    requires flag < |row| && interval < |row|
  {
    (row[flag] == Text("No") || row[flag] == Text("Yes"))
    && (row[interval] == Blank <==> row[flag] == Text("No"))
  }

  /** A saved row: 15 values, an integer age and treatment time, and every
      recurrence interval gated by its flag. */
  predicate RowWellFormed(row: Row) {
    && |row| == |Columns|
    && row[1].Int? && row[2].Int?
    && Gated(row, LocalFlag, LocalInterval)
    && Gated(row, RegionalFlag, RegionalInterval)
    && Gated(row, DistantFlag, DistantInterval)
  }

  /** The row carries the form's answers: its MRN first, the six
      side-effect answers, each flag's label, and in each gated slot the
      interval of that flag's own answer. */
  predicate RowMatchesForm(row: Row, form: FormValues) {
    && |row| == |Columns|
    && row[0] == Text(form.mrn)
    && SideEffectsCopied(row, form)
    && row[LocalFlag] == Text(form.local.flag.Label())
    && row[LocalInterval] == IntOrBlank(IntervalOf(form.lastRadiotherapy, form.local))
    && row[RegionalFlag] == Text(form.regional.flag.Label())
    && row[RegionalInterval] == IntOrBlank(IntervalOf(form.lastRadiotherapy, form.regional))
    && row[DistantFlag] == Text(form.distant.flag.Label())
    && row[DistantInterval] == IntOrBlank(IntervalOf(form.lastRadiotherapy, form.distant))
  }

  /** A row built from the intervals of the form's own answers is well formed. */
  lemma BuiltRowWellFormed(form: FormValues, age: int, timeSinceTreatment: int)
    ensures var row := BuildRow(form, age, timeSinceTreatment,
                                IntervalOf(form.lastRadiotherapy, form.local),
                                IntervalOf(form.lastRadiotherapy, form.regional),
                                IntervalOf(form.lastRadiotherapy, form.distant));
            RowWellFormed(row) && RowMatchesForm(row, form)
  {
  }

  /** The header names sit at the positions the model reads them from. */
  lemma ColumnPositions()
    ensures Columns[0] == "MRN" && Columns[1] == "Age" && Columns[2] == "Time_since_treatment"
    ensures Columns[LocalFlag] == "Local_recurrence" && Columns[LocalInterval] == "Time_to_local_recurrence"
    ensures Columns[RegionalFlag] == "Regional_recurrence" && Columns[RegionalInterval] == "Time_to_regional_recurrence"
    ensures Columns[DistantFlag] == "Distant_recurrence" && Columns[DistantInterval] == "Time_to_distant_recurrence"
  {
  }
}
