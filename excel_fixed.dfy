/**
 * Data_Pipeline/excel_reader_fixed.py: spreadsheet rows turned into patient
 * records keyed by patient id, each with its demographics and its PHQ-9
 * assessment.
 */
module ExcelFixed {
  import opened Text
  import opened Table
  import opened OrderedMap
  import opened Phq9

  // --------------------------------------------------------- column labels

  /** `str(col).strip().lower()`. */
  function StandardLabel(col: String): (r: String)
    ensures |r| <= |col|
  {
    Lower(Strip(col))
  }

  /** Lower-casing keeps which characters are whitespace, so it commutes with stripping. */
  lemma {:induction false} LowerKeepsStripped(s: String)
    requires s == [] || (!IsSpace(s[0]) && !IsSpace(s[|s| - 1]))
    ensures Strip(Lower(s)) == Lower(s)
  {
    var l := Lower(s);
    if l != [] {
      assert l[0] == LowerChar(s[0]) && l[|l| - 1] == LowerChar(s[|s| - 1]);
    }
    StrippedIsFixed(l);
  }

  /** A text with no whitespace at either end is its own strip. */
  lemma StrippedIsFixed(s: String)
    requires s == [] || (!IsSpace(s[0]) && !IsSpace(s[|s| - 1]))
    ensures Strip(s) == s
  {
    StripOfStripped(s);
  }

  /** Standardizing a label twice is standardizing it once. */
  lemma StandardLabelIdempotent(col: String)
    ensures StandardLabel(StandardLabel(col)) == StandardLabel(col)
  {
    var t := Strip(col);
    LowerKeepsStripped(t);
    LowerIdempotent(t);
  }

  /** `df.columns = [...]` on one row: every label standardized, cells untouched. */
  function StandardizeRow(row: Row): (r: Row)
    ensures |r| == |row|
    ensures forall i :: 0 <= i < |row| ==> r[i].1 == row[i].1 && r[i].0 == StandardLabel(row[i].0)
  {
    seq(|row|, i requires 0 <= i < |row| => (StandardLabel(row[i].0), row[i].1))
  }

  /** `standardize_column_names` leaves standardized rows as they are. */
  lemma StandardizeRowIdempotent(row: Row)
    ensures StandardizeRow(StandardizeRow(row)) == StandardizeRow(row)
  {
    forall i | 0 <= i < |row|
      ensures StandardLabel(StandardLabel(row[i].0)) == StandardLabel(row[i].0)
    {
      StandardLabelIdempotent(row[i].0);
    }
  }

  // --------------------------------------------------------- patient info

  const PatientIdKeys: seq<String> := ["patient_id", "id", "patientid", "pid", "患者id", "编号"]
  const AgeKeys: seq<String> := ["age", "年龄", "年纪", "岁数"]
  const GenderKeys: seq<String> := ["gender", "性别", "sex", "gender_code"]
  const OccupationKeys: seq<String> := ["occupation", "职业", "job", "工作"]
  const VisitDateKeys: seq<String> := ["visit_date", "date", "就诊日期", "assessment_date", "日期"]

  /** The columns `other_info` leaves out: two of the id keys and every looked-up demographic key. */
  function Excluded(): seq<String> {
    ["patient_id", "id"] + AgeKeys + GenderKeys + OccupationKeys + VisitDateKeys
  }

  /** The demographics of a row; `education` and `marital_status` are never filled here. */
  datatype Demographics = Demographics(
    age: Option<int>, gender: Option<String>, occupation: Option<String>,
    education: Option<String>, maritalStatus: Option<String>, visitDate: Option<String>,
    otherInfo: seq<(String, Cell)>)

  datatype PatientInfo = PatientInfo(patientId: String, demographics: Demographics)

  /** The first id key with a value, as text; "unknown" when there is none or it prints empty. */
  function PatientIdOf(row: Row): (r: String)
    ensures r != []
    ensures (forall k :: 0 <= k < |PatientIdKeys| ==> !Usable(row, PatientIdKeys[k])) ==> r == "unknown"
  {
    match FirstPresent(row, PatientIdKeys)
    case None => "unknown"
    case Some(c) => if CellText(c) == [] then "unknown" else CellText(c)
  }

  /** `int(float(value))` of the first age key with a value; a value that does not read as a number gives none. */
  function AgeOf(row: Row): Option<int> {
    match FirstPresent(row, AgeKeys)
    case None => None
    case Some(c) => CellInt(c)
  }

  /** The age cell reads as an infinity, so `int(float(value))` raises OverflowError, which the age lookup does not catch. */
  predicate AgeRaises(row: Row) {
    FirstPresent(row, AgeKeys).Some? && Overflows(FirstPresent(row, AgeKeys).value)
  }

  /** The non-empty cells of the columns not excluded, in column order. */
  function OtherInfo(row: Row): (r: seq<(String, Cell)>)
    ensures |r| <= |row|
    ensures forall i :: 0 <= i < |r| ==> r[i].0 !in Excluded() && NotNa(r[i].1)
  {
    if row == [] then []
    else
      var init := OtherInfo(row[..|row| - 1]);
      var col := row[|row| - 1];
      if col.0 !in Excluded() && NotNa(col.1) then init + [col] else init
  }

  /** Every column that is not excluded and has a value is kept in `other_info`. */
  lemma {:induction false} OtherInfoKeeps(row: Row, j: nat)
    requires j < |row| && row[j].0 !in Excluded() && NotNa(row[j].1)
    ensures row[j] in OtherInfo(row)
  {
    if j < |row| - 1 {
      assert row[..|row| - 1][j] == row[j];
      OtherInfoKeeps(row[..|row| - 1], j);
    }
  }

  /** `extract_patient_info`. */
  function PatientInfoOf(row: Row): PatientInfo {
    PatientInfo(PatientIdOf(row), Demographics(
      AgeOf(row), TextOf(FirstPresent(row, GenderKeys)), TextOf(FirstPresent(row, OccupationKeys)),
      None, None, TextOf(FirstPresent(row, VisitDateKeys)), OtherInfo(row)))
  }

  method CollectOtherInfo(row: Row) returns (other: seq<(String, Cell)>)
    ensures other == OtherInfo(row)
  {
    other := [];
    var i := 0;
    while i < |row|
      invariant 0 <= i <= |row|
      invariant other == OtherInfo(row[..i])
    {
      assert row[..i + 1][..i] == row[..i];
      var col := row[i];
      if col.0 !in Excluded() && NotNa(col.1) {
        other := other + [col];
      }
      i := i + 1;
    }
    assert row[..|row|] == row;
  }

  method ExtractPatientInfo(row: Row) returns (info: Outcome<PatientInfo>)
    ensures info == if AgeRaises(row) then Raised else Value(PatientInfoOf(row))
  {
    var id := FindFirst(row, PatientIdKeys);
    var patientId := if id.Some? then CellText(id.value) else [];
    if patientId == [] {
      patientId := "unknown";
    }
    var age: Option<int> := None;
    var ageCell := FindFirst(row, AgeKeys);
    if ageCell.Some? {
      if Overflows(ageCell.value) {
        return Raised;
      }
      age := CellInt(ageCell.value);
    }
    var gender := FindFirst(row, GenderKeys);
    var occupation := FindFirst(row, OccupationKeys);
    var visitDate := FindFirst(row, VisitDateKeys);
    var other := CollectOtherInfo(row);
    info := Value(PatientInfo(patientId, Demographics(age, TextOf(gender), TextOf(occupation), None, None, TextOf(visitDate), other)));
  }

  /** A row with a non-empty `patient_id` cell is filed under that text. */
  lemma PatientIdColumn(row: Row)
    requires Usable(row, "patient_id") && CellText(Get(row, "patient_id").value) != []
    ensures PatientIdOf(row) == CellText(Get(row, "patient_id").value)
  {
    FirstPresentSkips(row, PatientIdKeys, 0);
  }

  /** A missing or empty `patient_id` passes the lookup on to `id`. */
  lemma IdColumnFallback(row: Row)
    requires !Usable(row, "patient_id") && Usable(row, "id") && CellText(Get(row, "id").value) != []
    ensures PatientIdOf(row) == CellText(Get(row, "id").value)
  {
    IdKeysHead();
    SecondKeyFirst(row, PatientIdKeys);
  }

  /** When the first key is not usable and the second is, the lookup yields the second. */
  lemma SecondKeyFirst(row: Row, keys: seq<String>)
    requires |keys| > 1 && !Usable(row, keys[0]) && Usable(row, keys[1])
    ensures FirstPresent(row, keys) == Get(row, keys[1])
  {
    FirstPresentSkips(row, keys, 1);
  }

  lemma IdKeysHead()
    ensures |PatientIdKeys| > 1 && PatientIdKeys[0] == "patient_id" && PatientIdKeys[1] == "id"
  {
  }

  // ----------------------------------------------------------- PHQ-9 items

  /** An item column of this reader: its label contains `phq9_`, `item` or `q`. */
  predicate IsItemColumn(col: String) {
    Contains(col, "phq9_") || Contains(col, "item") || Contains(col, "q")
  }

  /** `extract_phq9_assessment`. */
  function AssessmentOfRow(row: Row): Option<Assessment> {
    AssessmentFrom(row, IsItemColumn)
  }

  // ------------------------------------------------------ process_excel_data

  /** What a patient id maps to. */
  datatype PatientData = PatientData(demographics: Demographics, phq9: Option<Assessment>)

  /**
   * The patient id and record of one row, after its labels are standardized,
   * or Raised when the age or the total overflows and the loop skips the row.
   */
  function RowEntry(row: Row): Outcome<(String, PatientData)> {
    var std := StandardizeRow(row);
    if AgeRaises(std) then Raised
    else match AssessmentOutcome(std, IsItemColumn, false)
      case Raised => Raised
      case Value(phq9) =>
        var info := PatientInfoOf(std);
        Value((info.patientId, PatientData(info.demographics, phq9)))
  }

  /** Every row's entry stored under its key, a later row replacing an earlier one; a row that raises is skipped. */
  function Filed<V>(rows: seq<Row>, entry: Row -> Outcome<(String, V)>): (r: Dict<String, V>)
    ensures r.Valid()
  {
    if |rows| == 0 then Empty()
    else
      var init := Filed(rows[..|rows| - 1], entry);
      match entry(rows[|rows| - 1])
      case Raised => init
      case Value(e) => Put(init, e.0, e.1)
  }

  /** A row that raises leaves what the rows before it filed unchanged. */
  lemma RaisedRowSkipped<V>(rows: seq<Row>, entry: Row -> Outcome<(String, V)>, i: nat)
    requires i < |rows| && entry(rows[i]).Raised?
    ensures Filed(rows[..i + 1], entry) == Filed(rows[..i], entry)
  {
    FiledStep(rows, entry, i);
  }

  /** Filing one more row puts its entry into what the rows before it gave, unless it raises. */
  lemma FiledStep<V>(rows: seq<Row>, entry: Row -> Outcome<(String, V)>, i: nat)
    requires i < |rows|
    ensures Filed(rows[..i + 1], entry) ==
      if entry(rows[i]).Raised? then Filed(rows[..i], entry)
      else Put(Filed(rows[..i], entry), entry(rows[i]).value.0, entry(rows[i]).value.1)
  {
    assert rows[..i + 1][..i] == rows[..i];
    assert rows[..i + 1][i] == rows[i];
  }

  lemma FiledAll<V>(rows: seq<Row>, entry: Row -> Outcome<(String, V)>)
    ensures Filed(rows[..|rows|], entry) == Filed(rows, entry)
  {
    assert rows[..|rows|] == rows;
  }

  /** `process_excel_data`. */
  function PatientsOf(rows: seq<Row>): Dict<String, PatientData> {
    Filed(rows, RowEntry)
  }

  /** One row of the loop: its id and record, or the exception that skips it. */
  method ProcessRow(row: Row) returns (r: Outcome<(String, PatientData)>)
    ensures r == RowEntry(row)
  {
    var std := StandardizeRow(row);
    var info := ExtractPatientInfo(std);
    if info.Raised? {
      return Raised;
    }
    var phq9 := ExtractAssessment(std, IsItemColumn, false);
    if phq9.Raised? {
      return Raised;
    }
    r := Value((info.value.patientId, PatientData(info.value.demographics, phq9.value)));
  }

  method ProcessExcelData(rows: seq<Row>) returns (patients: Dict<String, PatientData>)
    ensures patients == PatientsOf(rows)
  {
    patients := Empty();
    var i := 0;
    while i < |rows|
      invariant 0 <= i <= |rows|
      invariant patients == Filed(rows[..i], RowEntry)
    {
      FiledStep(rows, RowEntry, i);
      var r := ProcessRow(rows[i]);
      if r.Value? {
        patients := Put(patients, r.value.0, r.value.1);
      }
      i := i + 1;
    }
    FiledAll(rows, RowEntry);
  }

  /** The keys are exactly those of the rows that do not raise. */
  lemma {:induction false} FiledKeys<V>(rows: seq<Row>, entry: Row -> Outcome<(String, V)>)
    ensures forall id :: id in Filed(rows, entry).entries <==>
      exists j :: 0 <= j < |rows| && entry(rows[j]).Value? && entry(rows[j]).value.0 == id
  {
    if rows != [] {
      var init := rows[..|rows| - 1];
      var last := entry(rows[|rows| - 1]);
      FiledKeys(init, entry);
      forall id | id in Filed(rows, entry).entries
        ensures exists j :: 0 <= j < |rows| && entry(rows[j]).Value? && entry(rows[j]).value.0 == id
      {
        if last.Raised? || id != last.value.0 {
          var j :| 0 <= j < |init| && entry(init[j]).Value? && entry(init[j]).value.0 == id;
          assert rows[j] == init[j];
        }
      }
      forall id | exists j :: 0 <= j < |rows| && entry(rows[j]).Value? && entry(rows[j]).value.0 == id
        ensures id in Filed(rows, entry).entries
      {
        var j :| 0 <= j < |rows| && entry(rows[j]).Value? && entry(rows[j]).value.0 == id;
        if j < |rows| - 1 {
          assert init[j] == rows[j];
        }
      }
    }
  }

  /** The entry under a key is that of the last row with that key that does not raise. */
  lemma {:induction false} LastRowWins<V>(rows: seq<Row>, entry: Row -> Outcome<(String, V)>, j: nat)
    requires j < |rows| && entry(rows[j]).Value?
    requires forall k :: j < k < |rows| ==> entry(rows[k]).Raised? || entry(rows[k]).value.0 != entry(rows[j]).value.0
    ensures var r := Filed(rows, entry);
      entry(rows[j]).value.0 in r.entries && r.entries[entry(rows[j]).value.0] == entry(rows[j]).value.1
  {
    if j < |rows| - 1 {
      var init := rows[..|rows| - 1];
      assert init[j] == rows[j];
      forall k | j < k < |init|
        ensures entry(init[k]).Raised? || entry(init[k]).value.0 != entry(init[j]).value.0
      {
        assert init[k] == rows[k];
      }
      LastRowWins(init, entry, j);
    }
  }

  /**
   * `process_excel_data` files every row under its patient id, and the
   * record of an id is that of the last row with it; a row on which the
   * age or the total overflows is skipped and leaves no key.
   */
  lemma PatientsOfRows(rows: seq<Row>, j: nat)
    requires j < |rows| && RowEntry(rows[j]).Value?
    requires forall k :: j < k < |rows| ==> RowEntry(rows[k]).Raised? || RowEntry(rows[k]).value.0 != RowEntry(rows[j]).value.0
    ensures var r := PatientsOf(rows);
      (forall id :: id in r.entries <==> exists i :: 0 <= i < |rows| && RowEntry(rows[i]).Value? && RowEntry(rows[i]).value.0 == id) &&
      r.entries[RowEntry(rows[j]).value.0] == RowEntry(rows[j]).value.1
  {
    FiledKeys(rows, RowEntry);
    LastRowWins(rows, RowEntry, j);
  }

  /** A row whose first usable age cell reads as an infinity is skipped. */
  lemma AgeOverflowSkipsRow(rows: seq<Row>, i: nat)
    requires i < |rows| && AgeRaises(StandardizeRow(rows[i]))
    ensures PatientsOf(rows[..i + 1]) == PatientsOf(rows[..i])
  {
    FiledStep(rows, RowEntry, i);
  }
}
