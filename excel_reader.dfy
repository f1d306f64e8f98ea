/**
 * Data_Pipeline/excel_reader.py: the earlier spreadsheet reader, with its
 * own item-column list, its demographics lookup and the column mapping it
 * records on the reader object.
 */
module ExcelReader {
  import opened Text
  import opened Table
  import opened Phq9
  import opened OrderedMap
  import ExcelFixed

  // --------------------------------------------------------- column labels

  /** `f` applied to every label, in order. */
  function Mapped(cols: seq<String>, f: String -> String): (r: seq<String>)
    ensures |r| == |cols|
    ensures forall i :: 0 <= i < |cols| ==> r[i] == f(cols[i])
  {
    if cols == [] then [] else Mapped(cols[..|cols| - 1], f) + [f(cols[|cols| - 1])]
  }

  /** Each `key(c)` mapped to `val(c)`, later labels last. */
  function MappingOf(cols: seq<String>, key: String -> String, val: String -> String): map<String, String> {
    if cols == [] then map[]
    else MappingOf(cols[..|cols| - 1], key, val)[key(cols[|cols| - 1]) := val(cols[|cols| - 1])]
  }

  /** One more label adds its transformed form at the end. */
  lemma MappedStep(cols: seq<String>, i: nat, f: String -> String)
    requires i < |cols|
    ensures Mapped(cols[..i + 1], f) == Mapped(cols[..i], f) + [f(cols[i])]
  {
    assert cols[..i + 1][..i] == cols[..i];
  }

  /** One more label records its key, overriding an earlier one. */
  lemma MappingStep(cols: seq<String>, i: nat, key: String -> String, val: String -> String)
    requires i < |cols|
    ensures MappingOf(cols[..i + 1], key, val) == MappingOf(cols[..i], key, val)[key(cols[i]) := val(cols[i])]
  {
    assert cols[..i + 1][..i] == cols[..i];
  }

  /** The mapping holds exactly the keys of the labels. */
  lemma {:induction false} MappingKeys(cols: seq<String>, key: String -> String, val: String -> String)
    ensures forall c :: c in MappingOf(cols, key, val) <==> exists i :: 0 <= i < |cols| && key(cols[i]) == c
  {
    if cols != [] {
      var init := cols[..|cols| - 1];
      var last := cols[|cols| - 1];
      MappingKeys(init, key, val);
      forall c | c in MappingOf(cols, key, val)
        ensures exists i :: 0 <= i < |cols| && key(cols[i]) == c
      {
        if c != key(last) {
          assert MappingOf(cols, key, val) == MappingOf(init, key, val)[key(last) := val(last)];
          assert c in MappingOf(init, key, val);
          var i :| 0 <= i < |init| && key(init[i]) == c;
          assert cols[i] == init[i];
        }
      }
      forall c | exists i :: 0 <= i < |cols| && key(cols[i]) == c
        ensures c in MappingOf(cols, key, val)
      {
        var i :| 0 <= i < |cols| && key(cols[i]) == c;
        if i < |init| {
          assert cols[i] == init[i];
        }
      }
    }
  }

  /** When labels with one key share their value, each key is sent to the value of its labels. */
  lemma {:induction false} MappingValues(cols: seq<String>, key: String -> String, val: String -> String, i: nat)
    requires i < |cols|
    requires forall a, b :: key(a) == key(b) ==> val(a) == val(b)
    ensures key(cols[i]) in MappingOf(cols, key, val) && MappingOf(cols, key, val)[key(cols[i])] == val(cols[i])
  {
    var init := cols[..|cols| - 1];
    if i < |init| {
      assert cols[i] == init[i];
      MappingValues(init, key, val, i);
    }
  }

  /** The standardized labels. */
  function StandardColumns(cols: seq<String>): seq<String> {
    Mapped(cols, ExcelFixed.StandardLabel)
  }

  /** `original_to_standard`: each stripped label sent to its lower-cased form. */
  function ColumnMapping(cols: seq<String>): map<String, String> {
    MappingOf(cols, Strip, ExcelFixed.StandardLabel)
  }

  /**
   * The recorded mapping holds exactly the stripped labels, and sends each
   * to the label it became.
   */
  lemma ColumnMappingCovers(cols: seq<String>, i: nat)
    requires i < |cols|
    ensures forall c :: c in ColumnMapping(cols) <==> exists j :: 0 <= j < |cols| && Strip(cols[j]) == c
    ensures Strip(cols[i]) in ColumnMapping(cols) && ColumnMapping(cols)[Strip(cols[i])] == StandardColumns(cols)[i]
  {
    MappingKeys(cols, Strip, ExcelFixed.StandardLabel);
    forall a, b | Strip(a) == Strip(b)
      ensures ExcelFixed.StandardLabel(a) == ExcelFixed.StandardLabel(b)
    {
    }
    MappingValues(cols, Strip, ExcelFixed.StandardLabel, i);
  }

  class Reader {
    /** `self.column_mapping`, recorded by the last `standardize_column_names`. */
    var columnMapping: map<String, String>

    constructor()
      ensures columnMapping == map[]
    {
      columnMapping := map[];
    }

    /** `standardize_column_names` on a frame's labels. */
    method StandardizeColumnNames(cols: seq<String>) returns (std: seq<String>)
      modifies this
      ensures std == StandardColumns(cols)
      ensures columnMapping == ColumnMapping(cols)
    {
      var mapping: map<String, String> := map[];
      std := [];
      var i := 0;
      while i < |cols|
        invariant 0 <= i <= |cols|
        invariant std == StandardColumns(cols[..i])
        invariant mapping == ColumnMapping(cols[..i])
      {
        MappedStep(cols, i, ExcelFixed.StandardLabel);
        MappingStep(cols, i, Strip, ExcelFixed.StandardLabel);
        var col := Strip(cols[i]);
        var lower := Lower(col);
        assert lower == ExcelFixed.StandardLabel(cols[i]);
        mapping := mapping[col := lower];
        std := std + [lower];
        i := i + 1;
      }
      assert cols[..|cols|] == cols;
      columnMapping := mapping;
    }
  }

  // ----------------------------------------------------------- PHQ-9 items

  /** `PHQ9_ITEM_COLUMNS`. */
  const ItemColumns: seq<String> := [
    "phq9_1", "phq9_2", "phq9_3", "phq9_4", "phq9_5", "phq9_6", "phq9_7", "phq9_8", "phq9_9",
    "item1", "item2", "item3", "item4", "item5", "item6", "item7", "item8", "item9",
    "q1", "q2", "q3", "q4", "q5", "q6", "q7", "q8", "q9"]

  /** A column is an item iff its label contains one of `PHQ9_ITEM_COLUMNS`. */
  predicate IsItemColumn(col: String) {
    ContainsAny(col, ItemColumns)
  }

  /** Each listed name contains `q` or `item`. */
  lemma ItemColumnCue(k: nat)
    requires k < |ItemColumns|
    ensures Contains(ItemColumns[k], "q") || Contains(ItemColumns[k], "item")
  {
    var p := ItemColumns[k];
    if k < 9 {
      assert p[2..3] == "q";
      ContainsAt(p, "q", 2);
    } else if k < 18 {
      assert p[0..4] == "item";
      ContainsAt(p, "item", 0);
    } else {
      assert p[0..1] == "q";
      ContainsAt(p, "q", 0);
    }
  }

  /** Every item column of this reader is an item column of the fixed reader too. */
  lemma ItemColumnsAgree(col: String)
    requires IsItemColumn(col)
    ensures ExcelFixed.IsItemColumn(col)
  {
    var k :| 0 <= k < |ItemColumns| && Contains(col, ItemColumns[k]);
    ItemColumnCue(k);
    if Contains(ItemColumns[k], "q") {
      ContainsTransitive(col, ItemColumns[k], "q");
    } else {
      ContainsTransitive(col, ItemColumns[k], "item");
    }
  }

  /** `extract_phq9_assessment`. */
  function AssessmentOfRow(row: Row): Option<Assessment> {
    AssessmentFrom(row, IsItemColumn)
  }

  // ------------------------------------------------------------ demographics

  const PatientIdKeys: seq<String> := ["patient_id", "id", "patientid", "pid", "患者id", "编号"]
  const AgeKeys: seq<String> := ["age", "年龄", "年纪", "岁数"]
  const GenderKeys: seq<String> := ["gender", "性别", "sex", "gender_code"]
  const OccupationKeys: seq<String> := ["occupation", "职业", "job", "工作"]
  const EducationKeys: seq<String> := ["education", "教育程度", "学历", "教育水平"]
  const MaritalKeys: seq<String> := ["marital_status", "婚姻状况", "婚姻状态", "marital"]
  const VisitDateKeys: seq<String> := ["visit_date", "date", "就诊日期", "assessment_date", "日期"]

  /** The field names of `PatientDemographics`. */
  const FieldNames: seq<String> := [
    "patient_id", "age", "gender", "occupation", "education", "marital_status", "visit_date", "other_info"]

  /** The cell of the first of `keys` present in the row, empty or not. */
  function FirstColumn(row: Row, keys: seq<String>): (r: Option<Cell>)
    ensures r.None? <==> forall k :: 0 <= k < |keys| ==> Get(row, keys[k]).None?
    ensures r.Some? ==> exists k :: 0 <= k < |keys| && Get(row, keys[k]) == r
  {
    if keys == [] then None
    else if Get(row, keys[0]).Some? then Get(row, keys[0])
    else
      assert forall k :: 1 <= k < |keys| ==> keys[k] == keys[1..][k - 1];
      FirstColumn(row, keys[1..])
  }

  /**
   * The patient id: the first id column present decides, even when its
   * cell is empty; "unknown" when that cell is empty or none is present.
   */
  function PatientIdOf(row: Row): (r: String)
    ensures r != []
  {
    match FirstColumn(row, PatientIdKeys)
    case Some(c) => if NotNa(c) && CellText(c) != [] then CellText(c) else "unknown"
    case None => "unknown"
  }

  /** A present but empty `patient_id` gives "unknown" even when `id` has a value. */
  lemma EmptyIdColumnStops(row: Row)
    requires Get(row, "patient_id") == Some(Missing)
    ensures PatientIdOf(row) == "unknown"
  {
  }

  /** An age cell: a number is itself, a text gives its first run of digits, or none. */
  function AgeValue(c: Cell): (r: Option<int>)
    ensures c.Str? && (forall k :: 0 <= k < |c.s| ==> !IsDigit(c.s[k])) ==> r.None?
  {
    match c
    case Num(n) => Some(n)
    case Str(s) =>
      if FirstDigit(s) == |s| then None else Some(ItemNumber(s))
    case Missing => None
  }

  /** "age 42 years" style text gives 42. */
  lemma AgeFromText(lead: String, n: nat, tail: String)
    requires forall k :: 0 <= k < |lead| ==> !IsDigit(lead[k])
    requires tail == [] || !IsDigit(tail[0])
    ensures AgeValue(Str(lead + NatToString(n) + tail)) == Some(n)
  {
    ItemNumberOf(lead, n, tail);
    var s := lead + NatToString(n) + tail;
    assert IsDigit(s[|lead|]);
  }

  function AgeOf(row: Row): Option<int> {
    match FirstPresent(row, AgeKeys)
    case None => None
    case Some(c) => AgeValue(c)
  }

  /** The non-empty cells of columns that are neither a field name nor an item column, in column order. */
  function OtherInfo(row: Row): (r: seq<(String, Cell)>)
    ensures |r| <= |row|
    ensures forall i :: 0 <= i < |r| ==> r[i].0 !in FieldNames && NotNa(r[i].1) && !IsItemColumn(r[i].0)
  {
    if row == [] then []
    else
      var init := OtherInfo(row[..|row| - 1]);
      var col := row[|row| - 1];
      if col.0 !in FieldNames && NotNa(col.1) && !IsItemColumn(col.0) then init + [col] else init
  }

  /** Every other non-empty column is kept in `other_info`. */
  lemma {:induction false} OtherInfoKeeps(row: Row, j: nat)
    requires j < |row| && row[j].0 !in FieldNames && NotNa(row[j].1) && !IsItemColumn(row[j].0)
    ensures row[j] in OtherInfo(row)
  {
    if j < |row| - 1 {
      assert row[..|row| - 1][j] == row[j];
      OtherInfoKeeps(row[..|row| - 1], j);
    }
  }

  method CollectOtherInfo(row: Row) returns (other: seq<(String, Cell)>)
    ensures other == OtherInfo(row)
  {
    other := [];
    var i := 0;
    while i < |row|
      invariant 0 <= i <= |row|
      invariant other == OtherInfo(row[..i])
    {
      assert row[..i + 1][..i] == row[..i];
      var col := row[i];
      if col.0 !in FieldNames && NotNa(col.1) && !IsItemColumn(col.0) {
        other := other + [col];
      }
      i := i + 1;
    }
    assert row[..|row|] == row;
  }

  /** `PatientDemographics`. */
  datatype PatientDemographics = PatientDemographics(patientId: String, fields: ExcelFixed.Demographics)

  /** `extract_demographics`. */
  function DemographicsOf(row: Row): PatientDemographics {
    PatientDemographics(PatientIdOf(row), ExcelFixed.Demographics(
      AgeOf(row), TextOf(FirstPresent(row, GenderKeys)), TextOf(FirstPresent(row, OccupationKeys)),
      TextOf(FirstPresent(row, EducationKeys)), TextOf(FirstPresent(row, MaritalKeys)),
      TextOf(FirstPresent(row, VisitDateKeys)), OtherInfo(row)))
  }

  method FindFirstColumn(row: Row, keys: seq<String>) returns (r: Option<Cell>)
    ensures r == FirstColumn(row, keys)
  {
    r := None;
    var i := 0;
    while i < |keys|
      invariant 0 <= i <= |keys|
      invariant FirstColumn(row, keys[i..]) == FirstColumn(row, keys)
    {
      assert keys[i..][0] == keys[i] && keys[i..][1..] == keys[i + 1..];
      var cell := Get(row, keys[i]);
      if cell.Some? {
        r := cell;
        return;
      }
      i := i + 1;
    }
  }

  method ExtractDemographics(row: Row) returns (d: PatientDemographics)
    ensures d == DemographicsOf(row)
  {
    var id := FindFirstColumn(row, PatientIdKeys);
    var patientId := "unknown";
    if id.Some? && NotNa(id.value) && CellText(id.value) != [] {
      patientId := CellText(id.value);
    }
    var age: Option<int> := None;
    var ageCell := FindFirst(row, AgeKeys);
    if ageCell.Some? {
      age := AgeValue(ageCell.value);
    }
    var gender := FindFirst(row, GenderKeys);
    var occupation := FindFirst(row, OccupationKeys);
    var education := FindFirst(row, EducationKeys);
    var marital := FindFirst(row, MaritalKeys);
    var visitDate := FindFirst(row, VisitDateKeys);
    var other := CollectOtherInfo(row);
    d := PatientDemographics(patientId, ExcelFixed.Demographics(
      age, TextOf(gender), TextOf(occupation), TextOf(education), TextOf(marital), TextOf(visitDate), other));
  }

  // ------------------------------------------------------ process_excel_data

  /** A frame as read: its labels and, per row, one cell per label. */
  datatype Frame = Frame(columns: seq<String>, cells: seq<seq<Cell>>)

  /** Labels paired with cells, as far as both go. */
  function RowOf(cols: seq<String>, cells: seq<Cell>): Row {
    var n := if |cols| < |cells| then |cols| else |cells|;
    seq(n, i requires 0 <= i < n => (cols[i], cells[i]))
  }

  /** The rows of the frame after `standardize_column_names`. */
  function FrameRows(f: Frame): seq<Row> {
    seq(|f.cells|, i requires 0 <= i < |f.cells| => RowOf(StandardColumns(f.columns), f.cells[i]))
  }

  /**
   * The patient id and record of one standardized row, or Raised when an
   * item or the total overflows and the loop skips the row.  Item cells are
   * read with `int(float(value))` here.
   */
  function RowEntry(row: Row): Outcome<(String, ExcelFixed.PatientData)> {
    match AssessmentOutcome(row, IsItemColumn, true)
    case Raised => Raised
    case Value(phq9) =>
      var d := DemographicsOf(row);
      Value((d.patientId, ExcelFixed.PatientData(d.fields, phq9)))
  }

  /** `process_excel_data`. */
  function PatientsOf(f: Frame): Dict<String, ExcelFixed.PatientData> {
    ExcelFixed.Filed(FrameRows(f), RowEntry)
  }

  /**
   * Every row of the frame that does not raise is filed under its patient
   * id and no other id appears; the record of an id is that of the last
   * such row with it.
   */
  lemma PatientsOfFrame(f: Frame, j: nat)
    requires j < |f.cells| && RowEntry(FrameRows(f)[j]).Value?
    requires forall k :: j < k < |f.cells| ==>
      RowEntry(FrameRows(f)[k]).Raised? || RowEntry(FrameRows(f)[k]).value.0 != RowEntry(FrameRows(f)[j]).value.0
    ensures var r := PatientsOf(f);
      (forall id :: id in r.entries <==>
        exists i :: 0 <= i < |f.cells| && RowEntry(FrameRows(f)[i]).Value? && RowEntry(FrameRows(f)[i]).value.0 == id) &&
      r.entries[RowEntry(FrameRows(f)[j]).value.0] == RowEntry(FrameRows(f)[j]).value.1
  {
    ExcelFixed.FiledKeys(FrameRows(f), RowEntry);
    ExcelFixed.LastRowWins(FrameRows(f), RowEntry, j);
  }

  /** `process_excel_data` on a reader: it also records the column mapping. */
  method ProcessExcelData(reader: Reader, f: Frame) returns (patients: Dict<String, ExcelFixed.PatientData>)
    modifies reader
    ensures reader.columnMapping == ColumnMapping(f.columns)
    ensures patients == PatientsOf(f)
  {
    var std := reader.StandardizeColumnNames(f.columns);
    ghost var rows := FrameRows(f);
    patients := Empty();
    var i := 0;
    while i < |f.cells|
      invariant 0 <= i <= |f.cells|
      invariant reader.columnMapping == ColumnMapping(f.columns)
      invariant patients == ExcelFixed.Filed(rows[..i], RowEntry)
    {
      ExcelFixed.FiledStep(rows, RowEntry, i);
      var r := ProcessFrameRow(std, f.cells[i]);
      assert RowOf(std, f.cells[i]) == rows[i];
      if r.Value? {
        patients := Put(patients, r.value.0, r.value.1);
      }
      i := i + 1;
    }
    ExcelFixed.FiledAll(rows, RowEntry);
  }

  /** One row of the loop: its id and record, or the exception that skips it. */
  method ProcessFrameRow(std: seq<String>, cells: seq<Cell>) returns (r: Outcome<(String, ExcelFixed.PatientData)>)
    ensures r == RowEntry(RowOf(std, cells))
  {
    var row := RowOf(std, cells);
    var d := ExtractDemographics(row);
    var phq9 := ExtractAssessment(row, IsItemColumn, true);
    if phq9.Raised? {
      return Raised;
    }
    r := Value((d.patientId, ExcelFixed.PatientData(d.fields, phq9.value)));
  }

  /** A row with an item cell that reads as an infinity is skipped, whatever else it holds. */
  lemma ItemOverflowSkipsRow(f: Frame, i: nat)
    requires i < |f.cells| && ItemOverflows(FrameRows(f)[i], IsItemColumn)
    ensures ExcelFixed.Filed(FrameRows(f)[..i + 1], RowEntry) == ExcelFixed.Filed(FrameRows(f)[..i], RowEntry)
  {
    var rows := FrameRows(f);
    ItemOverflowRaises(rows[i]);
    ExcelFixed.RaisedRowSkipped(rows, RowEntry, i);
  }

  lemma ItemOverflowRaises(row: Row)
    requires ItemOverflows(row, IsItemColumn)
    ensures RowEntry(row).Raised?
  {
  }
}
