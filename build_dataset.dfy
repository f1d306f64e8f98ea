/**
 * The dataset builder of processed_data/build_dataset_adult.py: where the
 * dialogue starts in a transcript body, the GAD-7 / PHQ-9 item sums read
 * from the score sheet, the patient record with its visit ids, and the
 * per-run success / failure accounting.
 */
module BuildDataset {
  import opened Text
  import opened Table
  import opened Dialogue
  import Keywords
  import FileTitle

  /** The exceptions `build_patient` can raise for one transcript. */
  datatype Failure =
    | TitleMismatch(stem: String)    // ValueError from `_parse_file_title`
    | MissingColumn(column: String)  // KeyError from `df[...]` / `row[...]`
    | NoItemColumn(prefix: String)   // StopIteration from `next(...)`
    | NotAnInteger(column: String)   // ValueError from `int(row[col])`

  datatype Result<T> = Ok(value: T) | Err(error: Failure)

  // ------------------------------------------------------------ dialogue

  const DoctorTag: String := "【D】"
  const DoctorLabel: String := "[医生]"
  const PatientTag: String := "【P】"

  /** Where the dialogue starts: the first `【D】`, else `[医生]`, else `【P】`. */
  function BodyStart(body: String): (r: Option<nat>)
    ensures r.Some? ==> r.value <= |body|
  {
    match Find(body, DoctorTag)
    case Some(k) => Some(k)
    case None =>
      match Find(body, DoctorLabel)
      case Some(k) => Some(k)
      case None => Find(body, PatientTag)
  }

  /** The dialogue text of a body: from the start marker on, trimmed. */
  function DialogueContent(body: String): String {
    match BodyStart(body)
    case Some(k) => Strip(body[k..])
    case None => Strip(body)
  }

  /** What `parse_dialogue` returns for a transcript. */
  datatype DialogueRecord = DialogueRecord(
    keywords: Option<seq<String>>,
    visitContents: seq<String>,
    visitTurns: seq<seq<Turn>>)

  function DialogueOf(text: String): (d: DialogueRecord)
    ensures |d.visitTurns| == |d.visitContents|
  {
    var contents := VisitSegments(DialogueContent(Keywords.BodyOf(text)));
    DialogueRecord(
      Keywords.KeywordsOf(text),
      contents,
      seq(|contents|, i requires 0 <= i < |contents| => TurnsOf(contents[i])))
  }

  lemma MarkerSurvivesStrip(s: String, k: nat, p: String)
    requires p in {DoctorTag, DoctorLabel, PatientTag}
    requires k + |p| <= |s| && s[k..k + |p|] == p
    ensures StartsWith(Strip(s[k..]), p)
  {
    assert s[k..][..|p|] == p;
    StripKeepsPrefix(s[k..], p);
  }

  /**
   * The dialogue content starts with the highest-priority marker the body
   * contains, `【D】` before `[医生]` before `【P】`, wherever the others
   * occur; a body with none of them is kept whole.
   */
  lemma ContentStartsAtMarker(body: String)
    ensures Contains(body, DoctorTag) ==> StartsWith(DialogueContent(body), DoctorTag)
    ensures !Contains(body, DoctorTag) && Contains(body, DoctorLabel) ==>
      StartsWith(DialogueContent(body), DoctorLabel)
    ensures !Contains(body, DoctorTag) && !Contains(body, DoctorLabel) && Contains(body, PatientTag) ==>
      StartsWith(DialogueContent(body), PatientTag)
    ensures !Contains(body, DoctorTag) && !Contains(body, DoctorLabel) && !Contains(body, PatientTag) ==>
      DialogueContent(body) == Strip(body)
  {
    var d := Find(body, DoctorTag);
    if d.Some? {
      ContentFrom(body, DoctorTag, d.value);
      return;
    }
    var l := Find(body, DoctorLabel);
    if l.Some? {
      ContentFrom(body, DoctorLabel, l.value);
      return;
    }
    var t := Find(body, PatientTag);
    if t.Some? {
      ContentFrom(body, PatientTag, t.value);
    }
  }

  /** One case of `ContentStartsAtMarker`: the content starts where its marker was found. */
  lemma ContentFrom(body: String, p: String, k: nat)
    requires p in {DoctorTag, DoctorLabel, PatientTag}
    requires Find(body, p) == Some(k) && BodyStart(body) == Some(k)
    ensures StartsWith(DialogueContent(body), p)
  {
    MarkerSurvivesStrip(body, k, p);
  }

  // -------------------------------------------------------------- scales

  /** The score sheet: its column labels and its rows. */
  datatype Frame = Frame(columns: seq<String>, rows: seq<Row>)

  const IdColumn: String := "序号"
  const SelfRole: String := "self"
  const GadLetter: char := 'G'
  const PhqLetter: char := 'P'

  /** The label prefix of item `i` of the scale written with `letter`. */
  function ItemPrefix(letter: char, i: nat): String {
    [letter] + NatToString(i) + ". 在过去2个星期"
  }

  /** `next(c for c in columns[from..] if c.startswith(prefix))`. */
  function FirstColumnFrom(cols: seq<String>, prefix: String, from: nat): (r: Option<nat>)
    requires from <= |cols|
    ensures r.Some? ==> from <= r.value < |cols| && StartsWith(cols[r.value], prefix)
    ensures r.Some? ==> forall k :: from <= k < r.value ==> !StartsWith(cols[k], prefix)
    ensures r.None? ==> forall k :: from <= k < |cols| ==> !StartsWith(cols[k], prefix)
    decreases |cols| - from
  {
    if from == |cols| then None
    else if StartsWith(cols[from], prefix) then Some(from)
    else FirstColumnFrom(cols, prefix, from + 1)
  }

  /** `int(row[col])` for the first column carrying item `i`'s prefix. */
  function ItemCell(f: Frame, row: Row, letter: char, i: nat): Result<int> {
    var prefix := ItemPrefix(letter, i);
    match FirstColumnFrom(f.columns, prefix, 0)
    case None => Err(NoItemColumn(prefix))
    case Some(k) =>
      var col := f.columns[k];
      match Get(row, col)
      case None => Err(MissingColumn(col))
      case Some(c) =>
        match CellInt(c)
        case None => Err(NotAnInteger(col))
        case Some(v) => Ok(v)
  }

  /** The items of one scale of one row, by number. */
  function ItemCells(f: Frame, row: Row, letter: char): nat -> Result<int> {
    (i: nat) => ItemCell(f, row, letter, i)
  }

  /** Items 1..k of a scale, read in order by `cell`; the first failure stops. */
  function ItemsUpTo(cell: nat -> Result<int>, k: nat): (r: Result<seq<int>>)
    ensures r.Ok? ==> |r.value| == k
  {
    if k == 0 then Ok([])
    else
      match ItemsUpTo(cell, k - 1)
      case Err(e) => Err(e)
      case Ok(xs) =>
        match cell(k)
        case Err(e) => Err(e)
        case Ok(v) => Ok(xs + [v])
  }

  datatype Scale = Scale(items: seq<int>, total: int)

  function ScaleOf(f: Frame, row: Row, letter: char, n: nat): Result<Scale> {
    match ItemsUpTo(ItemCells(f, row, letter), n)
    case Err(e) => Err(e)
    case Ok(xs) => Ok(Scale(xs, Sum(xs)))
  }

  /** One entry of `parse_scales`: both questionnaires of one sheet row. */
  datatype ScaleRecord = ScaleRecord(respondentRole: String, gad7: Scale, phq9: Scale)

  /** The record reader of a sheet. */
  function Records(f: Frame): Row -> Result<ScaleRecord> {
    row => RecordOf(f, row)
  }

  function RecordOf(f: Frame, row: Row): Result<ScaleRecord> {
    match ScaleOf(f, row, GadLetter, 7)
    case Err(e) => Err(e)
    case Ok(g) =>
      match ScaleOf(f, row, PhqLetter, 9)
      case Err(e) => Err(e)
      case Ok(p) => Ok(ScaleRecord(SelfRole, g, p))
  }

  /** `df["序号"].isin(ids)` for one row. */
  predicate IdSelected(row: Row, ids: seq<nat>) {
    match Get(row, IdColumn)
    case Some(Num(n)) => n >= 0 && n as nat in ids
    case _ => false
  }

  /** The rows whose `序号` is one of `ids`, in sheet order. */
  function SelectRows(rows: seq<Row>, ids: seq<nat>): (r: seq<Row>)
    ensures |r| <= |rows|
    ensures forall k :: 0 <= k < |r| ==> IdSelected(r[k], ids)
  {
    if |rows| == 0 then []
    else (if IdSelected(rows[0], ids) then [rows[0]] else []) + SelectRows(rows[1..], ids)
  }

  /** The records of `rows[..k]`, in order; the first failure stops. */
  function ScalesUpTo(record: Row -> Result<ScaleRecord>, rows: seq<Row>, k: nat): (r: Result<seq<ScaleRecord>>)
    requires k <= |rows|
    ensures r.Ok? ==> |r.value| == k
  {
    if k == 0 then Ok([])
    else
      match ScalesUpTo(record, rows, k - 1)
      case Err(e) => Err(e)
      case Ok(xs) =>
        match record(rows[k - 1])
        case Err(e) => Err(e)
        case Ok(x) => Ok(xs + [x])
  }

  /** What `parse_scales(df, ids)` returns, or the exception it raises. */
  function ScalesOf(f: Frame, ids: seq<nat>): Result<seq<ScaleRecord>> {
    if IdColumn !in f.columns then Err(MissingColumn(IdColumn))
    else
      var rows := SelectRows(f.rows, ids);
      ScalesUpTo(Records(f), rows, |rows|)
  }

  /** Once reading the items has failed, reading more keeps that failure. */
  lemma {:induction false} ItemsFailureStays(cell: nat -> Result<int>, k: nat, n: nat)
    requires k <= n && ItemsUpTo(cell, k).Err?
    ensures ItemsUpTo(cell, n) == ItemsUpTo(cell, k)
    decreases n
  {
    if k < n {
      ItemsFailureStays(cell, k, n - 1);
    }
  }

  /** Once a row has failed, later rows are never read. */
  lemma {:induction false} ScalesFailureStays(record: Row -> Result<ScaleRecord>, rows: seq<Row>, k: nat, n: nat)
    requires k <= n <= |rows| && ScalesUpTo(record, rows, k).Err?
    ensures ScalesUpTo(record, rows, n) == ScalesUpTo(record, rows, k)
    decreases n
  {
    if k < n {
      ScalesFailureStays(record, rows, k, n - 1);
    }
  }

  /** The inner loop of `parse_scales`: one questionnaire of one row. */
  method ReadScale(f: Frame, row: Row, letter: char, n: nat) returns (r: Result<Scale>)
    ensures r == ScaleOf(f, row, letter, n)
  {
    var items := ReadItems(ItemCells(f, row, letter), n);
    if items.Err? {
      return Err(items.error);
    }
    return Ok(Scale(items.value, Sum(items.value)));
  }

  /** Items 1..n, read in order by `cell`, stopping at the first failure. */
  method ReadItems(cell: nat -> Result<int>, n: nat) returns (r: Result<seq<int>>)
    ensures r == ItemsUpTo(cell, n)
  {
    var items: seq<int> := [];
    var i := 1;
    while i <= n
      invariant 1 <= i <= n + 1
      invariant ItemsUpTo(cell, i - 1) == Ok(items)
    {
      var c := cell(i);
      if c.Err? {
        ItemsFailureStays(cell, i, n);
        return Err(c.error);
      }
      items := items + [c.value];
      i := i + 1;
    }
    return Ok(items);
  }

  /** The body of the row loop of `parse_scales`. */
  method ReadRecord(f: Frame, row: Row) returns (r: Result<ScaleRecord>)
    ensures r == RecordOf(f, row)
  {
    var g := ReadScale(f, row, GadLetter, 7);
    if g.Err? {
      return Err(g.error);
    }
    var p := ReadScale(f, row, PhqLetter, 9);
    if p.Err? {
      return Err(p.error);
    }
    return Ok(ScaleRecord(SelfRole, g.value, p.value));
  }

  method ParseScales(f: Frame, ids: seq<nat>) returns (r: Result<seq<ScaleRecord>>)
    ensures r == ScalesOf(f, ids)
  {
    if IdColumn !in f.columns {
      return Err(MissingColumn(IdColumn));
    }
    var rows := SelectRows(f.rows, ids);
    var results: seq<ScaleRecord> := [];
    var j := 0;
    while j < |rows|
      invariant j <= |rows|
      invariant ScalesUpTo(Records(f), rows, j) == Ok(results)
    {
      var x := ReadRecord(f, rows[j]);
      if x.Err? {
        ScalesFailureStays(Records(f), rows, j + 1, |rows|);
        return Err(x.error);
      }
      results := results + [x.value];
      j := j + 1;
    }
    return Ok(results);
  }

  /** Item `j + 1` of a scale is the integer under its own column. */
  lemma {:induction false} ItemIsCell(cell: nat -> Result<int>, k: nat, j: nat)
    requires j < k && ItemsUpTo(cell, k).Ok?
    ensures cell(j + 1) == Ok(ItemsUpTo(cell, k).value[j])
  {
    if j < k - 1 {
      ItemIsCell(cell, k - 1, j);
    }
  }

  /** One unreadable item makes the whole scale fail; nothing is zero-filled. */
  lemma {:induction false} BadItemFails(cell: nat -> Result<int>, k: nat, i: nat)
    requires 1 <= i <= k && cell(i).Err?
    ensures ItemsUpTo(cell, k).Err?
  {
    if i < k {
      BadItemFails(cell, k - 1, i);
    }
  }

  lemma {:induction false} RecordIsRow(record: Row -> Result<ScaleRecord>, rows: seq<Row>, k: nat, j: nat)
    requires j < k <= |rows| && ScalesUpTo(record, rows, k).Ok?
    ensures record(rows[j]) == Ok(ScalesUpTo(record, rows, k).value[j])
  {
    if j < k - 1 {
      RecordIsRow(record, rows, k - 1, j);
    }
  }

  lemma {:induction false} BadRowFails(record: Row -> Result<ScaleRecord>, rows: seq<Row>, k: nat, j: nat)
    requires j < k <= |rows| && record(rows[j]).Err?
    ensures ScalesUpTo(record, rows, k).Err?
  {
    if j < k - 1 {
      BadRowFails(record, rows, k - 1, j);
    }
  }

  predicate WellFormedRecord(x: ScaleRecord) {
    && x.respondentRole == SelfRole
    && |x.gad7.items| == 7 && x.gad7.total == Sum(x.gad7.items)
    && |x.phq9.items| == 9 && x.phq9.total == Sum(x.phq9.items)
  }

  lemma RecordShape(f: Frame, row: Row)
    ensures RecordOf(f, row).Ok? ==> WellFormedRecord(RecordOf(f, row).value)
  {
  }

  /**
   * A successful `parse_scales` gives one record per selected row, each
   * with exactly 7 GAD-7 and 9 PHQ-9 items whose totals are their sums,
   * every item read from the row's own item column.
   */
  lemma ScalesShape(f: Frame, ids: seq<nat>)
    ensures var r := ScalesOf(f, ids);
      r.Ok? ==>
        && |r.value| == |SelectRows(f.rows, ids)|
        && forall j :: 0 <= j < |r.value| ==>
          && WellFormedRecord(r.value[j])
          && RecordOf(f, SelectRows(f.rows, ids)[j]) == Ok(r.value[j])
  {
    if IdColumn in f.columns {
      var rows := SelectRows(f.rows, ids);
      forall j | 0 <= j < |rows| && ScalesOf(f, ids).Ok?
        ensures WellFormedRecord(ScalesOf(f, ids).value[j])
        ensures RecordOf(f, rows[j]) == Ok(ScalesOf(f, ids).value[j])
      {
        RecordIsRow(Records(f), rows, |rows|, j);
        RecordShape(f, rows[j]);
      }
    }
  }

  /**
   * A GAD-7 or PHQ-9 item with no column makes `parse_scales` raise as soon
   * as one row is selected; with no row selected the missing column is
   * never looked for.
   */
  lemma MissingItemColumn(f: Frame, ids: seq<nat>, letter: char, n: nat, i: nat)
    requires (letter, n) in {(GadLetter, 7), (PhqLetter, 9)} && 1 <= i <= n
    requires forall k :: 0 <= k < |f.columns| ==> !StartsWith(f.columns[k], ItemPrefix(letter, i))
    ensures IdColumn in f.columns && SelectRows(f.rows, ids) != [] ==> ScalesOf(f, ids).Err?
    ensures IdColumn in f.columns && SelectRows(f.rows, ids) == [] ==> ScalesOf(f, ids) == Ok([])
  {
    var rows := SelectRows(f.rows, ids);
    if IdColumn in f.columns && rows != [] {
      assert ItemCell(f, rows[0], letter, i).Err?;
      BadItemFails(ItemCells(f, rows[0], letter), n, i);
      BadRowFails(Records(f), rows, |rows|, 0);
    }
  }

  /** Every item of a read record is the integer under its own column. */
  lemma RecordItemsAreCells(f: Frame, row: Row)
    ensures var r := RecordOf(f, row);
      r.Ok? ==>
        && (forall j :: 0 <= j < 7 ==> ItemCell(f, row, GadLetter, j + 1) == Ok(r.value.gad7.items[j]))
        && (forall j :: 0 <= j < 9 ==> ItemCell(f, row, PhqLetter, j + 1) == Ok(r.value.phq9.items[j]))
  {
    if RecordOf(f, row).Ok? {
      forall j | 0 <= j < 7 {
        ItemIsCell(ItemCells(f, row, GadLetter), 7, j);
      }
      forall j | 0 <= j < 9 {
        ItemIsCell(ItemCells(f, row, PhqLetter), 9, j);
      }
    }
  }

  // ------------------------------------------------------------- patient

  /** `f"P-{first:06d}"`. */
  function PatientId(first: nat): String {
    "P-" + ZeroPad6(first)
  }

  /** `f"V-{first:06d}-{n}"`. */
  function VisitId(first: nat, n: nat): String {
    "V-" + ZeroPad6(first) + "-" + NatToString(n)
  }

  datatype Visit = Visit(visitId: String, sourceFile: String, content: String, turns: seq<Turn>)

  /** Visit `i` of a transcript; a visit without parsed turns gets none. */
  function VisitAt(first: nat, fileName: String, d: DialogueRecord, i: nat): Visit
    requires i < |d.visitContents|
  {
    Visit(VisitId(first, i + 1), fileName, d.visitContents[i],
      if i < |d.visitTurns| then d.visitTurns[i] else [])
  }

  function VisitsUpTo(first: nat, fileName: String, d: DialogueRecord, k: nat): (r: seq<Visit>)
    requires k <= |d.visitContents|
    ensures |r| == k
  {
    if k == 0 then [] else VisitsUpTo(first, fileName, d, k - 1) + [VisitAt(first, fileName, d, k - 1)]
  }

  /** The visit loop of `build_patient`. */
  method BuildVisits(first: nat, fileName: String, d: DialogueRecord) returns (visits: seq<Visit>)
    ensures visits == VisitsUpTo(first, fileName, d, |d.visitContents|)
  {
    visits := [];
    var i := 0;
    while i < |d.visitContents|
      invariant i <= |d.visitContents|
      invariant visits == VisitsUpTo(first, fileName, d, i)
    {
      var turns := if i < |d.visitTurns| then d.visitTurns[i] else [];
      visits := visits + [Visit(VisitId(first, i + 1), fileName, d.visitContents[i], turns)];
      i := i + 1;
    }
  }

  /** A patient record; the optional keys are None when `build_patient` leaves them out. */
  datatype PatientRecord = PatientRecord(
    patientId: String,
    name: String,
    scales: seq<ScaleRecord>,
    visits: seq<Visit>,
    gender: Option<String>,
    age: Option<nat>,
    keywords: Option<seq<String>>)

  /** A transcript file: its path, file name, stem and text. */
  datatype SourceFile = SourceFile(path: String, name: String, stem: String, text: String)

  /** `if dialogue["keywords"]`: only a non-empty list is kept. */
  function KeptKeywords(k: Option<seq<String>>): Option<seq<String>> {
    if k.Some? && k.value != [] then k else None
  }

  /** What `build_patient` returns for one transcript, or what it raises. */
  function PatientOf(f: Frame, file: SourceFile): Result<PatientRecord> {
    match FileTitle.ParseFileTitle(file.stem)
    case None => Err(TitleMismatch(file.stem))
    case Some((ids, meta)) =>
      var d := DialogueOf(file.text);
      match ScalesOf(f, ids)
      case Err(e) => Err(e)
      case Ok(scales) =>
        Ok(PatientRecord(PatientId(ids[0]), meta.name, scales,
          VisitsUpTo(ids[0], file.name, d, |d.visitContents|),
          meta.gender, meta.age, KeptKeywords(d.keywords)))
  }

  method BuildPatient(f: Frame, file: SourceFile) returns (r: Result<PatientRecord>)
    ensures r == PatientOf(f, file)
  {
    var title := FileTitle.ParseFileTitle(file.stem);
    if title.None? {
      return Err(TitleMismatch(file.stem));
    }
    var (ids, meta) := title.value;
    var d := DialogueOf(file.text);
    var scales := ParseScales(f, ids);
    if scales.Err? {
      return Err(scales.error);
    }
    var visits := BuildVisits(ids[0], file.name, d);
    return Ok(PatientRecord(PatientId(ids[0]), meta.name, scales.value, visits,
      meta.gender, meta.age, KeptKeywords(d.keywords)));
  }

  lemma {:induction false} VisitAtIndex(first: nat, fileName: String, d: DialogueRecord, k: nat, i: nat)
    requires i < k <= |d.visitContents|
    ensures VisitsUpTo(first, fileName, d, k)[i] == VisitAt(first, fileName, d, i)
  {
    if i < k - 1 {
      VisitAtIndex(first, fileName, d, k - 1, i);
    }
  }

  /**
   * A patient gets one visit per dialogue segment, in order: visit `i` has
   * id `V-{first:06d}-{i+1}`, the segment's text and that segment's turns;
   * the patient id, name, gender and age come from the file name.
   */
  lemma PatientVisits(f: Frame, file: SourceFile, ids: seq<nat>, meta: FileTitle.Meta)
    requires FileTitle.ParseFileTitle(file.stem) == Some((ids, meta))
    requires ScalesOf(f, ids).Ok?
    ensures PatientOf(f, file).Ok?
    ensures var p := PatientOf(f, file).value;
      var segs := VisitSegments(DialogueContent(Keywords.BodyOf(file.text)));
      && p.patientId == PatientId(ids[0])
      && p.name == meta.name && p.gender == meta.gender && p.age == meta.age
      && p.scales == ScalesOf(f, ids).value
      && |p.visits| == |segs|
      && forall i :: 0 <= i < |segs| ==>
        p.visits[i] == Visit(VisitId(ids[0], i + 1), file.name, segs[i], TurnsOf(segs[i]))
  {
    var d := DialogueOf(file.text);
    var p := PatientOf(f, file).value;
    forall i | 0 <= i < |d.visitContents|
      ensures p.visits[i] == Visit(VisitId(ids[0], i + 1), file.name, d.visitContents[i], TurnsOf(d.visitContents[i]))
    {
      VisitAtIndex(ids[0], file.name, d, |d.visitContents|, i);
    }
  }

  /** A file name that does not parse is reported before anything else; then a scale failure. */
  lemma PatientFailures(f: Frame, file: SourceFile)
    ensures FileTitle.ParseFileTitle(file.stem).None? ==> PatientOf(f, file) == Err(TitleMismatch(file.stem))
    ensures FileTitle.ParseFileTitle(file.stem).Some? ==>
      var ids := FileTitle.ParseFileTitle(file.stem).value.0;
      ScalesOf(f, ids).Err? ==> PatientOf(f, file) == Err(ScalesOf(f, ids).error)
  {
  }

  /** The keywords a patient carries are a non-empty list of clean keywords. */
  lemma PatientKeywords(f: Frame, file: SourceFile)
    ensures PatientOf(f, file).Ok? ==>
      var k := PatientOf(f, file).value.keywords;
      k.Some? ==> |k.value| > 0 && forall j :: 0 <= j < |k.value| ==> Keywords.IsKeyword(k.value[j])
  {
    Keywords.KeywordsWellFormed(file.text);
  }

  /** Two visit ids are equal only for the same first id and visit number. */
  lemma VisitIdInjective(a: nat, m: nat, b: nat, n: nat)
    requires VisitId(a, m) == VisitId(b, n)
    ensures a == b && m == n
  {
    VisitIdParts(a, m);
    VisitIdParts(b, n);
    NatToStringInjective(m, n);
  }

  /** After `V-`, a visit id is its padded first id, up to the first non-digit, then `-` and the visit number. */
  lemma VisitIdParts(a: nat, m: nat)
    ensures var t := VisitId(a, m)[2..]; var z := ZeroPad6(a);
      DigitRun(t) == |z| && |z| < |t| && t[..|z|] == z && t[|z| + 1..] == NatToString(m)
  {
    var z := ZeroPad6(a);
    var rest := "-" + NatToString(m);
    var t := VisitId(a, m)[2..];
    assert t == z + rest;
    DigitRunOfDigitsThen(z, rest);
    assert t[..|z|] == z;
    assert t[|z| + 1..] == rest[1..];
  }

  /** Patient ids are distinct for distinct first ids. */
  lemma PatientIdInjective(a: nat, b: nat)
    requires PatientId(a) == PatientId(b)
    ensures a == b
  {
    assert ZeroPad6(a) == PatientId(a)[2..];
    assert ZeroPad6(b) == PatientId(b)[2..];
  }

  // ------------------------------------------------------------- dataset

  datatype FileError = FileError(file: String, error: Failure)

  /** The `stats` dictionary of `build_dataset`. */
  datatype Stats = Stats(
    totalFiles: nat,
    convertedFiles: nat,
    failedFiles: nat,
    patientsWithKeywords: nat,
    patientsWithGender: nat,
    patientsWithAge: nat,
    patientsWithScales: nat,
    totalVisits: nat,
    errors: seq<FileError>)

  const NoStats: Stats := Stats(0, 0, 0, 0, 0, 0, 0, 0, [])

  predicate HasKeywords(p: PatientRecord) { p.keywords.Some? && p.keywords.value != [] }
  predicate HasGender(p: PatientRecord) { p.gender.Some? && p.gender.value != [] }

  function Indicator(b: bool): nat { if b then 1 else 0 }

  /** The stats after one more converted patient. */
  function WithConverted(s: Stats, p: PatientRecord): Stats {
    s.(convertedFiles := s.convertedFiles + 1,
       totalVisits := s.totalVisits + |p.visits|,
       patientsWithKeywords := s.patientsWithKeywords + Indicator(HasKeywords(p)),
       patientsWithGender := s.patientsWithGender + Indicator(HasGender(p)),
       patientsWithAge := s.patientsWithAge + Indicator(p.age.Some?),
       patientsWithScales := s.patientsWithScales + Indicator(p.scales != []))
  }

  /** The stats after one more failed file. */
  function WithFailed(s: Stats, path: String, e: Failure): Stats {
    s.(failedFiles := s.failedFiles + 1, errors := s.errors + [FileError(path, e)])
  }

  /** The stats after one more file, converted (`Ok`) or failed (`Err`). */
  function Counted(s: Stats, path: String, r: Result<PatientRecord>): Stats {
    var t := s.(totalFiles := s.totalFiles + 1);
    match r
    case Ok(p) => WithConverted(t, p)
    case Err(e) => WithFailed(t, path, e)
  }

  /** The `stats` dictionary, which `build_dataset` updates in place. */
  class RunStats {
    var totalFiles: nat
    var convertedFiles: nat
    var failedFiles: nat
    var patientsWithKeywords: nat
    var patientsWithGender: nat
    var patientsWithAge: nat
    var patientsWithScales: nat
    var totalVisits: nat
    var errors: seq<FileError>

    function Snapshot(): Stats
      reads this
    {
      Stats(totalFiles, convertedFiles, failedFiles, patientsWithKeywords, patientsWithGender,
        patientsWithAge, patientsWithScales, totalVisits, errors)
    }

    constructor()
      ensures Snapshot() == NoStats
    {
      totalFiles, convertedFiles, failedFiles := 0, 0, 0;
      patientsWithKeywords, patientsWithGender, patientsWithAge, patientsWithScales := 0, 0, 0, 0;
      totalVisits, errors := 0, [];
    }

    method CountFile()
      modifies this
      ensures Snapshot() == old(Snapshot()).(totalFiles := old(totalFiles) + 1)
    {
      totalFiles := totalFiles + 1;
    }

    method AddConverted(p: PatientRecord)
      modifies this
      ensures Snapshot() == WithConverted(old(Snapshot()), p)
    {
      convertedFiles := convertedFiles + 1;
      totalVisits := totalVisits + |p.visits|;
      if HasKeywords(p) {
        patientsWithKeywords := patientsWithKeywords + 1;
      }
      if HasGender(p) {
        patientsWithGender := patientsWithGender + 1;
      }
      if p.age.Some? {
        patientsWithAge := patientsWithAge + 1;
      }
      if p.scales != [] {
        patientsWithScales := patientsWithScales + 1;
      }
    }

    method AddFailed(path: String, e: Failure)
      modifies this
      ensures Snapshot() == WithFailed(old(Snapshot()), path, e)
    {
      failedFiles := failedFiles + 1;
      errors := errors + [FileError(path, e)];
    }

    /** One more file: counted, then recorded as converted or as failed. */
    method Count(path: String, r: Result<PatientRecord>)
      modifies this
      ensures Snapshot() == Counted(old(Snapshot()), path, r)
    {
      CountFile();
      if r.Ok? {
        AddConverted(r.value);
      } else {
        AddFailed(path, r.error);
      }
    }
  }

  /** The stats after the files, in order. */
  function TallyOf(f: Frame, files: seq<SourceFile>): Stats {
    if |files| == 0 then NoStats
    else
      var last := files[|files| - 1];
      Counted(TallyOf(f, files[..|files| - 1]), last.path, PatientOf(f, last))
  }

  /** The patients of the files that converted, in order. */
  function PatientsOf(f: Frame, files: seq<SourceFile>): seq<PatientRecord> {
    if |files| == 0 then []
    else
      var rest := PatientsOf(f, files[..|files| - 1]);
      match PatientOf(f, files[|files| - 1])
      case Ok(p) => rest + [p]
      case Err(_) => rest
  }

  function VisitCount(ps: seq<PatientRecord>): nat {
    if |ps| == 0 then 0 else VisitCount(ps[..|ps| - 1]) + |ps[|ps| - 1].visits|
  }

  lemma TallyStep(f: Frame, files: seq<SourceFile>, i: nat)
    requires i < |files|
    ensures TallyOf(f, files[..i + 1]) == Counted(TallyOf(f, files[..i]), files[i].path, PatientOf(f, files[i]))
    ensures PatientsOf(f, files[..i + 1]) ==
      PatientsOf(f, files[..i]) + (if PatientOf(f, files[i]).Ok? then [PatientOf(f, files[i]).value] else [])
  {
    assert files[..i + 1][..i] == files[..i];
  }

  const SchemaVersion: String := "0.2"

  datatype Dataset = Dataset(
    schemaVersion: String,
    patientCentered: bool,
    sourceDir: String,
    stats: Stats,
    patients: seq<PatientRecord>)

  /**
   * `build_dataset` over the transcripts of `sourceDir`, given in the
   * order the directory walk sorts them.
   */
  method Build(sourceDir: String, files: seq<SourceFile>, f: Frame) returns (ds: Dataset)
    ensures ds == Dataset(SchemaVersion, true, sourceDir, TallyOf(f, files), PatientsOf(f, files))
  {
    var stats := new RunStats();
    var patients: seq<PatientRecord> := [];
    var i := 0;
    while i < |files|
      invariant i <= |files|
      invariant stats.Snapshot() == TallyOf(f, files[..i])
      invariant patients == PatientsOf(f, files[..i])
    {
      TallyStep(f, files, i);
      var r := BuildPatient(f, files[i]);
      stats.Count(files[i].path, r);
      if r.Ok? {
        patients := patients + [r.value];
      }
      i := i + 1;
    }
    assert files[..i] == files;
    return Dataset(SchemaVersion, true, sourceDir, stats.Snapshot(), patients);
  }

  /**
   * Every file is counted once, as converted or as failed; one error is
   * logged per failure; the converted files are the patients; the
   * per-feature counts never exceed the converted ones; and the visit
   * total is the number of visits of the patients.
   */
  lemma TallyBalance(f: Frame, files: seq<SourceFile>)
    ensures var t := TallyOf(f, files);
      && t.totalFiles == |files|
      && t.totalFiles == t.convertedFiles + t.failedFiles
      && t.convertedFiles == |PatientsOf(f, files)|
      && |t.errors| == t.failedFiles
      && t.patientsWithKeywords <= t.convertedFiles
      && t.patientsWithGender <= t.convertedFiles
      && t.patientsWithAge <= t.convertedFiles
      && t.patientsWithScales <= t.convertedFiles
      && t.totalVisits == VisitCount(PatientsOf(f, files))
  {
    TallyFiles(f, files);
    TallyFeatures(f, files);
    TallyPatients(f, files);
  }

  /** Every file is counted once, as converted or as failed, with one error per failure. */
  lemma {:induction false} TallyFiles(f: Frame, files: seq<SourceFile>)
    ensures var t := TallyOf(f, files);
      t.totalFiles == |files| == t.convertedFiles + t.failedFiles && |t.errors| == t.failedFiles
  {
    if |files| > 0 {
      TallyFiles(f, files[..|files| - 1]);
    }
  }

  /** The per-feature counts never exceed the converted files. */
  lemma {:induction false} TallyFeatures(f: Frame, files: seq<SourceFile>)
    ensures var t := TallyOf(f, files);
      && t.patientsWithKeywords <= t.convertedFiles
      && t.patientsWithGender <= t.convertedFiles
      && t.patientsWithAge <= t.convertedFiles
      && t.patientsWithScales <= t.convertedFiles
  {
    if |files| > 0 {
      TallyFeatures(f, files[..|files| - 1]);
    }
  }

  /** The converted files are the patients, and the visit total is their visits. */
  lemma {:induction false} TallyPatients(f: Frame, files: seq<SourceFile>)
    ensures var t := TallyOf(f, files);
      t.convertedFiles == |PatientsOf(f, files)| && t.totalVisits == VisitCount(PatientsOf(f, files))
  {
    if |files| > 0 {
      var init := files[..|files| - 1];
      TallyPatients(f, init);
      var ps := PatientsOf(f, files);
      if PatientOf(f, files[|files| - 1]).Ok? {
        assert ps[..|ps| - 1] == PatientsOf(f, init);
      }
    }
  }
}
