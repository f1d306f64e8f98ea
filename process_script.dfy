/**
 * Data_Pipeline/process_script.py: the minimal line parser and the grouping
 * of dialogue files into one record per patient.
 */

module ProcessScript {
  import opened Text
  import opened OrderedMap
  import TxtReader

  // ------------------------------------------------------------ parse_dialogue

  datatype Speaker = Doctor | Patient | Unknown

  datatype Message = Message(role: Speaker, content: String)

  /** `s.split(c)[-1]`: the last piece of `s` split at `c`. */
  function LastPiece(s: String, c: char): String {
    var parts := Split(s, c);
    parts[|parts| - 1]
  }

  /**
   * `r` is what follows the last `c` of `s`: a suffix without `c`, which is
   * either all of `s` or preceded by a `c`.
   */
  predicate TailAfterLast(s: String, r: String, c: char) {
    |r| <= |s| && r == s[|s| - |r|..] && c !in r && (|r| == |s| || s[|s| - |r| - 1] == c)
  }

  lemma {:induction false} LastPieceIsTail(s: String, c: char)
    ensures TailAfterLast(s, LastPiece(s, c), c)
    decreases |s|
  {
    match IndexOf(s, c)
    case None =>
      LastPieceWhole(s, c);
    case Some(i) =>
      LastPieceAfter(s, c, i);
      LastPieceIsTail(s[i + 1..], c);
      TailAfter(s, c, i, LastPiece(s, c));
  }

  /** Past the first `c`, the last piece is the last piece of the rest. */
  lemma LastPieceAfter(s: String, c: char, i: nat)
    requires IndexOf(s, c) == Some(i)
    ensures LastPiece(s, c) == LastPiece(s[i + 1..], c)
  {
    var more := Split(s[i + 1..], c);
    assert Split(s, c) == [s[..i]] + more;
    LastOfCons(s[..i], more);
  }

  lemma LastOfCons<T>(x: T, ys: seq<T>)
    requires |ys| > 0
    ensures ([x] + ys)[|[x] + ys| - 1] == ys[|ys| - 1]
  {
  }

  /** A tail of the text after a `c` at `i` is a tail of the whole text. */
  lemma TailAfter(s: String, c: char, i: nat, r: String)
    requires i < |s| && s[i] == c
    requires TailAfterLast(s[i + 1..], r, c)
    ensures TailAfterLast(s, r, c)
  {
    var rest := s[i + 1..];
    assert s[|s| - |r|..] == rest[|rest| - |r|..];
    if |r| == |rest| {
      assert s[|s| - |r| - 1] == s[i];
    } else {
      assert s[|s| - |r| - 1] == rest[|rest| - |r| - 1];
    }
  }

  /** With no `c` in `s`, the last piece is `s` itself. */
  lemma LastPieceWhole(s: String, c: char)
    requires c !in s
    ensures LastPiece(s, c) == s
  {
    assert Split(s, c) == [s];
  }

  predicate DoctorLine(line: String) { StartsWith(line, "医生") || StartsWith(line, "Doctor") }

  predicate PatientLine(line: String) { StartsWith(line, "病人") || StartsWith(line, "Patient") }

  /**
   * The message of one stripped line: a doctor or patient line keeps what
   * follows its last full-width colon, any other line is all content.
   */
  function Classify(line: String): (m: Message)
    ensures m.role == Doctor <==> DoctorLine(line)
    ensures m.role == Patient <==> !DoctorLine(line) && PatientLine(line)
    ensures m.role == Unknown ==> m.content == line
  {
    if DoctorLine(line) then Message(Doctor, LastPiece(line, '：'))
    else if PatientLine(line) then Message(Patient, LastPiece(line, '：'))
    else Message(Unknown, line)
  }

  /**
   * A labelled line's content is the line's tail after its last full-width
   * colon, and holds no such colon; with no colon it is the whole line.
   */
  lemma LabelledContent(line: String)
    requires DoctorLine(line) || PatientLine(line)
    ensures var m := Classify(line);
      |m.content| <= |line| && m.content == line[|line| - |m.content|..] && '：' !in m.content &&
      (|m.content| < |line| ==> line[|line| - |m.content| - 1] == '：') &&
      ('：' !in line ==> m.content == line)
  {
    LastPieceIsTail(line, '：');
    if '：' !in line {
      LastPieceWhole(line, '：');
    }
  }

  /** The stripped lines that are not blank, in order. */
  function Kept(lines: seq<String>): seq<String> {
    FlatMap(lines, KeptLast)
  }

  /** One line's contribution: itself stripped, or nothing when it is blank. */
  function KeptLast(line: String): seq<String> {
    var s := Strip(line);
    if s == [] then [] else [s]
  }

  /** The messages of the lines: one per kept line. */
  function Messages(lines: seq<String>): seq<Message> {
    if lines == [] then []
    else
      var line := Strip(lines[|lines| - 1]);
      Messages(lines[..|lines| - 1]) + (if line == [] then [] else [Classify(line)])
  }

  /** `parse_dialogue`: the messages of the text's lines split at '\n'. */
  function Dialogue(text: String): seq<Message> {
    Messages(Split(text, '\n'))
  }

  method ParseDialogue(text: String) returns (result: seq<Message>)
    ensures result == Dialogue(text)
  {
    var lines := Split(text, '\n');
    result := [];
    for i := 0 to |lines|
      invariant result == Messages(lines[..i])
    {
      assert lines[..i + 1][..i] == lines[..i];
      var line := Strip(lines[i]);
      if line == [] {
        continue;
      }
      result := result + [Classify(line)];
    }
    assert lines[..|lines|] == lines;
  }

  /** Message `k` is the classification of kept line `k`. */
  lemma {:induction false} MessagesOfKept(lines: seq<String>)
    ensures |Messages(lines)| == |Kept(lines)|
    ensures forall k :: 0 <= k < |Kept(lines)| ==> Messages(lines)[k] == Classify(Kept(lines)[k])
  {
    if lines != [] {
      MessagesOfKept(lines[..|lines| - 1]);
    }
  }

  /** Kept lines are stripped and not empty. */
  lemma {:induction false} KeptStripped(lines: seq<String>, k: nat)
    requires k < |Kept(lines)|
    ensures Kept(lines)[k] != [] && Strip(Kept(lines)[k]) == Kept(lines)[k]
  {
    var init := lines[..|lines| - 1];
    if k < |Kept(init)| {
      KeptStripped(init, k);
    } else {
      StripIdempotent(lines[|lines| - 1]);
    }
  }

  /** Keeping lines distributes over concatenation: it keeps the order of the lines. */
  lemma KeptAppend(a: seq<String>, b: seq<String>)
    ensures Kept(a + b) == Kept(a) + Kept(b)
  {
    FlatMapAppend(a, b, KeptLast);
  }

  /** A single line is kept, stripped, exactly when it is not blank. */
  lemma KeptOne(line: String)
    ensures Kept([line]) == (if Strip(line) == [] then [] else [Strip(line)])
  {
    assert [line][..0] == [];
    assert FlatMap([line], KeptLast) == FlatMap([], KeptLast) + KeptLast(line);
  }

  // ----------------------------------------------------------- main: grouping

  /** A spreadsheet row read as text: column to cell, an empty cell as `None`. */
  type Row = map<String, Option<String>>

  datatype Visit = Visit(visitType: String, dialogue: seq<Message>)

  datatype PatientFile = PatientFile(id: String, demographics: Row, visits: seq<Visit>)

  /** A listed file: its name and its text. */
  datatype TextFile = TextFile(name: String, text: String)

  /**
   * A file's patient id and stage: only `.txt` files whose stem splits at
   * '_' into exactly two parts.
   */
  function NameParts(name: String): (r: Option<(String, String)>)
    ensures r.Some? ==> EndsWith(name, ".txt") && '_' !in r.value.0 && '_' !in r.value.1
  {
    if !EndsWith(name, ".txt") then None
    else
      var parts := Split(TxtReader.StripExt(name), '_');
      if |parts| != 2 then None else Some((parts[0], parts[1]))
  }

  /** The stem is the two parts joined at '_'. */
  lemma NamePartsJoin(name: String)
    requires NameParts(name).Some?
    ensures var p := NameParts(name).value; TxtReader.StripExt(name) == p.0 + ['_'] + p.1
  {
    var parts := Split(TxtReader.StripExt(name), '_');
    JoinSplit(TxtReader.StripExt(name), '_');
    assert parts[1..] == [parts[1]];
  }

  /** Conversely, a `.txt` stem with exactly one '_' gives its two sides. */
  lemma NamePartsOfStem(name: String, id: String, stage: String)
    requires EndsWith(name, ".txt") && TxtReader.StripExt(name) == id + ['_'] + stage
    requires '_' !in id && '_' !in stage
    ensures NameParts(name) == Some((id, stage))
  {
    var stem := TxtReader.StripExt(name);
    assert stem[|id|] == '_';
    var i := IndexOf(stem, '_').value;
    assert stem[..i] == id && stem[i + 1..] == stage;
    assert Split(stage, '_') == [stage];
  }

  /** `excel_data.get(p_id, {})`. */
  function InfoOf(excel: map<String, Row>, pid: String): (r: Row)
    ensures pid in excel ==> r == excel[pid]
    ensures pid !in excel ==> r == map[]
  {
    if pid in excel then excel[pid] else map[]
  }

  /** One file added to the dataset. */
  function AddFile(dataset: Dict<String, PatientFile>, excel: map<String, Row>, f: TextFile): Dict<String, PatientFile>
    requires dataset.Valid()
  {
    match NameParts(f.name)
    case None => dataset
    case Some((pid, stage)) =>
      var patient := if pid in dataset.entries then dataset.entries[pid] else PatientFile(pid, InfoOf(excel, pid), []);
      Put(dataset, pid, patient.(visits := patient.visits + [Visit(stage, Dialogue(f.text))]))
  }

  /** The dataset built from the listed files, in listing order. */
  function Dataset(excel: map<String, Row>, files: seq<TextFile>): (r: Dict<String, PatientFile>)
    ensures r.Valid()
  {
    if files == [] then Empty() else AddFile(Dataset(excel, files[..|files| - 1]), excel, files[|files| - 1])
  }

  /** The visits the files give patient `pid`, in listing order. */
  function VisitsOf(files: seq<TextFile>, pid: String): seq<Visit> {
    if files == [] then []
    else
      var f := files[|files| - 1];
      var parts := NameParts(f.name);
      VisitsOf(files[..|files| - 1], pid) + (if parts.Some? && parts.value.0 == pid then [Visit(parts.value.1, Dialogue(f.text))] else [])
  }

  /** One step of `main`'s loop. */
  method AddTextFile(dataset: Dict<String, PatientFile>, excel: map<String, Row>, f: TextFile) returns (r: Dict<String, PatientFile>)
    requires dataset.Valid()
    ensures r == AddFile(dataset, excel, f)
  {
    if !EndsWith(f.name, ".txt") {
      return dataset;
    }
    var parts := Split(TxtReader.StripExt(f.name), '_');
    if |parts| != 2 {
      return dataset;
    }
    var pid, stage := parts[0], parts[1];
    var dialogue := ParseDialogue(f.text);
    var patient := if pid in dataset.entries then dataset.entries[pid] else PatientFile(pid, InfoOf(excel, pid), []);
    r := Put(dataset, pid, patient.(visits := patient.visits + [Visit(stage, dialogue)]));
  }

  /** `main` without its reading and writing: the files in listing order become the dataset. */
  method BuildDataset(excel: map<String, Row>, files: seq<TextFile>) returns (dataset: Dict<String, PatientFile>)
    ensures dataset == Dataset(excel, files)
  {
    dataset := Empty();
    for i := 0 to |files|
      invariant dataset == Dataset(excel, files[..i])
    {
      assert files[..i + 1][..i] == files[..i];
      dataset := AddTextFile(dataset, excel, files[i]);
    }
    assert files[..|files|] == files;
  }

  /**
   * A patient is present exactly when some file names it; its record was
   * made once, under its id with its spreadsheet row (or nothing), and
   * holds its files' visits in listing order.
   */
  lemma {:induction false} DatasetEntry(excel: map<String, Row>, files: seq<TextFile>, pid: String)
    ensures var d := Dataset(excel, files);
      (pid in d.entries <==> VisitsOf(files, pid) != []) &&
      (pid in d.entries ==> d.entries[pid] == PatientFile(pid, InfoOf(excel, pid), VisitsOf(files, pid)))
  {
    if files != [] {
      DatasetEntry(excel, files[..|files| - 1], pid);
    }
  }

  /** A file that is not `.txt`, or whose stem does not split in two, changes nothing. */
  lemma SkippedFile(excel: map<String, Row>, files: seq<TextFile>, f: TextFile)
    requires NameParts(f.name).None?
    ensures Dataset(excel, files + [f]) == Dataset(excel, files)
  {
    assert (files + [f])[..|files|] == files;
  }

  /** Adding a file keeps the keys so far and at most appends one. */
  lemma AddFileKeys(dataset: Dict<String, PatientFile>, excel: map<String, Row>, f: TextFile)
    requires dataset.Valid()
    ensures var r := AddFile(dataset, excel, f).keys;
      |dataset.keys| <= |r| <= |dataset.keys| + 1 && r[..|dataset.keys|] == dataset.keys
  {
  }

  /** Patients keep the order in which their first file was listed: earlier files fix a prefix of the keys. */
  lemma {:induction false} DatasetKeepsOrder(excel: map<String, Row>, files: seq<TextFile>, k: nat)
    requires k <= |files|
    ensures var before := Dataset(excel, files[..k]).keys;
      |before| <= |Dataset(excel, files).keys| && Dataset(excel, files).keys[..|before|] == before
  {
    if k < |files| {
      var init := files[..|files| - 1];
      assert init[..k] == files[..k];
      DatasetKeepsOrder(excel, init, k);
      var d0 := Dataset(excel, init);
      AddFileKeys(d0, excel, files[|files| - 1]);
      var before := Dataset(excel, files[..k]).keys;
      var after := Dataset(excel, files).keys;
      assert after[..|before|] == after[..|d0.keys|][..|before|];
    } else {
      assert files[..k] == files;
    }
  }
}
