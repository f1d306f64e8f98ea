/**
 * Data_Pipeline/data_merger.py, first half: the visit type read from a
 * file's description, and `merge_patient_data`, which files every dialogue
 * under its patient and, inside the patient, under its session.
 */
module DataMerger {
  import opened Text
  import opened OrderedMap
  import ExcelFixed

  // ------------------------------------------------------------ visit type

  const InitialVariants: seq<String> := ["initial", "first", "1", "初诊", "首次"]
  const FollowUpVariants: seq<String> := ["follow_up", "followup", "second", "2", "复诊", "随访"]
  const RegularVariants: seq<String> := ["regular", "routine", "常规", "定期"]

  predicate IsVisitType(t: String) {
    t == "initial" || t == "follow_up" || t == "regular" || t == "unknown"
  }

  /**
   * `_determine_visit_type`: an exact variant (lower-cased) names its type,
   * the types tried in dictionary order; otherwise the first cue word found,
   * initial before follow-up before regular.
   */
  function VisitTypeOf(raw: String): (r: String)
    ensures IsVisitType(r)
  {
    var s := Lower(raw);
    if s in InitialVariants then "initial"
    else if s in FollowUpVariants then "follow_up"
    else if s in RegularVariants then "regular"
    else if Contains(s, "initial") || Contains(s, "first") || Contains(s, "初诊") then "initial"
    else if Contains(s, "follow") || Contains(s, "second") || Contains(s, "复诊") then "follow_up"
    else if Contains(s, "regular") || Contains(s, "routine") || Contains(s, "常规") then "regular"
    else "unknown"
  }

  /** A text holding `w` somewhere holds it. */
  lemma ContainsWord(s: String, lead: String, w: String, tail: String)
    requires s == lead + w + tail
    ensures Contains(s, w)
  {
    assert s[|lead|..|lead| + |w|] == w;
    ContainsAt(s, w, |lead|);
  }

  /** The four standard names are fixed points. */
  lemma StandardTypesFixed()
    ensures VisitTypeOf("initial") == "initial"
    ensures VisitTypeOf("follow_up") == "follow_up"
    ensures VisitTypeOf("regular") == "regular"
  {
    InitialFixed();
    FollowUpFixed();
    RegularFixed();
  }

  lemma InitialFixed()
    ensures VisitTypeOf("initial") == "initial"
  {
    LowerFixed("initial");
    assert InitialVariants[0] == "initial";
  }

  lemma FollowUpFixed()
    ensures VisitTypeOf("follow_up") == "follow_up"
  {
    LowerFixed("follow_up");
    assert "follow_up" !in InitialVariants;
    assert FollowUpVariants[0] == "follow_up";
  }

  lemma RegularFixed()
    ensures VisitTypeOf("regular") == "regular"
  {
    LowerFixed("regular");
    assert "regular" !in InitialVariants && "regular" !in FollowUpVariants;
    assert RegularVariants[0] == "regular";
  }

  /** A lower-case name is its own lower case, so its variant set decides it. */
  lemma LowerFixed(s: String)
    requires forall i :: 0 <= i < |s| ==> !('A' <= s[i] <= 'Z')
    ensures Lower(s) == s
  {
  }

  lemma UnknownFixed()
    ensures VisitTypeOf("unknown") == "unknown"
  {
    var s := "unknown";
    assert Lower(s) == s;
    assert s !in InitialVariants && s !in FollowUpVariants && s !in RegularVariants;
    UnknownHasNoInitialCue();
    UnknownHasNoFollowUpCue();
    UnknownHasNoRegularCue();
  }

  lemma UnknownHasNoInitialCue()
    ensures !Contains("unknown", "initial") && !Contains("unknown", "first") && !Contains("unknown", "初诊")
  {
    NoCharNoContains("unknown", "initial", 'i');
    NoCharNoContains("unknown", "first", 'f');
    NoCharNoContains("unknown", "初诊", '初');
  }

  lemma UnknownHasNoFollowUpCue()
    ensures !Contains("unknown", "follow") && !Contains("unknown", "second") && !Contains("unknown", "复诊")
  {
    NoCharNoContains("unknown", "follow", 'f');
    NoCharNoContains("unknown", "second", 'e');
    NoCharNoContains("unknown", "复诊", '复');
  }

  lemma UnknownHasNoRegularCue()
    ensures !Contains("unknown", "regular") && !Contains("unknown", "routine") && !Contains("unknown", "常规")
  {
    NoCharNoContains("unknown", "regular", 'e');
    NoCharNoContains("unknown", "routine", 'r');
    NoCharNoContains("unknown", "常规", '常');
  }

  /** Every standard name is its own type, so normalizing twice is normalizing once. */
  lemma VisitTypeIdempotent(raw: String)
    ensures VisitTypeOf(VisitTypeOf(raw)) == VisitTypeOf(raw)
  {
    StandardTypesFixed();
    UnknownFixed();
  }

  /** A word with a character the text lacks is not in it. */
  lemma {:induction false} NoCharNoContains(s: String, w: String, c: char)
    requires c in w && c !in s
    ensures !Contains(s, w)
    decreases |s|
  {
    if |w| <= |s| {
      var j :| 0 <= j < |w| && w[j] == c;
      assert s[..|w|][j] == s[j];
    }
    if |s| > 0 {
      assert c !in s[1..] by {
        assert forall i :: 0 <= i < |s[1..]| ==> s[1..][i] == s[i + 1];
      }
      NoCharNoContains(s[1..], w, c);
    }
  }

  // --------------------------------------------------------------- inputs

  /** One turn of a parsed dialogue; a field can be absent. */
  datatype RawTurn = RawTurn(turnId: Option<int>, role: Option<String>, content: Option<String>)

  /** A file's `file_info`; a field can be absent (`.get` gives the default). */
  datatype FileInfo = FileInfo(
    patientId: Option<String>, visitType: Option<String>, sessionId: Option<String>,
    visitNumber: Option<int>, isInitial: Option<bool>, date: Option<String>)

  const NoFileInfo: FileInfo := FileInfo(None, None, None, None, None, None)

  /** What the dialogue reader gives for one file; a field can be absent. */
  datatype DialogueInfo = DialogueInfo(fileInfo: Option<FileInfo>, dialogue: Option<seq<RawTurn>>, rawContent: Option<String>)

  /** A patient's record from the spreadsheet. */
  type ExcelInfo = ExcelFixed.PatientData

  // --------------------------------------------------------------- merged

  datatype DialogueEntry = DialogueEntry(filename: String, fileInfo: FileInfo, dialogue: seq<RawTurn>, rawContent: String)

  datatype Session = Session(
    sessionId: String, visitType: String, visitNumber: Option<int>, isInitial: bool,
    dialogues: seq<DialogueEntry>, date: Option<String>)

  datatype PatientEntry = PatientEntry(excel: Option<ExcelInfo>, dialogues: seq<DialogueEntry>, sessions: Dict<String, Session>)

  type Merged = Dict<String, PatientEntry>

  ghost predicate MergedValid(m: Merged) {
    m.Valid() && forall p :: p in m.entries ==> m.entries[p].sessions.Valid()
  }

  /** No dialogue filed yet: every patient has no dialogues and no sessions. */
  ghost predicate Fresh(m: Merged) {
    MergedValid(m) && forall p :: p in m.entries ==> m.entries[p].dialogues == [] && m.entries[p].sessions == Empty()
  }

  function InfoOf(d: DialogueInfo): FileInfo { GetOrElse(d.fileInfo, NoFileInfo) }

  function GetOrElse<T>(o: Option<T>, default: T): (r: T)
    ensures o.Some? ==> r == o.value
    ensures o.None? ==> r == default
  {
    if o.Some? then o.value else default
  }

  /** `re.match(r"(P\d+)", filename)`: a capital `P` and the digits after it, at the start. */
  function FilenamePatientId(filename: String): (r: Option<String>)
    ensures r.Some? ==> |r.value| >= 2 && r.value[0] == 'P' && AllDigits(r.value[1..]) && StartsWith(filename, r.value)
  {
    if |filename| > 0 && filename[0] == 'P' && DigitRun(filename[1..]) > 0 then
      var id := filename[..1 + DigitRun(filename[1..])];
      assert id[1..] == filename[1..][..DigitRun(filename[1..])];
      Some(id)
    else None
  }

  /** The patient a file goes to: its own id, else the id at the head of its name, else "unknown". */
  function FilePatient(name: String, d: DialogueInfo): (r: String)
    ensures InfoOf(d).patientId.Some? && InfoOf(d).patientId.value != "unknown" ==> r == InfoOf(d).patientId.value
  {
    var p := GetOrElse(InfoOf(d).patientId, "unknown");
    if p == "unknown" then
      match FilenamePatientId(name)
      case Some(id) => id
      case None => "unknown"
    else p
  }

  /** The standardized visit type of a file. */
  function FileVisitType(d: DialogueInfo): String {
    VisitTypeOf(GetOrElse(InfoOf(d).visitType, ""))
  }

  /** The session a file goes to: its own, else `{patient_id}_{visit_type}`. */
  function FileSession(name: String, d: DialogueInfo): (r: String)
    ensures InfoOf(d).sessionId.None? ==> r == FilePatient(name, d) + "_" + FileVisitType(d)
  {
    GetOrElse(InfoOf(d).sessionId, FilePatient(name, d) + "_" + FileVisitType(d))
  }

  function EntryOf(name: String, d: DialogueInfo): DialogueEntry {
    DialogueEntry(name, InfoOf(d), GetOrElse(d.dialogue, []), GetOrElse(d.rawContent, ""))
  }

  /** The session a file opens when it is the first of its session. */
  function NewSession(name: String, d: DialogueInfo): Session {
    var fi := InfoOf(d);
    Session(FileSession(name, d), FileVisitType(d), fi.visitNumber, GetOrElse(fi.isInitial, false), [], fi.date)
  }

  /** Filing one dialogue: appended to its patient, created if new, and to its session, created if new. */
  function AddFile(m: Merged, name: String, d: DialogueInfo): (r: Merged)
    requires MergedValid(m)
    ensures MergedValid(r)
  {
    var p := FilePatient(name, d);
    var patient := if p in m.entries then m.entries[p] else PatientEntry(None, [], Empty());
    var s := FileSession(name, d);
    var session := if s in patient.sessions.entries then patient.sessions.entries[s] else NewSession(name, d);
    var entry := EntryOf(name, d);
    var sessions := Put(patient.sessions, s, session.(dialogues := session.dialogues + [entry]));
    Put(m, p, patient.(dialogues := patient.dialogues + [entry], sessions := sessions))
  }

  /** The spreadsheet's patients, in its order, with no dialogues yet. */
  function Initial(ids: seq<String>, excel: map<String, ExcelInfo>): (r: Merged)
    requires forall i :: 0 <= i < |ids| ==> ids[i] in excel
    ensures Fresh(r)
  {
    if ids == [] then Empty()
    else
      var m := Initial(ids[..|ids| - 1], excel);
      var id := ids[|ids| - 1];
      if id in m.entries then m else Put(m, id, PatientEntry(Some(excel[id]), [], Empty()))
  }

  /** The dialogue files filed one after the other. */
  function MergeFiles(base: Merged, names: seq<String>, data: map<String, DialogueInfo>): (r: Merged)
    requires MergedValid(base)
    requires forall i :: 0 <= i < |names| ==> names[i] in data
    ensures MergedValid(r)
  {
    if names == [] then base
    else
      var name := names[|names| - 1];
      AddFile(MergeFiles(base, names[..|names| - 1], data), name, data[name])
  }

  /** `merge_patient_data`. */
  function Merge(excel: Dict<String, ExcelInfo>, dialogues: Dict<String, DialogueInfo>): Merged
    requires excel.Valid() && dialogues.Valid()
  {
    MergeFiles(Initial(excel.keys, excel.entries), dialogues.keys, dialogues.entries)
  }

  // -------------------------------------------------------------- methods

  method AddDialogue(m: Merged, name: String, d: DialogueInfo) returns (r: Merged)
    requires MergedValid(m)
    ensures r == AddFile(m, name, d)
  {
    var fileInfo := GetOrElse(d.fileInfo, NoFileInfo);
    var patientId := GetOrElse(fileInfo.patientId, "unknown");
    if patientId == "unknown" {
      var id := FilenamePatientId(name);
      if id.Some? {
        patientId := id.value;
      }
    }
    var patient: PatientEntry;
    if patientId in m.entries {
      patient := m.entries[patientId];
    } else {
      patient := PatientEntry(None, [], Empty());
    }
    var entry := DialogueEntry(name, fileInfo, GetOrElse(d.dialogue, []), GetOrElse(d.rawContent, ""));
    var visitType := VisitTypeOf(GetOrElse(fileInfo.visitType, ""));
    var sessionId := GetOrElse(fileInfo.sessionId, patientId + "_" + visitType);
    var session: Session;
    if sessionId in patient.sessions.entries {
      session := patient.sessions.entries[sessionId];
    } else {
      session := Session(sessionId, visitType, fileInfo.visitNumber, GetOrElse(fileInfo.isInitial, false), [], fileInfo.date);
    }
    var sessions := Put(patient.sessions, sessionId, session.(dialogues := session.dialogues + [entry]));
    r := Put(m, patientId, patient.(dialogues := patient.dialogues + [entry], sessions := sessions));
  }

  /** The spreadsheet's patients, in its order. */
  method InitialPatients(excel: Dict<String, ExcelInfo>) returns (merged: Merged)
    requires excel.Valid()
    ensures merged == Initial(excel.keys, excel.entries)
  {
    merged := Empty();
    var i := 0;
    while i < |excel.keys|
      invariant 0 <= i <= |excel.keys|
      invariant merged == Initial(excel.keys[..i], excel.entries)
    {
      InitialStep(excel.keys, excel.entries, i);
      var id := excel.keys[i];
      if id !in merged.entries {
        merged := Put(merged, id, PatientEntry(Some(excel.entries[id]), [], Empty()));
      }
      i := i + 1;
    }
    assert excel.keys[..|excel.keys|] == excel.keys;
  }

  lemma InitialStep(ids: seq<String>, excel: map<String, ExcelInfo>, i: nat)
    requires forall i :: 0 <= i < |ids| ==> ids[i] in excel
    requires i < |ids|
    ensures var m := Initial(ids[..i], excel);
      Initial(ids[..i + 1], excel) == if ids[i] in m.entries then m else Put(m, ids[i], PatientEntry(Some(excel[ids[i]]), [], Empty()))
  {
    var xs := ids[..i + 1];
    assert xs[..|xs| - 1] == ids[..i];
    assert xs[|xs| - 1] == ids[i];
  }

  lemma MergeFilesStep(base: Merged, names: seq<String>, data: map<String, DialogueInfo>, j: nat)
    requires MergedValid(base)
    requires forall i :: 0 <= i < |names| ==> names[i] in data
    requires j < |names|
    ensures MergeFiles(base, names[..j + 1], data) == AddFile(MergeFiles(base, names[..j], data), names[j], data[names[j]])
  {
    assert names[..j + 1][..j] == names[..j];
  }

  method MergePatientData(excel: Dict<String, ExcelInfo>, dialogues: Dict<String, DialogueInfo>) returns (merged: Merged)
    requires excel.Valid() && dialogues.Valid()
    ensures merged == Merge(excel, dialogues)
  {
    merged := InitialPatients(excel);
    var base := merged;
    var j := 0;
    while j < |dialogues.keys|
      invariant 0 <= j <= |dialogues.keys|
      invariant MergedValid(merged)
      invariant merged == MergeFiles(base, dialogues.keys[..j], dialogues.entries)
    {
      var name := dialogues.keys[j];
      merged := AddDialogue(merged, name, dialogues.entries[name]);
      MergeFilesStep(base, dialogues.keys, dialogues.entries, j);
      j := j + 1;
    }
    assert dialogues.keys[..|dialogues.keys|] == dialogues.keys;
  }

  // ---------------------------------------------------------- properties

  /** The spreadsheet's ids, once each and in order, each with its record. */
  lemma InitialShape(ids: seq<String>, excel: map<String, ExcelInfo>)
    requires forall i :: 0 <= i < |ids| ==> ids[i] in excel
    requires Distinct(ids)
    ensures Initial(ids, excel).keys == ids
    ensures forall id :: id in Initial(ids, excel).entries ==>
      Initial(ids, excel).entries[id] == PatientEntry(Some(excel[id]), [], Empty())
  {
    InitialKeys(ids, excel);
    forall id | id in Initial(ids, excel).entries
      ensures Initial(ids, excel).entries[id] == PatientEntry(Some(excel[id]), [], Empty())
    {
      InitialEntry(ids, excel, id);
    }
  }

  lemma {:induction false} InitialKeys(ids: seq<String>, excel: map<String, ExcelInfo>)
    requires forall i :: 0 <= i < |ids| ==> ids[i] in excel
    requires Distinct(ids)
    ensures Initial(ids, excel).keys == ids
  {
    if |ids| > 0 {
      var init := ids[..|ids| - 1];
      var id := ids[|ids| - 1];
      InitialKeys(init, excel);
      assert id !in init;
      HasKey(Initial(init, excel), id);
      InitLast(ids);
    }
  }

  lemma {:induction false} InitialEntry(ids: seq<String>, excel: map<String, ExcelInfo>, id: String)
    requires forall i :: 0 <= i < |ids| ==> ids[i] in excel
    ensures id in Initial(ids, excel).entries ==>
      id in excel && Initial(ids, excel).entries[id] == PatientEntry(Some(excel[id]), [], Empty())
  {
    if |ids| > 0 {
      InitialEntry(ids[..|ids| - 1], excel, id);
    }
  }

  /** The dialogues of `names` that go to patient `p`, in order. */
  function FilesFor(names: seq<String>, data: map<String, DialogueInfo>, p: String): seq<DialogueEntry>
    requires forall i :: 0 <= i < |names| ==> names[i] in data
  {
    if names == [] then []
    else
      var name := names[|names| - 1];
      FilesFor(names[..|names| - 1], data, p) + (if FilePatient(name, data[name]) == p then [EntryOf(name, data[name])] else [])
  }

  /** The dialogues of `names` that go to session `s` of patient `p`, in order. */
  function SessionFiles(names: seq<String>, data: map<String, DialogueInfo>, p: String, s: String): seq<DialogueEntry>
    requires forall i :: 0 <= i < |names| ==> names[i] in data
  {
    if names == [] then []
    else
      var name := names[|names| - 1];
      var d := data[name];
      SessionFiles(names[..|names| - 1], data, p, s) +
        (if FilePatient(name, d) == p && FileSession(name, d) == s then [EntryOf(name, d)] else [])
  }

  /** The session opened by the first file of session `s` of patient `p`, if any. */
  function SessionHead(names: seq<String>, data: map<String, DialogueInfo>, p: String, s: String): (r: Option<Session>)
    requires forall i :: 0 <= i < |names| ==> names[i] in data
    ensures r.Some? <==> SessionFiles(names, data, p, s) != []
  {
    if names == [] then None
    else
      var name := names[|names| - 1];
      var d := data[name];
      var head := SessionHead(names[..|names| - 1], data, p, s);
      if head.Some? then head
      else if FilePatient(name, d) == p && FileSession(name, d) == s then Some(NewSession(name, d))
      else None
  }

  /**
   * A patient is present iff the spreadsheet has it or some file goes to
   * it; its spreadsheet record is kept, and its dialogues are exactly the
   * files that go to it, in order.
   */
  lemma {:induction false} PatientsAfterMerge(base: Merged, names: seq<String>, data: map<String, DialogueInfo>, p: String)
    requires Fresh(base)
    requires forall i :: 0 <= i < |names| ==> names[i] in data
    ensures var m := MergeFiles(base, names, data);
      (p in m.entries <==> p in base.entries || FilesFor(names, data, p) != []) &&
      (p in m.entries ==>
        m.entries[p].dialogues == FilesFor(names, data, p) &&
        m.entries[p].excel == (if p in base.entries then base.entries[p].excel else None))
  {
    if names != [] {
      var init := names[..|names| - 1];
      PatientsAfterMerge(base, init, data, p);
    }
  }

  /**
   * Inside a patient, a session is present iff some file goes to it; it
   * keeps what its first file set and holds exactly its files, in order.
   */
  lemma SessionsAfterMerge(base: Merged, names: seq<String>, data: map<String, DialogueInfo>, p: String, s: String)
    requires Fresh(base)
    requires forall i :: 0 <= i < |names| ==> names[i] in data
    ensures var m := MergeFiles(base, names, data);
      p in m.entries ==>
        (s in m.entries[p].sessions.entries <==> SessionFiles(names, data, p, s) != []) &&
        (s in m.entries[p].sessions.entries ==>
          m.entries[p].sessions.entries[s] == SessionHead(names, data, p, s).value.(dialogues := SessionFiles(names, data, p, s)))
  {
    SessionPresence(base, names, data, p, s);
    SessionContent(base, names, data, p, s);
  }

  lemma {:induction false} SessionPresence(base: Merged, names: seq<String>, data: map<String, DialogueInfo>, p: String, s: String)
    requires Fresh(base)
    requires forall i :: 0 <= i < |names| ==> names[i] in data
    ensures var m := MergeFiles(base, names, data);
      p in m.entries ==> (s in m.entries[p].sessions.entries <==> SessionFiles(names, data, p, s) != [])
  {
    if |names| > 0 {
      var init := names[..|names| - 1];
      SessionPresence(base, init, data, p, s);
      var m0 := MergeFiles(base, init, data);
      var name := names[|names| - 1];
      var d := data[name];
      if FilePatient(name, d) == p {
        if p !in m0.entries {
          PatientsAfterMerge(base, init, data, p);
          NoSessionFiles(init, data, p, s);
        }
        AddFileSession(m0, name, d, s);
      } else {
        AddFileOther(m0, name, d, p);
      }
    }
  }

  lemma {:induction false} SessionContent(base: Merged, names: seq<String>, data: map<String, DialogueInfo>, p: String, s: String)
    requires Fresh(base)
    requires forall i :: 0 <= i < |names| ==> names[i] in data
    ensures var m := MergeFiles(base, names, data);
      p in m.entries && s in m.entries[p].sessions.entries ==>
        SessionHead(names, data, p, s).Some? &&
        m.entries[p].sessions.entries[s] == SessionHead(names, data, p, s).value.(dialogues := SessionFiles(names, data, p, s))
  {
    SessionPresence(base, names, data, p, s);
    if |names| > 0 {
      var init := names[..|names| - 1];
      SessionContent(base, init, data, p, s);
      SessionPresence(base, init, data, p, s);
      var m0 := MergeFiles(base, init, data);
      var name := names[|names| - 1];
      var d := data[name];
      if FilePatient(name, d) == p {
        if p !in m0.entries {
          PatientsAfterMerge(base, init, data, p);
          NoSessionFiles(init, data, p, s);
        }
        ContentStep(m0, name, d, s, SessionFiles(init, data, p, s), SessionHead(init, data, p, s));
      } else {
        AddFileOther(m0, name, d, p);
      }
    }
  }

  /** One more file of patient `p` keeps a session equal to its head with its files. */
  lemma ContentStep(m: Merged, name: String, d: DialogueInfo, s: String, files: seq<DialogueEntry>, head: Option<Session>)
    requires MergedValid(m)
    requires head.Some? <==> files != []
    requires var p := FilePatient(name, d);
      (p !in m.entries ==> files == []) &&
      (p in m.entries ==> (s in m.entries[p].sessions.entries <==> files != [])) &&
      (p in m.entries && s in m.entries[p].sessions.entries ==> m.entries[p].sessions.entries[s] == head.value.(dialogues := files))
    ensures var p := FilePatient(name, d);
      var r := AddFile(m, name, d);
      var hit := FileSession(name, d) == s;
      var files' := files + (if hit then [EntryOf(name, d)] else []);
      var head' := if head.Some? then head else if hit then Some(NewSession(name, d)) else None;
      s in r.entries[p].sessions.entries ==> head'.Some? && r.entries[p].sessions.entries[s] == head'.value.(dialogues := files')
  {
    AddFileSession(m, name, d, s);
    if FileSession(name, d) != s {
      assert files + [] == files;
    }
  }

  /** Filing a dialogue leaves every other patient as it was. */
  lemma AddFileOther(m: Merged, name: String, d: DialogueInfo, q: String)
    requires MergedValid(m) && q != FilePatient(name, d)
    ensures var r := AddFile(m, name, d);
      (q in r.entries <==> q in m.entries) && (q in m.entries ==> r.entries[q] == m.entries[q])
  {
  }

  /**
   * Filing a dialogue adds it to its session of its patient, opening the
   * session if it is new, and leaves the patient's other sessions as they were.
   */
  lemma AddFileSession(m: Merged, name: String, d: DialogueInfo, s: String)
    requires MergedValid(m)
    ensures var p := FilePatient(name, d);
      var r := AddFile(m, name, d);
      var old_ := if p in m.entries then m.entries[p].sessions.entries else map[];
      p in r.entries &&
      (s in r.entries[p].sessions.entries <==> s in old_ || s == FileSession(name, d)) &&
      (s == FileSession(name, d) ==>
        r.entries[p].sessions.entries[s] ==
          var session := if s in old_ then old_[s] else NewSession(name, d);
          session.(dialogues := session.dialogues + [EntryOf(name, d)])) &&
      (s != FileSession(name, d) && s in old_ ==> r.entries[p].sessions.entries[s] == old_[s])
  {
  }

  /** A patient with no files has no session files. */
  lemma {:induction false} NoSessionFiles(names: seq<String>, data: map<String, DialogueInfo>, p: String, s: String)
    requires forall i :: 0 <= i < |names| ==> names[i] in data
    requires FilesFor(names, data, p) == []
    ensures SessionFiles(names, data, p, s) == []
  {
    if names != [] {
      NoSessionFiles(names[..|names| - 1], data, p, s);
    }
  }

  /**
   * `merge_patient_data`: every spreadsheet patient is a key, first and in
   * order, keeping its record; every patient's dialogues are exactly its
   * files.
   */
  lemma MergeShape(excel: Dict<String, ExcelInfo>, dialogues: Dict<String, DialogueInfo>, p: String)
    requires excel.Valid() && dialogues.Valid()
    ensures var m := Merge(excel, dialogues);
      (p in excel.entries ==> p in m.entries && m.entries[p].excel == Some(excel.entries[p])) &&
      (p in m.entries <==> p in excel.entries || FilesFor(dialogues.keys, dialogues.entries, p) != []) &&
      (p in m.entries ==> m.entries[p].dialogues == FilesFor(dialogues.keys, dialogues.entries, p))
  {
    var base := Initial(excel.keys, excel.entries);
    InitialShape(excel.keys, excel.entries);
    PatientsAfterMerge(base, dialogues.keys, dialogues.entries, p);
  }

  /** Filing keeps the order of the patients already there and only appends new ones. */
  lemma {:induction false} MergeKeepsOrder(base: Merged, names: seq<String>, data: map<String, DialogueInfo>)
    requires MergedValid(base)
    requires forall i :: 0 <= i < |names| ==> names[i] in data
    ensures |base.keys| <= |MergeFiles(base, names, data).keys|
    ensures MergeFiles(base, names, data).keys[..|base.keys|] == base.keys
  {
    if |names| > 0 {
      var init := names[..|names| - 1];
      var name := names[|names| - 1];
      MergeKeepsOrder(base, init, data);
      var m0 := MergeFiles(base, init, data);
      AddFileKeys(m0, name, data[name]);
      PrefixOfAppend(m0.keys, [FilePatient(name, data[name])], |base.keys|);
    }
  }

  /** Filing a dialogue appends its patient to the keys when the patient is new, and keeps them otherwise. */
  lemma AddFileKeys(m: Merged, name: String, d: DialogueInfo)
    requires MergedValid(m)
    ensures var p := FilePatient(name, d);
      AddFile(m, name, d).keys == if p in m.entries then m.keys else m.keys + [p]
  {
  }

  /** A file whose own `patient_id` is absent or "unknown" goes to the `P<digits>` at the head of its name, if any. */
  lemma FallbackPatient(name: String, d: DialogueInfo, digits: String, rest: String)
    requires InfoOf(d).patientId.None? || InfoOf(d).patientId == Some("unknown")
    requires digits != [] && AllDigits(digits) && (rest == [] || !IsDigit(rest[0]))
    requires name == "P" + digits + rest
    ensures FilePatient(name, d) == "P" + digits
  {
    assert name[1..] == digits + rest;
    DigitRunOfDigitsThen(digits, rest);
    assert name[..1 + |digits|] == "P" + digits;
  }
}
