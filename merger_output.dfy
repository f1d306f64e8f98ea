/**
 * Data_Pipeline/data_merger.py, second half: the longitudinal visit records
 * of one patient, the final per-patient records, and the dataset
 * statistics.
 */
module MergerOutput {
  import opened Text
  import opened OrderedMap
  import opened DataMerger

  // ---------------------------------------------------------------- turns

  datatype Turn = Turn(turnId: int, role: String, content: String)

  /** A raw turn at position `position` of the flattened list; absent fields take their defaults. */
  function FormatTurn(t: RawTurn, position: nat): Turn {
    Turn(GetOrElse(t.turnId, position + 1), GetOrElse(t.role, "unknown"), GetOrElse(t.content, ""))
  }

  /** The turns of the dialogue files one after the other. */
  function RawTurns(entries: seq<DialogueEntry>): seq<RawTurn> {
    if entries == [] then [] else RawTurns(entries[..|entries| - 1]) + entries[|entries| - 1].dialogue
  }

  function Formatted(raw: seq<RawTurn>): seq<Turn> {
    seq(|raw|, k requires 0 <= k < |raw| => FormatTurn(raw[k], k))
  }

  lemma FormattedSnoc(raw: seq<RawTurn>, t: RawTurn)
    ensures Formatted(raw + [t]) == Formatted(raw) + [FormatTurn(t, |raw|)]
  {
  }

  /**
   * The turns of a session's dialogues, flattened in order; a turn without
   * its own id is numbered by its position, from 1.
   */
  method FlattenTurns(entries: seq<DialogueEntry>) returns (turns: seq<Turn>)
    ensures |turns| == |RawTurns(entries)|
    ensures forall k :: 0 <= k < |turns| ==> turns[k] == FormatTurn(RawTurns(entries)[k], k)
  {
    turns := [];
    for i := 0 to |entries|
      invariant turns == Formatted(RawTurns(entries[..i]))
    {
      var dialogue := entries[i].dialogue;
      ghost var before := RawTurns(entries[..i]);
      assert entries[..i + 1][..i] == entries[..i];
      for j := 0 to |dialogue|
        invariant turns == Formatted(before + dialogue[..j])
      {
        var t := dialogue[j];
        FormattedSnoc(before + dialogue[..j], t);
        assert before + dialogue[..j + 1] == (before + dialogue[..j]) + [t];
        turns := turns + [Turn(GetOrElse(t.turnId, |turns| + 1), GetOrElse(t.role, "unknown"), GetOrElse(t.content, ""))];
      }
      assert dialogue[..|dialogue|] == dialogue;
    }
    assert entries[..|entries|] == entries;
  }

  // --------------------------------------------------------------- visits

  datatype Phq9Data = Phq9Data(totalScore: int, severity: String, items: seq<int>)

  /** One visit; `date` and `phq9` are None where the key is dropped. */
  datatype VisitRecord = VisitRecord(sessionId: String, visitType: String, date: Option<String>, phq9: Option<Phq9Data>, dialogue: seq<Turn>)

  /** The spreadsheet's assessment, attached to every visit of the patient. */
  function Phq9Of(excel: Option<ExcelInfo>): Option<Phq9Data> {
    if excel.Some? && excel.value.phq9.Some? then
      var a := excel.value.phq9.value;
      Some(Phq9Data(a.totalScore, a.severity, a.items))
    else None
  }

  function VisitDateOf(excel: Option<ExcelInfo>): Option<String> {
    if excel.Some? then excel.value.demographics.visitDate else None
  }

  /** `session.get("date") or demographics.get("visit_date")`: an empty date counts as none. */
  function DateOf(session: Session, excel: Option<ExcelInfo>): (r: Option<String>)
    ensures session.date.Some? && session.date.value != "" ==> r == session.date
    ensures (session.date.None? || session.date.value == "") ==> r == VisitDateOf(excel)
  {
    if session.date.Some? && session.date.value != "" then session.date else VisitDateOf(excel)
  }

  /** The patient's sessions, or one "initial" session `{id}_visit_1` holding all its dialogues. */
  function SessionsOf(pid: String, patient: PatientEntry): (r: Dict<String, Session>)
    requires patient.sessions.Valid()
    ensures r.Valid() && |r.keys| >= 1
    ensures patient.sessions.keys != [] ==> r == patient.sessions
  {
    if patient.sessions.keys == [] then
      var sid := pid + "_visit_1";
      Put(Empty(), sid, Session(sid, "initial", None, false, patient.dialogues, None))
    else patient.sessions
  }

  function RecordOf(sid: String, session: Session, excel: Option<ExcelInfo>): VisitRecord {
    VisitRecord(sid, session.visitType, DateOf(session, excel), Phq9Of(excel), Formatted(RawTurns(session.dialogues)))
  }

  /** One record per session, in session order, before sorting. */
  function VisitRecords(pid: String, patient: PatientEntry): (r: seq<VisitRecord>)
    requires patient.sessions.Valid()
    ensures |r| == |SessionsOf(pid, patient).keys|
  {
    var ss := SessionsOf(pid, patient);
    seq(|ss.keys|, i requires 0 <= i < |ss.keys| => RecordOf(ss.keys[i], ss.entries[ss.keys[i]], patient.excel))
  }

  // -------------------------------------------------------------- sorting

  /** The sort key `(visit_type != "initial", session_id)`. */
  predicate Late(v: VisitRecord) { v.visitType != "initial" }

  predicate Before(a: VisitRecord, b: VisitRecord) {
    if Late(a) != Late(b) then !Late(a) else Less(a.sessionId, b.sessionId)
  }

  predicate SortedVisits(s: seq<VisitRecord>) {
    forall i, j :: 0 <= i < j < |s| ==> !Before(s[j], s[i])
  }

  lemma BeforeAsymmetric(a: VisitRecord, b: VisitRecord)
    requires Before(a, b)
    ensures !Before(b, a)
  {
    if Late(a) == Late(b) { LessAsymmetric(a.sessionId, b.sessionId); }
  }

  /** If `a` comes before `c`, any `b` comes after `a` or before `c`. */
  lemma BeforeSplits(a: VisitRecord, b: VisitRecord, c: VisitRecord)
    requires Before(a, c)
    ensures Before(a, b) || Before(b, c)
  {
    if Late(a) == Late(b) && Late(b) == Late(c) {
      LessTotal(a.sessionId, b.sessionId);
      if Less(b.sessionId, a.sessionId) {
        LessTransitive(b.sessionId, a.sessionId, c.sessionId);
      }
    }
  }

  /** Stable insertion: `x` goes after every element that does not come after it. */
  function InsertVisit(s: seq<VisitRecord>, x: VisitRecord): (r: seq<VisitRecord>)
    ensures |r| == |s| + 1
    ensures multiset(r) == multiset(s) + multiset{x}
  {
    if s == [] then [x]
    else
      var last := s[|s| - 1];
      if Before(x, last) then
        assert s == s[..|s| - 1] + [last];
        InsertVisit(s[..|s| - 1], x) + [last]
      else s + [x]
  }

  /** Python's stable `list.sort` by the key above. */
  function SortVisits(xs: seq<VisitRecord>): (r: seq<VisitRecord>)
    ensures |r| == |xs|
    ensures multiset(r) == multiset(xs)
  {
    if xs == [] then []
    else
      assert xs == xs[..|xs| - 1] + [xs[|xs| - 1]];
      InsertVisit(SortVisits(xs[..|xs| - 1]), xs[|xs| - 1])
  }

  lemma {:induction false} InsertVisitSorted(s: seq<VisitRecord>, x: VisitRecord)
    requires SortedVisits(s)
    ensures SortedVisits(InsertVisit(s, x))
  {
    if s != [] {
      var last := s[|s| - 1];
      var init := s[..|s| - 1];
      var r := InsertVisit(s, x);
      if Before(x, last) {
        InsertVisitSorted(init, x);
        var front := InsertVisit(init, x);
        assert r == front + [last];
        forall k | 0 <= k < |front|
          ensures !Before(last, front[k])
        {
          if front[k] == x {
            BeforeAsymmetric(x, last);
          } else {
            assert front[k] in multiset(front);
            assert front[k] in multiset(init);
            var m :| 0 <= m < |init| && init[m] == front[k];
            assert s[m] == init[m];
          }
        }
      } else {
        forall k | 0 <= k < |s|
          ensures !Before(x, s[k])
        {
          if k < |s| - 1 && Before(x, s[k]) {
            BeforeSplits(x, last, s[k]);
          }
        }
      }
    }
  }

  lemma {:induction false} SortVisitsSorted(xs: seq<VisitRecord>)
    ensures SortedVisits(SortVisits(xs))
  {
    if xs != [] {
      SortVisitsSorted(xs[..|xs| - 1]);
      InsertVisitSorted(SortVisits(xs[..|xs| - 1]), xs[|xs| - 1]);
    }
  }

  /** `build_longitudinal_data`: the visit records, initial first, then by session id. */
  function Longitudinal(pid: String, patient: PatientEntry): seq<VisitRecord>
    requires patient.sessions.Valid()
  {
    SortVisits(VisitRecords(pid, patient))
  }

  method BuildLongitudinalData(pid: String, patient: PatientEntry) returns (records: seq<VisitRecord>)
    requires patient.sessions.Valid()
    ensures records == Longitudinal(pid, patient)
  {
    var sessions := patient.sessions;
    if sessions.keys == [] {
      var sid := pid + "_visit_1";
      sessions := Put(sessions, sid, Session(sid, "initial", None, false, patient.dialogues, None));
    }
    assert sessions == SessionsOf(pid, patient);
    var phq9 := Phq9Of(patient.excel);
    var visitDate := VisitDateOf(patient.excel);
    var unsorted: seq<VisitRecord> := [];
    for i := 0 to |sessions.keys|
      invariant unsorted == VisitRecords(pid, patient)[..i]
    {
      var sid := sessions.keys[i];
      var session := sessions.entries[sid];
      var turns := FlattenTurns(session.dialogues);
      assert turns == Formatted(RawTurns(session.dialogues));
      var date := if session.date.Some? && session.date.value != "" then session.date else visitDate;
      unsorted := unsorted + [VisitRecord(sid, session.visitType, date, phq9, turns)];
      assert VisitRecords(pid, patient)[..i + 1] == VisitRecords(pid, patient)[..i] + [VisitRecords(pid, patient)[i]];
    }
    assert VisitRecords(pid, patient)[..|sessions.keys|] == VisitRecords(pid, patient);
    records := SortVisits(unsorted);
  }

  /**
   * One record per session (or the single default one), each session
   * once; initial visits come first and the rest is ordered by session id.
   */
  lemma LongitudinalShape(pid: String, patient: PatientEntry)
    requires patient.sessions.Valid()
    ensures var r := Longitudinal(pid, patient);
      |r| == (if patient.sessions.keys == [] then 1 else |patient.sessions.keys|) &&
      multiset(r) == multiset(VisitRecords(pid, patient)) &&
      SortedVisits(r) &&
      (forall i, j :: 0 <= i < j < |r| && !Late(r[j]) ==> !Late(r[i]))
  {
    SortVisitsSorted(VisitRecords(pid, patient));
  }

  /** A patient without sessions gets one "initial" visit `{id}_visit_1` with all its dialogues' turns. */
  lemma DefaultVisit(pid: String, patient: PatientEntry)
    requires patient.sessions.Valid() && patient.sessions.keys == []
    ensures Longitudinal(pid, patient) ==
      [VisitRecord(pid + "_visit_1", "initial", VisitDateOf(patient.excel), Phq9Of(patient.excel), Formatted(RawTurns(patient.dialogues)))]
  {
    var r := VisitRecords(pid, patient);
    assert |r| == 1;
    assert SortVisits(r) == InsertVisit(SortVisits(r[..0]), r[0]);
  }

  // --------------------------------------------------------- final format

  datatype Value = IntVal(n: int) | TextVal(s: String)

  /** A field kept only when it is not None. */
  function Present(name: String, v: Option<Value>): seq<(String, Value)> {
    if v.Some? then [(name, v.value)] else []
  }

  function TextField(o: Option<String>): Option<Value> {
    if o.Some? then Some(TextVal(o.value)) else None
  }

  /** The five demographic fields that are not None, in order. */
  function DemographicFields(excel: Option<ExcelInfo>): seq<(String, Value)> {
    if excel.None? then []
    else
      var d := excel.value.demographics;
      Present("age", if d.age.Some? then Some(IntVal(d.age.value)) else None) +
      Present("gender", TextField(d.gender)) +
      Present("occupation", TextField(d.occupation)) +
      Present("education", TextField(d.education)) +
      Present("marital_status", TextField(d.maritalStatus))
  }

  /** The demographics of the final record: None when no field is set. */
  function DemographicsOut(excel: Option<ExcelInfo>): (r: Option<seq<(String, Value)>>)
    ensures r.Some? ==> r.value != [] && |r.value| <= 5
    ensures r.None? <==> (excel.None? || (var d := excel.value.demographics;
      d.age.None? && d.gender.None? && d.occupation.None? && d.education.None? && d.maritalStatus.None?))
  {
    var fields := DemographicFields(excel);
    if fields == [] then None else Some(fields)
  }

  datatype PatientRecord = PatientRecord(datasetId: String, patientId: String,
    demographics: Option<seq<(String, Value)>>, longitudinal: seq<VisitRecord>)

  function RecordFor(datasetId: String, pid: String, patient: PatientEntry): PatientRecord
    requires patient.sessions.Valid()
  {
    PatientRecord(datasetId, pid, DemographicsOut(patient.excel), Longitudinal(pid, patient))
  }

  /** `convert_to_final_format`. */
  function FinalFormat(datasetId: String, merged: Merged): seq<PatientRecord>
    requires MergedValid(merged)
  {
    seq(|merged.keys|, i requires 0 <= i < |merged.keys| =>
      RecordFor(datasetId, merged.keys[i], merged.entries[merged.keys[i]]))
  }

  method PatientRecordFor(datasetId: String, pid: String, patient: PatientEntry) returns (record: PatientRecord)
    requires patient.sessions.Valid()
    ensures record == RecordFor(datasetId, pid, patient)
  {
    var fields: seq<(String, Value)> := [];
    if patient.excel.Some? {
      var info := patient.excel.value.demographics;
      fields := Present("age", if info.age.Some? then Some(IntVal(info.age.value)) else None) +
        Present("gender", TextField(info.gender)) + Present("occupation", TextField(info.occupation)) +
        Present("education", TextField(info.education)) + Present("marital_status", TextField(info.maritalStatus));
    }
    var longitudinal := BuildLongitudinalData(pid, patient);
    record := PatientRecord(datasetId, pid, if fields == [] then None else Some(fields), longitudinal);
  }

  method ConvertToFinalFormat(datasetId: String, merged: Merged) returns (dataset: seq<PatientRecord>)
    requires MergedValid(merged)
    ensures dataset == FinalFormat(datasetId, merged)
  {
    ghost var all := FinalFormat(datasetId, merged);
    dataset := [];
    for i := 0 to |merged.keys|
      invariant dataset == all[..i]
    {
      var record := NextRecord(datasetId, merged, i);
      TakeNext(all, i);
      dataset := dataset + [record];
    }
    assert all[..|merged.keys|] == all;
  }

  /** The loop body: the record of the `i`-th merged patient. */
  method NextRecord(datasetId: String, merged: Merged, i: nat) returns (record: PatientRecord)
    requires MergedValid(merged) && i < |merged.keys|
    ensures record == FinalFormat(datasetId, merged)[i]
  {
    var pid := merged.keys[i];
    record := PatientRecordFor(datasetId, pid, merged.entries[pid]);
  }

  /**
   * One record per merged patient, in merged order, each with the dataset
   * id and at least one visit.
   */
  lemma FinalFormatShape(datasetId: String, merged: Merged, i: nat)
    requires MergedValid(merged) && i < |merged.keys|
    ensures |FinalFormat(datasetId, merged)| == |merged.keys|
    ensures var r := FinalFormat(datasetId, merged)[i];
      r.datasetId == datasetId && r.patientId == merged.keys[i] && |r.longitudinal| >= 1
  {
    var pid := merged.keys[i];
    assert pid in merged.entries;
    LongitudinalShape(pid, merged.entries[pid]);
  }

  // ----------------------------------------------------------- statistics

  function SumBy<T>(xs: seq<T>, f: T -> nat): nat {
    if |xs| == 0 then 0 else SumBy(xs[..|xs| - 1], f) + f(xs[|xs| - 1])
  }

  function CountWhere<T>(xs: seq<T>, p: T -> bool): nat {
    if |xs| == 0 then 0 else CountWhere(xs[..|xs| - 1], p) + (if p(xs[|xs| - 1]) then 1 else 0)
  }

  /** How many elements have a key. */
  function CountKeyed<T, K>(xs: seq<T>, key: T -> Option<K>): nat {
    if xs == [] then 0 else CountKeyed(xs[..|xs| - 1], key) + (if key(xs[|xs| - 1]).Some? then 1 else 0)
  }

  /** How many elements have key `k`. */
  function CountKey<T, K(==)>(xs: seq<T>, key: T -> Option<K>, k: K): nat {
    if xs == [] then 0 else CountKey(xs[..|xs| - 1], key, k) + (if key(xs[|xs| - 1]) == Some(k) then 1 else 0)
  }

  lemma SumByStep<T>(xs: seq<T>, j: nat, f: T -> nat)
    requires j < |xs|
    ensures SumBy(xs[..j + 1], f) == SumBy(xs[..j], f) + f(xs[j])
  {
    assert xs[..j + 1][..j] == xs[..j];
  }

  lemma CountWhereStep<T>(xs: seq<T>, j: nat, p: T -> bool)
    requires j < |xs|
    ensures CountWhere(xs[..j + 1], p) == CountWhere(xs[..j], p) + (if p(xs[j]) then 1 else 0)
  {
    assert xs[..j + 1][..j] == xs[..j];
  }

  /** `counts[k] = counts.get(k, 0) + 1`. */
  function Increment<K>(counts: Dict<K, nat>, k: K): (r: Dict<K, nat>)
    requires counts.Valid()
    ensures r.Valid()
  {
    Put(counts, k, GetOr(counts, k, 0) + 1)
  }

  /** `t`, with each keyed element of `xs` counted once more under its key; elements without a key are skipped. */
  function Tally<T, K>(t: Dict<K, nat>, xs: seq<T>, key: T -> Option<K>): (r: Dict<K, nat>)
    requires t.Valid()
    ensures r.Valid()
  {
    if |xs| == 0 then t
    else
      var u := Tally(t, xs[..|xs| - 1], key);
      var k := key(xs[|xs| - 1]);
      if k.Some? then Increment(u, k.value) else u
  }

  /** A distribution: each key's count, keys in order of first appearance. */
  function TallyBy<T, K>(xs: seq<T>, key: T -> Option<K>): (r: Dict<K, nat>)
    ensures r.Valid()
  {
    Tally(Empty(), xs, key)
  }

  /** Counting one more element of `xs`. */
  lemma TallyStep<T, K>(t: Dict<K, nat>, xs: seq<T>, j: nat, key: T -> Option<K>)
    requires t.Valid() && j < |xs|
    ensures key(xs[j]).None? ==> Tally(t, xs[..j + 1], key) == Tally(t, xs[..j], key)
    ensures key(xs[j]).Some? ==> Tally(t, xs[..j + 1], key) == Increment(Tally(t, xs[..j], key), key(xs[j]).value)
  {
    var ys := xs[..j + 1];
    assert ys[..|ys| - 1] == xs[..j];
    assert ys[|ys| - 1] == xs[j];
  }

  /** Tallying two lists in a row is tallying their concatenation. */
  lemma {:induction false} TallyAppend<T, K>(t: Dict<K, nat>, a: seq<T>, b: seq<T>, key: T -> Option<K>)
    requires t.Valid()
    ensures Tally(t, a + b, key) == Tally(Tally(t, a, key), b, key)
  {
    if |b| == 0 {
      assert a + b == a;
    } else {
      var b' := b[..|b| - 1];
      assert (a + b)[..|a + b| - 1] == a + b';
      assert (a + b)[|a + b| - 1] == b[|b| - 1];
      TallyAppend(t, a, b', key);
    }
  }

  /** The sum of a distribution's counts. */
  function SumValues<K>(keys: seq<K>, entries: map<K, nat>): nat
    requires forall i :: 0 <= i < |keys| ==> keys[i] in entries
  {
    if keys == [] then 0 else SumValues(keys[..|keys| - 1], entries) + entries[keys[|keys| - 1]]
  }

  function Total<K>(t: Dict<K, nat>): nat
    requires t.Valid()
  {
    SumValues(t.keys, t.entries)
  }

  lemma {:induction false} SumValuesOther<K>(keys: seq<K>, entries: map<K, nat>, k: K, v: nat)
    requires forall i :: 0 <= i < |keys| ==> keys[i] in entries
    requires k !in keys
    ensures SumValues(keys, entries[k := v]) == SumValues(keys, entries)
  {
    if keys != [] { SumValuesOther(keys[..|keys| - 1], entries, k, v); }
  }

  lemma {:induction false} SumValuesBump<K>(keys: seq<K>, entries: map<K, nat>, k: K)
    requires forall i :: 0 <= i < |keys| ==> keys[i] in entries
    requires Distinct(keys) && k in keys
    ensures SumValues(keys, entries[k := entries[k] + 1]) == SumValues(keys, entries) + 1
  {
    var init := keys[..|keys| - 1];
    if keys[|keys| - 1] == k {
      assert k !in init;
      SumValuesOther(init, entries, k, entries[k] + 1);
    } else {
      SumValuesBump(init, entries, k);
    }
  }

  /** Counting one more occurrence of `k` adds one to the total. */
  lemma PutCountSum<K>(t: Dict<K, nat>, k: K)
    requires t.Valid()
    ensures Total(Increment(t, k)) == Total(t) + 1
  {
    var t' := Increment(t, k);
    if k in t.entries {
      SumValuesBump(t.keys, t.entries, k);
    } else {
      assert k !in t.keys;
      SumValuesOther(t.keys, t.entries, k, 1);
      assert t'.keys[..|t'.keys| - 1] == t.keys;
    }
  }

  /** Tallying adds the number of keyed elements to a distribution's total. */
  lemma {:induction false} TallyTotal<T, K>(t: Dict<K, nat>, xs: seq<T>, key: T -> Option<K>)
    requires t.Valid()
    ensures Total(Tally(t, xs, key)) == Total(t) + CountKeyed(xs, key)
  {
    if |xs| > 0 {
      var init := xs[..|xs| - 1];
      TallyTotal(t, init, key);
      if key(xs[|xs| - 1]).Some? {
        PutCountSum(Tally(t, init, key), key(xs[|xs| - 1]).value);
      }
    }
  }

  /** Tallying adds to each key's count the number of elements with that key. */
  lemma {:induction false} TallyCount<T, K>(t: Dict<K, nat>, xs: seq<T>, key: T -> Option<K>, k: K)
    requires t.Valid()
    ensures GetOr<K, nat>(Tally(t, xs, key), k, 0) == GetOr<K, nat>(t, k, 0) + CountKey(xs, key, k)
  {
    if |xs| > 0 {
      TallyCount(t, xs[..|xs| - 1], key, k);
    }
  }

  /** Every visit of every record, in order. */
  function AllVisits(data: seq<PatientRecord>): seq<VisitRecord> {
    if data == [] then [] else AllVisits(data[..|data| - 1]) + data[|data| - 1].longitudinal
  }

  predicate Truthy(v: Value) {
    match v
    case IntVal(n) => n != 0
    case TextVal(s) => s != ""
  }

  /** The value of the first field called `name`. */
  function Lookup(fields: seq<(String, Value)>, name: String): Option<Value> {
    if fields == [] then None
    else if fields[0].0 == name then Some(fields[0].1)
    else Lookup(fields[1..], name)
  }

  predicate HasDemographics(r: PatientRecord) { r.demographics.Some? && r.demographics.value != [] }

  /** The gender a record counts under, if it counts. */
  function GenderKey(r: PatientRecord): Option<Value> {
    if HasDemographics(r) then
      var g := Lookup(r.demographics.value, "gender");
      if g.Some? && Truthy(g.value) then g else None
    else None
  }

  function VisitTypeKey(v: VisitRecord): Option<String> { Some(v.visitType) }
  predicate HasPhq9(v: VisitRecord) { v.phq9.Some? }
  function VisitCount(r: PatientRecord): nat { |r.longitudinal| }
  function TurnCount(v: VisitRecord): nat { |v.dialogue| }

  datatype Stats = Stats(totalPatients: nat, withDemographics: nat, withPhq9: nat, totalVisits: nat,
    totalTurns: nat, visitTypes: Dict<String, nat>, genders: Dict<Value, nat>)

  /** `generate_statistics`; `withPhq9` counts visits, as the source does. */
  function StatsOf(data: seq<PatientRecord>): Stats {
    var visits := AllVisits(data);
    Stats(|data|, CountWhere(data, HasDemographics), CountWhere(visits, HasPhq9), SumBy(data, VisitCount),
      SumBy(visits, TurnCount), TallyBy(visits, VisitTypeKey), TallyBy(data, GenderKey))
  }

  lemma {:induction false} AllVisitsCount(data: seq<PatientRecord>)
    ensures |AllVisits(data)| == SumBy(data, VisitCount)
  {
    if data != [] { AllVisitsCount(data[..|data| - 1]); }
  }

  lemma {:induction false} CountAtMost<T>(xs: seq<T>, p: T -> bool)
    ensures CountWhere(xs, p) <= |xs|
  {
    if xs != [] { CountAtMost(xs[..|xs| - 1], p); }
  }

  lemma {:induction false} CountAllKeyed(xs: seq<VisitRecord>)
    ensures CountKeyed(xs, VisitTypeKey) == |xs|
  {
    if xs != [] { CountAllKeyed(xs[..|xs| - 1]); }
  }

  lemma {:induction false} GendersWithin(data: seq<PatientRecord>)
    ensures CountKeyed(data, GenderKey) <= CountWhere(data, HasDemographics)
  {
    if data != [] { GendersWithin(data[..|data| - 1]); }
  }

  lemma {:induction false} SumByAppend<T>(a: seq<T>, b: seq<T>, f: T -> nat)
    ensures SumBy(a + b, f) == SumBy(a, f) + SumBy(b, f)
  {
    if b != [] {
      assert (a + b)[..|a + b| - 1] == a + b[..|b| - 1];
      SumByAppend(a, b[..|b| - 1], f);
    } else {
      assert a + b == a;
    }
  }

  lemma {:induction false} CountWhereAppend<T>(a: seq<T>, b: seq<T>, p: T -> bool)
    ensures CountWhere(a + b, p) == CountWhere(a, p) + CountWhere(b, p)
  {
    if b != [] {
      assert (a + b)[..|a + b| - 1] == a + b[..|b| - 1];
      CountWhereAppend(a, b[..|b| - 1], p);
    } else {
      assert a + b == a;
    }
  }

  function RecordTurns(r: PatientRecord): nat { SumBy(r.longitudinal, TurnCount) }

  lemma {:induction false} TurnsPerRecord(data: seq<PatientRecord>)
    ensures SumBy(AllVisits(data), TurnCount) == SumBy(data, RecordTurns)
  {
    if data != [] {
      var init := data[..|data| - 1];
      TurnsPerRecord(init);
      SumByAppend(AllVisits(init), data[|data| - 1].longitudinal, TurnCount);
    }
  }

  /** Record `i`'s visits follow the visits of the records before it. */
  lemma AllVisitsStep(data: seq<PatientRecord>, i: nat)
    requires i < |data|
    ensures AllVisits(data[..i + 1]) == AllVisits(data[..i]) + data[i].longitudinal
  {
    assert data[..i + 1][..i] == data[..i];
  }

  /**
   * `generate_statistics`: one patient per record; the visit-type counts
   * add up to the total visits, itself the sum of the records' visit
   * lists; PHQ-9 visits are among them.
   */
  lemma VisitTotals(data: seq<PatientRecord>)
    ensures var s := StatsOf(data);
      s.totalPatients == |data| && Total(s.visitTypes) == s.totalVisits && s.withPhq9 <= s.totalVisits
  {
    TallyTotal(Empty(), AllVisits(data), VisitTypeKey);
    CountAllKeyed(AllVisits(data));
    AllVisitsCount(data);
    CountAtMost(AllVisits(data), HasPhq9);
  }

  /** The turn total is the sum over records of their visits' turns. */
  lemma TurnTotals(data: seq<PatientRecord>)
    ensures StatsOf(data).totalTurns == SumBy(data, RecordTurns)
  {
    TurnsPerRecord(data);
  }

  /** Gender counts stay within the records that have demographics, themselves within all records. */
  lemma GenderTotals(data: seq<PatientRecord>)
    ensures var s := StatsOf(data); Total(s.genders) <= s.withDemographics <= s.totalPatients
  {
    TallyTotal(Empty(), data, GenderKey);
    GendersWithin(data);
    CountAtMost(data, HasDemographics);
  }

  /** Each visit type counts the visits of that type. */
  lemma VisitTypeCount(data: seq<PatientRecord>, t: String)
    ensures GetOr<String, nat>(StatsOf(data).visitTypes, t, 0) == CountKey(AllVisits(data), VisitTypeKey, t)
  {
    TallyCount(Empty(), AllVisits(data), VisitTypeKey, t);
  }

  /** The per-visit counters, carried on over `visits`. */
  method CountVisits(visits: seq<VisitRecord>, phq9: nat, types: Dict<String, nat>, turns: nat)
    returns (phq9': nat, types': Dict<String, nat>, turns': nat)
    requires types.Valid()
    ensures phq9' == phq9 + CountWhere(visits, HasPhq9)
    ensures types' == Tally(types, visits, VisitTypeKey)
    ensures turns' == turns + SumBy(visits, TurnCount)
  {
    phq9', types', turns' := phq9, types, turns;
    for j := 0 to |visits|
      invariant phq9' == phq9 + CountWhere(visits[..j], HasPhq9)
      invariant types' == Tally(types, visits[..j], VisitTypeKey)
      invariant turns' == turns + SumBy(visits[..j], TurnCount)
    {
      CountWhereStep(visits, j, HasPhq9);
      SumByStep(visits, j, TurnCount);
      TallyStep(types, visits, j, VisitTypeKey);
      var visit := visits[j];
      phq9' := if visit.phq9.Some? then phq9' + 1 else phq9';
      types' := Increment(types', visit.visitType);
      turns' := turns' + |visit.dialogue|;
    }
    assert visits[..|visits|] == visits;
  }

  /** The per-record counters, for record `i`. */
  method CountRecord(data: seq<PatientRecord>, i: nat, withDemographics: nat, genders: Dict<Value, nat>)
    returns (withDemographics': nat, genders': Dict<Value, nat>)
    requires i < |data|
    requires withDemographics == CountWhere(data[..i], HasDemographics) && genders == TallyBy(data[..i], GenderKey)
    ensures withDemographics' == CountWhere(data[..i + 1], HasDemographics)
    ensures genders' == TallyBy(data[..i + 1], GenderKey)
  {
    var record := data[i];
    CountWhereStep(data, i, HasDemographics);
    TallyStep(Empty(), data, i, GenderKey);
    withDemographics', genders' := withDemographics, genders;
    if record.demographics.Some? && record.demographics.value != [] {
      withDemographics' := withDemographics' + 1;
      var gender := Lookup(record.demographics.value, "gender");
      if gender.Some? && Truthy(gender.value) {
        genders' := Increment(genders', gender.value);
      }
    }
  }

  /** The per-visit counters, over the visits of record `i`. */
  method CountRecordVisits(data: seq<PatientRecord>, i: nat, phq9: nat, types: Dict<String, nat>, turns: nat)
    returns (phq9': nat, types': Dict<String, nat>, turns': nat)
    requires i < |data|
    requires phq9 == CountWhere(AllVisits(data[..i]), HasPhq9)
    requires types == TallyBy(AllVisits(data[..i]), VisitTypeKey)
    requires turns == SumBy(AllVisits(data[..i]), TurnCount)
    ensures phq9' == CountWhere(AllVisits(data[..i + 1]), HasPhq9)
    ensures types' == TallyBy(AllVisits(data[..i + 1]), VisitTypeKey)
    ensures turns' == SumBy(AllVisits(data[..i + 1]), TurnCount)
  {
    VisitCountersStep(data, i);
    phq9', types', turns' := CountVisits(data[i].longitudinal, phq9, types, turns);
  }

  /** The visit counters over one more record are those over the earlier ones, carried through its visits. */
  lemma VisitCountersStep(data: seq<PatientRecord>, i: nat)
    requires i < |data|
    ensures CountWhere(AllVisits(data[..i + 1]), HasPhq9) == CountWhere(AllVisits(data[..i]), HasPhq9) + CountWhere(data[i].longitudinal, HasPhq9)
    ensures TallyBy(AllVisits(data[..i + 1]), VisitTypeKey) == Tally(TallyBy(AllVisits(data[..i]), VisitTypeKey), data[i].longitudinal, VisitTypeKey)
    ensures SumBy(AllVisits(data[..i + 1]), TurnCount) == SumBy(AllVisits(data[..i]), TurnCount) + SumBy(data[i].longitudinal, TurnCount)
  {
    var before := AllVisits(data[..i]);
    var visits := data[i].longitudinal;
    AllVisitsStep(data, i);
    CountWhereAppend(before, visits, HasPhq9);
    SumByAppend(before, visits, TurnCount);
    TallyAppend(Empty(), before, visits, VisitTypeKey);
  }

  /** `generate_statistics`: the counters of every record and of every visit, in one pass. */
  method GenerateStatistics(data: seq<PatientRecord>) returns (stats: Stats)
    ensures stats == StatsOf(data)
  {
    var withDemographics, withPhq9, totalVisits, totalTurns := 0, 0, 0, 0;
    var visitTypes: Dict<String, nat> := Empty();
    var genders: Dict<Value, nat> := Empty();
    for i := 0 to |data|
      invariant withDemographics == CountWhere(data[..i], HasDemographics)
      invariant genders == TallyBy(data[..i], GenderKey)
      invariant totalVisits == SumBy(data[..i], VisitCount)
      invariant withPhq9 == CountWhere(AllVisits(data[..i]), HasPhq9)
      invariant visitTypes == TallyBy(AllVisits(data[..i]), VisitTypeKey)
      invariant totalTurns == SumBy(AllVisits(data[..i]), TurnCount)
    {
      withDemographics, genders := CountRecord(data, i, withDemographics, genders);
      SumByStep(data, i, VisitCount);
      totalVisits := totalVisits + |data[i].longitudinal|;
      withPhq9, visitTypes, totalTurns := CountRecordVisits(data, i, withPhq9, visitTypes, totalTurns);
    }
    assert data[..|data|] == data;
    stats := Stats(|data|, withDemographics, withPhq9, totalVisits, totalTurns, visitTypes, genders);
  }
}
