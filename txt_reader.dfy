/**
 * Data_Pipeline/txt_reader.py: a transcript split into numbered turns, each
 * line's speaker found from a fixed list of prefixes or, failing that,
 * from keywords; and the session fields read from a file name.
 */
module TxtReader {
  import opened Text

  datatype Role = Doctor | Patient | Unknown

  /** `[:：]` */
  predicate IsColon(c: char) { c == ':' || c == '：' }

  /** `.*`: the text up to the first line break. */
  function UpToBreak(s: String): (r: String)
    ensures '\n' !in r
    ensures |r| <= |s| && r == s[..|r|]
    ensures '\n' !in s ==> r == s
  {
    match IndexOf(s, '\n')
    case None => s
    case Some(i) => s[..i]
  }

  /**
   * `^word[:：]\s*(.*)` (or `^word\s*(.*)` without the colon): the stripped
   * group, or nothing when the line does not start that way.
   */
  function PrefixContent(line: String, word: String, colon: bool): (r: Option<String>)
    ensures r.Some? ==> StartsWith(line, word)
  {
    if !StartsWith(line, word) then None
    else
      var rest := line[|word|..];
      if colon && (rest == [] || !IsColon(rest[0])) then None
      else
        var after := if colon then rest[1..] else rest;
        Some(Strip(UpToBreak(after[SpaceRun(after)..])))
  }

  /** The doctor patterns, in the order they are tried. */
  const DoctorPrefixes: seq<(String, bool)> := [("医生", true), ("Doctor", true), ("Dr.", false), ("D", true)]

  /** The patient patterns, in the order they are tried. */
  const PatientPrefixes: seq<(String, bool)> := [("病人", true), ("Patient", true), ("P", true), ("患者", true)]

  predicate Matches(line: String, pats: seq<(String, bool)>) {
    exists k :: 0 <= k < |pats| && PrefixContent(line, pats[k].0, pats[k].1).Some?
  }

  /** The group of the first pattern that matches. */
  function FirstPrefix(line: String, pats: seq<(String, bool)>): (r: Option<String>)
    ensures r.Some? <==> Matches(line, pats)
    ensures r.Some? ==> exists k :: 0 <= k < |pats| && r == PrefixContent(line, pats[k].0, pats[k].1)
  {
    if pats == [] then None
    else
      var here := PrefixContent(line, pats[0].0, pats[0].1);
      if here.Some? then here
      else
        assert forall k :: 1 <= k < |pats| ==> pats[k] == pats[1..][k - 1];
        FirstPrefix(line, pats[1..])
  }

  /** The index of the first `:` or `：`. */
  function FirstColon(s: String): (r: Option<nat>)
    ensures r.Some? ==> r.value < |s| && IsColon(s[r.value]) && forall k :: 0 <= k < r.value ==> !IsColon(s[k])
    ensures r.None? ==> forall k :: 0 <= k < |s| ==> !IsColon(s[k])
  {
    if s == [] then None
    else if IsColon(s[0]) then Some(0)
    else match FirstColon(s[1..])
      case None => None
      case Some(k) => Some(k + 1)
  }

  /** `re.split(r'[:：]', line, 1)[1].strip()` when there is a colon, the whole line otherwise. */
  function AfterColon(line: String): String {
    match FirstColon(line)
    case None => line
    case Some(i) => Strip(line[i + 1..])
  }

  predicate DoctorCue(line: String) {
    Contains(line, "医生") || Contains(line, "Doctor") || Contains(line, "Dr.")
  }

  predicate PatientCue(line: String) {
    Contains(line, "病人") || Contains(line, "Patient") || Contains(line, "患者")
  }

  /**
   * `_identify_role_and_content`: the doctor patterns, then the patient
   * patterns, then the keywords; a line that none of them catches is
   * "unknown" and keeps its whole text.
   */
  function Identify(line: String): (r: (Role, String))
    ensures Matches(line, DoctorPrefixes) ==> r.0 == Doctor
    ensures r.0 == Patient ==> !Matches(line, DoctorPrefixes) && (Matches(line, PatientPrefixes) || !DoctorCue(line))
    ensures r.0 == Unknown <==>
      !Matches(line, DoctorPrefixes) && !Matches(line, PatientPrefixes) && !DoctorCue(line) && !PatientCue(line)
    ensures r.0 == Unknown ==> r.1 == line
  {
    match FirstPrefix(line, DoctorPrefixes)
    case Some(c) => (Doctor, c)
    case None =>
      match FirstPrefix(line, PatientPrefixes)
      case Some(c) => (Patient, c)
      case None =>
        if DoctorCue(line) then (Doctor, AfterColon(line))
        else if PatientCue(line) then (Patient, AfterColon(line))
        else (Unknown, line)
  }

  /** After the leading whitespace, a text without a line break is kept whole by `.*`. */
  lemma GroupOf(x: String)
    requires '\n' !in x
    ensures Strip(UpToBreak(x[SpaceRun(x)..])) == Strip(x)
  {
    var n := SpaceRun(x);
    NoBreakAfter(x, n);
    assert UpToBreak(x[n..]) == x[n..];
    StripLeadingBlank(x, n);
  }

  lemma NoBreakAfter(x: String, n: nat)
    requires '\n' !in x && n <= |x|
    ensures '\n' !in x[n..]
  {
    var t := x[n..];
    forall i | 0 <= i < |t| ensures t[i] != '\n' { assert t[i] == x[n + i]; }
  }

  /** `word`, a colon, then `x`: the colon pattern of `word` matches with `x` stripped as its group. */
  lemma ColonContent(line: String, word: String, x: String)
    requires |word| < |line| && line[..|word|] == word && IsColon(line[|word|])
    requires line[|word| + 1..] == x && '\n' !in x
    ensures PrefixContent(line, word, true) == Some(Strip(x))
  {
    assert line[|word|..][1..] == x;
    GroupOf(x);
  }

  /** A line `医生：` + `x` is the doctor's, with `x` stripped as content. */
  lemma DoctorLine(x: String)
    requires '\n' !in x
    ensures Identify("医生：" + x) == (Doctor, Strip(x))
  {
    var line := "医生：" + x;
    assert line[..2] == "医生" && line[3..] == x;
    ColonContent(line, "医生", x);
  }

  /** A line `病人：` + `x` is the patient's, with `x` stripped as content. */
  lemma PatientLine(x: String)
    requires '\n' !in x
    ensures Identify("病人：" + x) == (Patient, Strip(x))
  {
    var line := "病人：" + x;
    assert line[..2] == "病人" && line[3..] == x;
    ColonContent(line, "病人", x);
    FirstPatternMatches(line, PatientPrefixes);
    assert line[0] == '病';
    forall k | 0 <= k < |DoctorPrefixes|
      ensures PrefixContent(line, DoctorPrefixes[k].0, DoctorPrefixes[k].1).None?
    {
      var w := DoctorPrefixes[k].0;
      assert w[0] == '医' || w[0] == 'D' by {
        assert k == 0 || k == 1 || k == 2 || k == 3;
      }
      OtherFirstChar(line, w, DoctorPrefixes[k].1);
    }
  }

  /** The first pattern in the list wins when it matches. */
  lemma FirstPatternMatches(line: String, pats: seq<(String, bool)>)
    requires pats != [] && PrefixContent(line, pats[0].0, pats[0].1).Some?
    ensures FirstPrefix(line, pats) == PrefixContent(line, pats[0].0, pats[0].1)
  {
  }

  /** A pattern whose word starts with another character does not match. */
  lemma OtherFirstChar(line: String, word: String, colon: bool)
    requires line != [] && word != [] && line[0] != word[0]
    ensures PrefixContent(line, word, colon).None?
  {
  }

  /** Dropping leading whitespace first does not change the stripped text. */
  lemma StripLeadingBlank(s: String, n: nat)
    requires n <= |s| && IsBlank(s[..n])
    ensures Strip(s[n..]) == Strip(s)
  {
    if n > 0 {
      assert IsSpace(s[0]);
      assert s[1..][..n - 1] == s[1..n];
      assert s[1..][n - 1..] == s[n..];
      StripLeadingBlank(s[1..], n - 1);
    }
  }

  // ---------------------------------------------------------- parse_dialogue

  /** One turn: its number, speaker, content and the 1-based number of its line. */
  datatype Turn = Turn(turnId: nat, role: Role, content: String, lineNumber: nat)

  /**
   * The turns of the lines: one per line that `clean` does not empty,
   * numbered from 1, each with what `classify` says of the cleaned text.
   * `parse_dialogue` cleans with `strip`.
   */
  function TurnsOf(lines: seq<String>, clean: String -> String, classify: String -> (Role, String)): (r: seq<Turn>)
    ensures |r| <= |lines|
  {
    if |lines| == 0 then []
    else
      var init := TurnsOf(lines[..|lines| - 1], clean, classify);
      var line := clean(lines[|lines| - 1]);
      if line == [] then init
      else
        var rc := classify(line);
        init + [Turn(|init| + 1, rc.0, rc.1, |lines|)]
  }

  /** `parse_dialogue`: the turns of the text's lines split at '\n', classified by `Identify`. */
  function Dialogue(text: String): seq<Turn> {
    TurnsOf(Split(text, '\n'), Strip, Identify)
  }

  method ParseDialogue(text: String) returns (turns: seq<Turn>)
    ensures turns == Dialogue(text)
  {
    var lines := Split(text, '\n');
    turns := [];
    var turnId := 1;
    var i := 0;
    while i < |lines|
      invariant 0 <= i <= |lines|
      invariant turns == TurnsOf(lines[..i], Strip, Identify)
      invariant turnId == |turns| + 1
    {
      var lineNumber := i + 1;
      var line := Strip(lines[i]);
      TurnsStep(lines, Strip, Identify, i);
      i := i + 1;
      if line == [] {
        continue;
      }
      var rc := Identify(line);
      turns := turns + [Turn(turnId, rc.0, rc.1, lineNumber)];
      turnId := turnId + 1;
    }
    assert lines[..|lines|] == lines;
  }

  /** The turns of one more line: those of the lines before it, then its own if `clean` leaves it non-empty. */
  lemma TurnsStep(lines: seq<String>, clean: String -> String, classify: String -> (Role, String), i: nat)
    requires i < |lines|
    ensures var r0 := TurnsOf(lines[..i], clean, classify);
      var rc := classify(clean(lines[i]));
      TurnsOf(lines[..i + 1], clean, classify) ==
        if clean(lines[i]) == [] then r0 else r0 + [Turn(|r0| + 1, rc.0, rc.1, i + 1)]
  {
    assert lines[..i + 1][..i] == lines[..i];
    assert lines[..i + 1][i] == lines[i];
  }

  /** The number of lines that `clean` does not empty. */
  function NonBlankCount(lines: seq<String>, clean: String -> String): nat {
    if |lines| == 0 then 0
    else NonBlankCount(lines[..|lines| - 1], clean) + (if clean(lines[|lines| - 1]) == [] then 0 else 1)
  }

  /** One turn per non-blank line. */
  lemma {:induction false} TurnsCount(lines: seq<String>, clean: String -> String, classify: String -> (Role, String))
    ensures |TurnsOf(lines, clean, classify)| == NonBlankCount(lines, clean)
  {
    if |lines| > 0 {
      TurnsCount(lines[..|lines| - 1], clean, classify);
    }
  }

  /**
   * The turn at position `k` is numbered `k + 1` and names its line, a
   * non-blank one, holding what `classify` says of it.
   */
  lemma {:induction false} TurnAt(lines: seq<String>, clean: String -> String, classify: String -> (Role, String), k: nat)
    requires k < |TurnsOf(lines, clean, classify)|
    ensures var t := TurnsOf(lines, clean, classify)[k];
      t.turnId == k + 1 && 1 <= t.lineNumber <= |lines| &&
      clean(lines[t.lineNumber - 1]) != [] &&
      t.role == classify(clean(lines[t.lineNumber - 1])).0 &&
      t.content == classify(clean(lines[t.lineNumber - 1])).1
  {
    var init := lines[..|lines| - 1];
    var r0 := TurnsOf(init, clean, classify);
    if k < |r0| {
      TurnAt(init, clean, classify, k);
      TurnOfInit(lines, clean, classify, k);
      var t := r0[k];
      assert lines[t.lineNumber - 1] == init[t.lineNumber - 1];
    } else {
      var line := clean(lines[|lines| - 1]);
      assert line != [];
      var rc := classify(line);
      assert TurnsOf(lines, clean, classify) == r0 + [Turn(k + 1, rc.0, rc.1, |lines|)];
    }
  }

  /** A turn of the earlier lines is still a turn, at the same position, once a line is added. */
  lemma TurnOfInit(lines: seq<String>, clean: String -> String, classify: String -> (Role, String), k: nat)
    requires |lines| > 0 && k < |TurnsOf(lines[..|lines| - 1], clean, classify)|
    ensures TurnsOf(lines, clean, classify)[k] == TurnsOf(lines[..|lines| - 1], clean, classify)[k]
  {
    var r0 := TurnsOf(lines[..|lines| - 1], clean, classify);
    var line := clean(lines[|lines| - 1]);
    if line != [] {
      var rc := classify(line);
      assert TurnsOf(lines, clean, classify) == r0 + [Turn(|r0| + 1, rc.0, rc.1, |lines|)];
    }
  }

  /** The turns follow the order of their lines. */
  lemma {:induction false} TurnsIncreasing(lines: seq<String>, clean: String -> String, classify: String -> (Role, String), k: nat)
    requires k + 1 < |TurnsOf(lines, clean, classify)|
    ensures TurnsOf(lines, clean, classify)[k].lineNumber < TurnsOf(lines, clean, classify)[k + 1].lineNumber
  {
    var init := lines[..|lines| - 1];
    var r0 := TurnsOf(init, clean, classify);
    if k + 1 < |r0| {
      TurnsIncreasing(init, clean, classify, k);
    } else {
      TurnAt(init, clean, classify, k);
    }
  }

  /** Every non-blank line gets a turn: the one after the turns of the lines before it. */
  lemma {:induction false} LineHasTurn(lines: seq<String>, clean: String -> String, classify: String -> (Role, String), j: nat)
    requires j < |lines| && clean(lines[j]) != []
    ensures var r := TurnsOf(lines, clean, classify);
      NonBlankCount(lines[..j], clean) < |r| && r[NonBlankCount(lines[..j], clean)].lineNumber == j + 1
  {
    var init := lines[..|lines| - 1];
    if j < |lines| - 1 {
      assert init[..j] == lines[..j];
      assert init[j] == lines[j];
      LineHasTurn(init, clean, classify, j);
    } else {
      assert init == lines[..j];
      TurnsCount(init, clean, classify);
    }
  }

  // ----------------------------------------------------- extract_session_info

  /**
   * `os.path.splitext(name)[0]`: the name without the text from its last
   * '.', unless that dot is in a directory part or only dots precede it in
   * the last part.
   */
  function StripExt(name: String): (r: String)
    ensures |r| <= |name| && r == name[..|r|]
  {
    match LastIndexOf(name, '.')
    case None => name
    case Some(d) =>
      var start := match LastIndexOf(name, '/') case None => 0 case Some(sep) => sep + 1;
      if start > d then name
      else if forall k :: start <= k < d ==> name[k] == '.' then name
      else name[..d]
  }

  /** ASCII-case-insensitive equality with a lower-case word. */
  predicate EqualsFolded(s: String, word: String) { Lower(s) == word }

  /** `(P\d+)_` at the start, either case of `P`: the id as written and the text after `_`. */
  function PatientIdPart(s: String): (r: Option<(String, String)>)
    ensures r.Some? ==> |r.value.0| >= 2 && (r.value.0[0] == 'P' || r.value.0[0] == 'p') && AllDigits(r.value.0[1..])
    ensures r.Some? ==> s == r.value.0 + "_" + r.value.1
  {
    if |s| == 0 || (s[0] != 'P' && s[0] != 'p') then None
    else
      var d := DigitRun(s[1..]);
      if d > 0 && 1 + d < |s| && s[1 + d] == '_' then
        assert s[..1 + d][1..] == s[1..][..d];
        assert s == s[..1 + d] + "_" + s[2 + d..];
        Some((s[..1 + d], s[2 + d..]))
      else None
  }

  /** `_?(\d+)$` after the visit word: the digits, or nothing. */
  function NumberTail(s: String): (r: Option<String>)
    ensures r.Some? ==> r.value != [] && AllDigits(r.value)
  {
    if s != [] && s[0] == '_' then (if |s| > 1 && AllDigits(s[1..]) then Some(s[1..]) else None)
    else if s != [] && AllDigits(s) then Some(s)
    else None
  }

  /** `(visit|session|v|s)_?(\d+)$`, the words tried in order: the word as written and the digits. */
  function VisitWordNumber(s: String, words: seq<String>): (r: Option<(String, String)>)
    ensures r.Some? ==> AllDigits(r.value.1) && r.value.1 != []
  {
    if words == [] then None
    else
      var w := words[0];
      if |w| <= |s| && EqualsFolded(s[..|w|], w) && NumberTail(s[|w|..]).Some? then
        Some((s[..|w|], NumberTail(s[|w|..]).value))
      else VisitWordNumber(s, words[1..])
  }

  /** The four file-name patterns, in the order they are tried. */
  datatype SessionPattern = VisitNumbered | Numbered | Named | Ordinal

  const SessionPatterns: seq<SessionPattern> := [VisitNumbered, Numbered, Named, Ordinal]

  /** What a pattern takes from a matching stem. */
  datatype SessionMatch = SessionMatch(patientId: String, visitPart: String, visitNumber: Option<nat>)

  /** One pattern against the stem: its patient id, its lower-cased visit part and, for the first, the number. */
  function MatchSession(p: SessionPattern, stem: String): (r: Option<SessionMatch>)
    ensures r.Some? ==> PatientIdPart(stem).Some? && r.value.patientId == PatientIdPart(stem).value.0
    ensures r.Some? && r.value.visitNumber.Some? ==> p == VisitNumbered
  {
    match PatientIdPart(stem)
    case None => None
    case Some(idRest) =>
      var rest := idRest.1;
      match p
      case VisitNumbered =>
        (match VisitWordNumber(rest, ["visit", "session", "v", "s"])
         case None => None
         case Some(wn) => Some(SessionMatch(idRest.0, Lower(wn.0), Some(ParseNat(wn.1)))))
      case Numbered =>
        if rest != [] && AllDigits(rest) then Some(SessionMatch(idRest.0, rest, None)) else None
      case Named =>
        var l := Lower(rest);
        if l == "initial" || l == "followup" || l == "follow_up" then Some(SessionMatch(idRest.0, l, None)) else None
      case Ordinal =>
        var l := Lower(rest);
        if l == "first" || l == "second" || l == "third" then Some(SessionMatch(idRest.0, l, None)) else None
  }

  /** The first of `pats` that matches. */
  function FirstSessionMatch(pats: seq<SessionPattern>, stem: String): (r: Option<SessionMatch>)
    ensures r.Some? ==> exists k :: 0 <= k < |pats| && MatchSession(pats[k], stem) == r
    ensures r.None? ==> forall k :: 0 <= k < |pats| ==> MatchSession(pats[k], stem).None?
  {
    if pats == [] then None
    else if MatchSession(pats[0], stem).Some? then MatchSession(pats[0], stem)
    else
      assert forall k :: 1 <= k < |pats| ==> pats[k] == pats[1..][k - 1];
      FirstSessionMatch(pats[1..], stem)
  }

  /** The session fields of a file. */
  datatype SessionInfo = SessionInfo(
    originalFilename: String, patientId: String, sessionId: String,
    visitType: String, visitNumber: Option<nat>, isInitial: bool)

  /** The visit type a visit part names, and whether it is the initial visit. */
  function VisitTypeOf(part: String): (r: (String, bool))
    ensures r.1 <==> r.0 == "initial"
  {
    if part == "initial" || part == "first" || part == "1" then ("initial", true)
    else if part == "followup" || part == "follow_up" || part == "second" || part == "2" then ("follow_up", false)
    else (part, false)
  }

  /** `extract_session_info`. */
  function SessionInfoOf(filename: String): (r: SessionInfo)
    ensures r.originalFilename == filename && r.sessionId == StripExt(filename)
    ensures r.isInitial ==> r.visitType == "initial"
    ensures r.visitNumber.Some? ==> MatchSession(VisitNumbered, StripExt(filename)).Some?
  {
    var stem := StripExt(filename);
    var info := SessionInfo(filename, "unknown", stem, "unknown", None, false);
    var matched :=
      match FirstSessionMatch(SessionPatterns, stem)
      case None => info
      case Some(m) =>
        var vt := VisitTypeOf(m.visitPart);
        info.(patientId := m.patientId, visitType := vt.0, isInitial := vt.1, visitNumber := m.visitNumber);
    if matched.patientId == "unknown" && '_' in stem then
      var parts := Split(stem, '_');
      SplitAtSeparator(stem, '_');
      matched.(patientId := parts[0], visitType := parts[1])
    else matched
  }

  lemma SplitAtSeparator(s: String, c: char)
    requires c in s
    ensures |Split(s, c)| >= 2
  {
  }

  method ExtractSessionInfo(filename: String) returns (info: SessionInfo)
    ensures info == SessionInfoOf(filename)
  {
    var stem := StripExt(filename);
    info := SessionInfo(filename, "unknown", stem, "unknown", None, false);
    var i := 0;
    while i < |SessionPatterns|
      invariant 0 <= i <= |SessionPatterns|
      invariant FirstSessionMatch(SessionPatterns, stem) == FirstSessionMatch(SessionPatterns[i..], stem)
      invariant info == SessionInfo(filename, "unknown", stem, "unknown", None, false)
    {
      var m := MatchSession(SessionPatterns[i], stem);
      if m.Some? {
        info := info.(patientId := m.value.patientId);
        var vt := VisitTypeOf(m.value.visitPart);
        info := info.(visitType := vt.0, isInitial := vt.1);
        info := info.(visitNumber := m.value.visitNumber);
        break;
      }
      i := i + 1;
    }
    if info.patientId == "unknown" && '_' in stem {
      var parts := Split(stem, '_');
      SplitAtSeparator(stem, '_');
      info := info.(patientId := parts[0], visitType := parts[1]);
    }
  }

  /** A stem without `_` matches no pattern and keeps the defaults. */
  lemma NoUnderscore(filename: String)
    requires '_' !in StripExt(filename)
    ensures var r := SessionInfoOf(filename);
      r.patientId == "unknown" && r.visitType == "unknown" && r.visitNumber.None? && !r.isInitial
  {
    var stem := StripExt(filename);
    assert PatientIdPart(stem).None?;
  }

  /** A stem that a pattern matches gets its patient id from the `P\d+` group. */
  lemma MatchedPatientId(filename: String)
    requires FirstSessionMatch(SessionPatterns, StripExt(filename)).Some?
    ensures var r := SessionInfoOf(filename);
      PatientIdPart(StripExt(filename)).Some? && r.patientId == PatientIdPart(StripExt(filename)).value.0
  {
  }
}
