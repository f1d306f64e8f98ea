/**
 * Speaker labelling of processed_data/label_speakers.py: an explicit pass
 * that rewrites `【D】` / `【P…】` tags and standalone role lines into
 * `[医生]：…` / `[患者]：…` / `[患者家属]：…` lines, and a heuristic pass,
 * used only when the explicit one found nothing, that alternates doctor
 * and non-doctor labels over the dialogue lines.
 */
module LabelSpeakers {
  import opened Text

  const LabelDoctor: String := "[医生]"
  const LabelPatient: String := "[患者]"
  const LabelFamily: String := "[患者家属]"

  predicate IsLabel(s: String) { s == LabelDoctor || s == LabelPatient || s == LabelFamily }

  predicate IsColon(c: char) { c == '：' || c == ':' }

  /** A labelled line `<speaker>：<text>`. */
  function Tagged(speaker: String, text: String): String {
    speaker + "：" + text
  }

  // ----------------------------------------------------- bracket tags

  datatype BracketTag = BracketTag(rawRole: String, text: String)

  /**
   * The pattern `^\s*【([^】]+)】\s*[：:]?\s*(.*)$`: the token between `【`
   * and the first `】` (not empty) and, after an optional colon, the rest
   * of the line; both trimmed.
   */
  function MatchBracket(line: String): (r: Option<BracketTag>)
    ensures r.Some? ==> Strip(r.value.text) == r.value.text
  {
    var t := line[SpaceRun(line)..];
    if |t| == 0 || t[0] != '【' then None
    else
      match IndexOf(t[1..], '】')
      case None => None
      case Some(k) =>
        if k == 0 then None
        else
          var rest := t[k + 2..];
          var u := rest[SpaceRun(rest)..];
          var v := if |u| > 0 && IsColon(u[0]) then u[1..] else u;
          StripIdempotent(v);
          Some(BracketTag(Strip(t[1..k + 1]), Strip(v)))
  }

  const BracketFamilyCues: seq<String> := ["家长", "家属", "爸爸", "妈妈", "妻子", "丈夫", "父母"]

  /** The speaker of a bracket token: `D…` is the doctor, `P…` the patient side. */
  function BracketLabel(raw: String): (r: Option<String>)
    ensures r.Some? ==> IsLabel(r.value)
    ensures r.None? <==> !StartsWith(raw, "D") && !StartsWith(raw, "P")
    ensures r == Some(LabelDoctor) <==> StartsWith(raw, "D")
    ensures StartsWith(raw, "P") && ContainsAny(raw, BracketFamilyCues) ==> r == Some(LabelFamily)
    ensures r == Some(LabelPatient) ==> !ContainsAny(raw, BracketFamilyCues) && (Contains(raw, "患者") || !Contains(raw, "孩子"))
  {
    if StartsWith(raw, "D") then Some(LabelDoctor)
    else if StartsWith(raw, "P") then
      if ContainsAny(raw, BracketFamilyCues) then Some(LabelFamily)
      else if Contains(raw, "患者") then Some(LabelPatient)
      else if Contains(raw, "孩子") then Some(LabelFamily)
      else Some(LabelPatient)
    else None
  }

  /** `normalize_bold_brackets`: the relabelled line, or None. */
  function NormalizeBoldBrackets(line: String): Option<String> {
    match MatchBracket(line)
    case None => None
    case Some(tag) =>
      match BracketLabel(tag.rawRole)
      case None => None
      case Some(speaker) => Some(Tagged(speaker, tag.text))
  }

  // ------------------------------------------------------- role lines

  /** `\s*[：:]?\s*$` at the start of `u`. */
  predicate ColonTail(u: String) {
    var v := u[SpaceRun(u)..];
    v == [] || (IsColon(v[0]) && IsBlank(v[1..]))
  }

  /** One of the role-line patterns: `^\s*<word>` (digits after it if `digits`), then a colon tail. */
  predicate RoleLine(line: String, word: String, digits: bool) {
    var t := line[SpaceRun(line)..];
    StartsWith(t, word) &&
    var r := t[|word|..];
    ColonTail(r[if digits then DigitRun(r) else 0..])
  }

  /** A role-line pattern: the word, whether digits may follow it, and its speaker. */
  datatype RolePattern = RolePattern(word: String, digits: bool, speaker: String)

  const RolePatterns: seq<RolePattern> := [
    RolePattern("医生", false, LabelDoctor),
    RolePattern("患者", false, LabelPatient),
    RolePattern("家属", true, LabelFamily)
  ]

  /** The speaker of the first pattern from `k` on that the line matches. */
  function RoleLineFrom(line: String, k: nat): (r: Option<String>)
    requires k <= |RolePatterns|
    ensures r.Some? ==> IsLabel(r.value)
    decreases |RolePatterns| - k
  {
    if k == |RolePatterns| then None
    else if RoleLine(line, RolePatterns[k].word, RolePatterns[k].digits) then Some(RolePatterns[k].speaker)
    else RoleLineFrom(line, k + 1)
  }

  function RoleLineLabel(line: String): (r: Option<String>)
    ensures r.Some? ==> IsLabel(r.value)
  {
    RoleLineFrom(line, 0)
  }

  /** The pattern loop of `apply_explicit_mapping`, stopping at the first match. */
  method MatchRoleLine(line: String) returns (hit: Option<String>)
    ensures hit == RoleLineLabel(line)
  {
    var k := 0;
    while k < |RolePatterns|
      invariant k <= |RolePatterns|
      invariant RoleLineFrom(line, k) == RoleLineLabel(line)
    {
      var p := RolePatterns[k];
      if RoleLine(line, p.word, p.digits) {
        return Some(p.speaker);
      }
      k := k + 1;
    }
    return None;
  }

  // ----------------------------------------------------- explicit pass

  /** How the explicit pass reads one line. */
  datatype LineKind =
    | BracketLine(relabelled: String)  // `normalize_bold_brackets` gave a line
    | RoleMarker(speaker: String)      // a standalone role line
    | TextLine(stripped: String)       // anything else, with its trimmed text

  function Classify(line: String): (k: LineKind)
    ensures k.RoleMarker? ==> IsLabel(k.speaker)
  {
    match NormalizeBoldBrackets(line)
    case Some(b) => BracketLine(b)
    case None =>
      match RoleLineLabel(line)
      case Some(r) => RoleMarker(r)
      case None => TextLine(Strip(line))
  }

  function Kinds(lines: seq<String>): (r: seq<LineKind>)
    ensures |r| == |lines|
  {
    seq(|lines|, i requires 0 <= i < |lines| => Classify(lines[i]))
  }

  /** The state of `apply_explicit_mapping` after some lines. */
  datatype Explicit = Explicit(out: seq<String>, role: Option<String>, changed: bool, hits: nat)

  const ExplicitStart: Explicit := Explicit([], None, false, 0)

  function ExplicitStep(st: Explicit, line: String, kind: LineKind): Explicit {
    match kind
    case BracketLine(b) => st.(out := st.out + [b], changed := st.changed || line != b, hits := st.hits + 1)
    case RoleMarker(r) => st.(role := Some(r), hits := st.hits + 1)
    case TextLine(s) =>
      if st.role.Some? && s != [] then
        var tagged := Tagged(st.role.value, s);
        st.(out := st.out + [tagged], changed := st.changed || tagged != line)
      else st.(out := st.out + [line])
  }

  /** The state after `lines[..k]`, each line read as its kind. */
  function ExplicitFold(lines: seq<String>, kinds: seq<LineKind>, k: nat): Explicit
    requires k <= |lines| == |kinds|
  {
    if k == 0 then ExplicitStart
    else ExplicitStep(ExplicitFold(lines, kinds, k - 1), lines[k - 1], kinds[k - 1])
  }

  /** What `apply_explicit_mapping(lines)` computes. */
  function ExplicitMapping(lines: seq<String>): Explicit {
    ExplicitFold(lines, Kinds(lines), |lines|)
  }

  lemma FoldStep(lines: seq<String>, kinds: seq<LineKind>, i: nat, st: Explicit)
    requires i < |lines| == |kinds| && ExplicitFold(lines, kinds, i) == st
    ensures ExplicitFold(lines, kinds, i + 1) == ExplicitStep(st, lines[i], kinds[i])
  {
  }

  /** A line the bracket pattern relabels is a bracket line. */
  lemma ClassifyBracket(line: String, b: String)
    requires NormalizeBoldBrackets(line) == Some(b)
    ensures Classify(line) == BracketLine(b)
  {
  }

  /** The body of the line loop of `apply_explicit_mapping`. */
  method ExplicitFeed(line: String, out: seq<String>, currentRole: Option<String>, changed: bool, hits: nat)
    returns (out': seq<String>, currentRole': Option<String>, changed': bool, hits': nat)
    ensures Explicit(out', currentRole', changed', hits') ==
      ExplicitStep(Explicit(out, currentRole, changed, hits), line, Classify(line))
  {
    var bracket := NormalizeBoldBrackets(line);
    if bracket.Some? {
      ClassifyBracket(line, bracket.value);
      out', currentRole', changed', hits' := BracketFeed(line, bracket.value, out, currentRole, changed, hits);
    } else {
      out', currentRole', changed', hits' := PlainFeed(line, out, currentRole, changed, hits);
    }
  }

  /** A bold bracket tag: the relabelled line is kept and counted as a hit. */
  method BracketFeed(line: String, b: String, out: seq<String>, currentRole: Option<String>, changed: bool, hits: nat)
    returns (out': seq<String>, currentRole': Option<String>, changed': bool, hits': nat)
    ensures Explicit(out', currentRole', changed', hits') ==
      ExplicitStep(Explicit(out, currentRole, changed, hits), line, BracketLine(b))
  {
    out', currentRole', changed', hits' := out + [b], currentRole, changed || line != b, hits + 1;
  }

  /** No bracket tag: a role line switches the current role, any other line is text. */
  method PlainFeed(line: String, out: seq<String>, currentRole: Option<String>, changed: bool, hits: nat)
    returns (out': seq<String>, currentRole': Option<String>, changed': bool, hits': nat)
    requires NormalizeBoldBrackets(line).None?
    ensures Explicit(out', currentRole', changed', hits') ==
      ExplicitStep(Explicit(out, currentRole, changed, hits), line, Classify(line))
  {
    var roleHit := MatchRoleLine(line);
    if roleHit.Some? {
      out', currentRole', changed', hits' := out, roleHit, changed, hits + 1;
    } else {
      out', changed' := TextFeed(line, out, currentRole, changed, hits);
      currentRole', hits' := currentRole, hits;
    }
  }

  /** A line that is neither a bracket line nor a role line, tagged with the current role when there is one. */
  method TextFeed(line: String, out: seq<String>, currentRole: Option<String>, changed: bool, ghost hits: nat)
    returns (out': seq<String>, changed': bool)
    ensures Explicit(out', currentRole, changed', hits) ==
      ExplicitStep(Explicit(out, currentRole, changed, hits), line, TextLine(Strip(line)))
  {
    var stripped := Strip(line);
    if currentRole.Some? && stripped != [] {
      var newLine := Tagged(currentRole.value, stripped);
      out' := out + [newLine];
      changed' := changed || newLine != line;
    } else {
      out' := out + [line];
      changed' := changed;
    }
  }

  method ApplyExplicitMapping(lines: seq<String>) returns (out: seq<String>, changed: bool, hits: nat)
    ensures out == ExplicitMapping(lines).out
    ensures changed == ExplicitMapping(lines).changed
    ensures hits == ExplicitMapping(lines).hits
  {
    ghost var kinds := Kinds(lines);
    out, changed, hits := [], false, 0;
    var currentRole: Option<String> := None;
    var i := 0;
    while i < |lines|
      invariant i <= |lines|
      invariant ExplicitFold(lines, kinds, i) == Explicit(out, currentRole, changed, hits)
    {
      FoldStep(lines, kinds, i, Explicit(out, currentRole, changed, hits));
      out, currentRole, changed, hits := ExplicitFeed(lines[i], out, currentRole, changed, hits);
      i := i + 1;
    }
  }

  function BracketCount(kinds: seq<LineKind>, k: nat): nat
    requires k <= |kinds|
  {
    if k == 0 then 0 else BracketCount(kinds, k - 1) + (if kinds[k - 1].BracketLine? then 1 else 0)
  }

  function RoleLineCount(kinds: seq<LineKind>, k: nat): nat
    requires k <= |kinds|
  {
    if k == 0 then 0 else RoleLineCount(kinds, k - 1) + (if kinds[k - 1].RoleMarker? then 1 else 0)
  }

  lemma FoldCounts(lines: seq<String>, kinds: seq<LineKind>, k: nat)
    requires k <= |lines| == |kinds|
    ensures |ExplicitFold(lines, kinds, k).out| + RoleLineCount(kinds, k) == k
    ensures ExplicitFold(lines, kinds, k).hits == BracketCount(kinds, k) + RoleLineCount(kinds, k)
  {
    FoldOutLength(lines, kinds, k);
    FoldHits(lines, kinds, k);
  }

  lemma {:induction false} FoldOutLength(lines: seq<String>, kinds: seq<LineKind>, k: nat)
    requires k <= |lines| == |kinds|
    ensures |ExplicitFold(lines, kinds, k).out| + RoleLineCount(kinds, k) == k
  {
    if k > 0 {
      FoldOutLength(lines, kinds, k - 1);
    }
  }

  lemma FoldHits(lines: seq<String>, kinds: seq<LineKind>, k: nat)
    requires k <= |lines| == |kinds|
    ensures ExplicitFold(lines, kinds, k).hits == BracketCount(kinds, k) + RoleLineCount(kinds, k)
  {
    FoldHitCount(lines, kinds, k);
    HitCountSplit(kinds, k);
  }

  /** The lines that are not text: bracket lines and role lines. */
  function HitCount(kinds: seq<LineKind>, k: nat): nat
    requires k <= |kinds|
  {
    if k == 0 then 0 else HitCount(kinds, k - 1) + (if kinds[k - 1].TextLine? then 0 else 1)
  }

  lemma {:induction false} HitCountSplit(kinds: seq<LineKind>, k: nat)
    requires k <= |kinds|
    ensures HitCount(kinds, k) == BracketCount(kinds, k) + RoleLineCount(kinds, k)
  {
    if k > 0 {
      HitCountSplit(kinds, k - 1);
    }
  }

  lemma {:induction false} FoldHitCount(lines: seq<String>, kinds: seq<LineKind>, k: nat)
    requires k <= |lines| == |kinds|
    ensures ExplicitFold(lines, kinds, k).hits == HitCount(kinds, k)
  {
    if k > 0 {
      FoldHitCount(lines, kinds, k - 1);
      StepHits(ExplicitFold(lines, kinds, k - 1), lines[k - 1], kinds[k - 1]);
    }
  }

  /** Bracket lines and role lines are hits; text lines are not. */
  lemma StepHits(st: Explicit, line: String, kind: LineKind)
    ensures ExplicitStep(st, line, kind).hits == st.hits + (if kind.TextLine? then 0 else 1)
  {
  }

  /**
   * Role lines are dropped and every other line gives one output line; the
   * hits are the bracket tags plus the role lines.
   */
  lemma ExplicitCounts(lines: seq<String>)
    ensures var e := ExplicitMapping(lines);
      && |e.out| == |lines| - RoleLineCount(Kinds(lines), |lines|)
      && e.hits == BracketCount(Kinds(lines), |lines|) + RoleLineCount(Kinds(lines), |lines|)
  {
    FoldCounts(lines, Kinds(lines), |lines|);
  }

  /** A line neither pattern of the explicit pass matches. */
  predicate Plain(line: String) {
    NormalizeBoldBrackets(line).None? && RoleLineLabel(line).None?
  }

  lemma NotRoleLine(line: String, k: nat)
    requires |line| > 0 && line[0] == '['
    requires k <= |RolePatterns|
    ensures RoleLineFrom(line, k).None?
    decreases |RolePatterns| - k
  {
    assert SpaceRun(line) == 0;
    assert line[0..] == line;
    if k < |RolePatterns| {
      assert !StartsWith(line, RolePatterns[k].word);
      NotRoleLine(line, k + 1);
    }
  }

  /** A line starting with `[` matches neither pattern; every label does. */
  lemma TaggedIsPlain(speaker: String, text: String)
    requires IsLabel(speaker)
    ensures Plain(Tagged(speaker, text))
  {
    var line := Tagged(speaker, text);
    assert line[0] == '[';
    assert SpaceRun(line) == 0;
    assert line[0..] == line;
    NotRoleLine(line, 0);
  }

  /** What the explicit pass emits for a line of each kind is plain. */
  predicate PlainOutputs(line: String, kind: LineKind) {
    && (kind.BracketLine? ==> Plain(kind.relabelled))
    && (kind.RoleMarker? ==> IsLabel(kind.speaker))
    && (kind.TextLine? ==> Plain(line))
  }

  lemma ClassifyPlainOutputs(line: String)
    ensures PlainOutputs(line, Classify(line))
  {
    match MatchBracket(line)
    case None =>
    case Some(tag) =>
      match BracketLabel(tag.rawRole)
      case None =>
      case Some(speaker) => TaggedIsPlain(speaker, tag.text);
  }

  predicate AllOk(xs: seq<String>, ok: String -> bool) {
    forall j :: 0 <= j < |xs| ==> ok(xs[j])
  }

  /** What one line adds to the output satisfies `ok` under the fold's conditions. */
  predicate KindOk(line: String, kind: LineKind, ok: String -> bool) {
    && (kind.BracketLine? ==> ok(kind.relabelled))
    && (kind.TextLine? ==> ok(line))
    && (kind.RoleMarker? ==> IsLabel(kind.speaker))
  }

  lemma StepOutputs(st: Explicit, line: String, kind: LineKind, ok: String -> bool)
    requires AllOk(st.out, ok) && (st.role.Some? ==> IsLabel(st.role.value))
    requires KindOk(line, kind, ok)
    requires forall sp, t :: IsLabel(sp) ==> ok(Tagged(sp, t))
    ensures AllOk(ExplicitStep(st, line, kind).out, ok)
    ensures ExplicitStep(st, line, kind).role.Some? ==> IsLabel(ExplicitStep(st, line, kind).role.value)
  {
    var next := ExplicitStep(st, line, kind);
    if kind.TextLine? && st.role.Some? && kind.stripped != [] {
      assert next.out == st.out + [Tagged(st.role.value, kind.stripped)];
    }
  }

  /**
   * Every line the fold emits satisfies `ok` when the relabelled bracket
   * lines, the passed-through text lines and every tagged line do.
   */
  lemma {:induction false} FoldOutputs(lines: seq<String>, kinds: seq<LineKind>, k: nat, ok: String -> bool)
    requires k <= |lines| == |kinds|
    requires forall j :: 0 <= j < |lines| ==> KindOk(lines[j], kinds[j], ok)
    requires forall sp, t :: IsLabel(sp) ==> ok(Tagged(sp, t))
    ensures AllOk(ExplicitFold(lines, kinds, k).out, ok)
    ensures ExplicitFold(lines, kinds, k).role.Some? ==> IsLabel(ExplicitFold(lines, kinds, k).role.value)
  {
    if k > 0 {
      FoldOutputs(lines, kinds, k - 1, ok);
      StepOutputs(ExplicitFold(lines, kinds, k - 1), lines[k - 1], kinds[k - 1], ok);
    }
  }

  lemma {:induction false} TextLinesUnchanged(lines: seq<String>, kinds: seq<LineKind>, k: nat)
    requires k <= |lines| == |kinds|
    requires forall j :: 0 <= j < |kinds| ==> kinds[j].TextLine?
    ensures ExplicitFold(lines, kinds, k) == Explicit(lines[..k], None, false, 0)
  {
    if k > 0 {
      TextLinesUnchanged(lines, kinds, k - 1);
      assert lines[..k] == lines[..k - 1] + [lines[k - 1]];
    }
  }

  /**
   * The explicit pass is idempotent: on its own output it matches
   * nothing, changes nothing and reports no hits.
   */
  lemma ExplicitIdempotent(lines: seq<String>)
    ensures var out := ExplicitMapping(lines).out;
      ExplicitMapping(out) == Explicit(out, None, false, 0)
  {
    var kinds := Kinds(lines);
    forall j | 0 <= j < |lines|
      ensures KindOk(lines[j], kinds[j], Plain)
    {
      ClassifyPlainOutputs(lines[j]);
    }
    forall sp, t | IsLabel(sp)
      ensures Plain(Tagged(sp, t))
    {
      TaggedIsPlain(sp, t);
    }
    FoldOutputs(lines, kinds, |lines|, Plain);
    var out := ExplicitMapping(lines).out;
    var outKinds := Kinds(out);
    forall j | 0 <= j < |out|
      ensures outKinds[j].TextLine?
    {
      assert Plain(out[j]);
    }
    TextLinesUnchanged(out, outKinds, |out|);
    assert out[..|out|] == out;
  }

  // ------------------------------------------------- heuristic helpers

  const MetaPrefixes: seq<String> := ["关键词", "关键字", "文字记录", "文本记录", "对话记录"]

  /** `\d{1,2}<c>` at the start of `s`: the index just after `c`. */
  function SmallNumberThen(s: String, c: char): (r: Option<nat>)
    requires !IsDigit(c)
    ensures r.Some? ==> 2 <= r.value <= |s| && r.value <= 3 && s[r.value - 1] == c
    ensures r.Some? ==> AllDigits(s[..r.value - 1])
  {
    if |s| >= 2 && IsDigit(s[0]) && s[1] == c then Some(2)
    else if |s| >= 3 && IsDigit(s[0]) && IsDigit(s[1]) && s[2] == c then Some(3)
    else None
  }

  /** `\d{4}年\s*\d{1,2}月\s*\d{1,2}日` at the start of `s`. */
  predicate DateAt(s: String) {
    |s| >= 5 && AllDigits(s[..4]) && s[4] == '年' &&
    var t := s[5..];
    var u := t[SpaceRun(t)..];
    match SmallNumberThen(u, '月')
    case None => false
    case Some(e) =>
      var w := u[e..];
      SmallNumberThen(w[SpaceRun(w)..], '日').Some?
  }

  /** The date pattern found anywhere in `s`. */
  predicate HasDate(s: String) {
    exists i :: 0 <= i < |s| && DateAt(s[i..])
  }

  /** `looks_meta`: a blank line, a header line or a line carrying a date. */
  predicate LooksMeta(line: String) {
    var s := Strip(line);
    s == [] || StartsWithAny(s, MetaPrefixes) || HasDate(s)
  }

  /** `should_skip_line_for_heuristic`: meta lines and bare `<role>：` lines. */
  predicate SkipLine(line: String) {
    var s := Strip(line);
    s == [] || LooksMeta(s) || EndsWith(s, ":") || EndsWith(s, "：")
  }

  lemma {:induction false} ParseNatBelow(ds: String)
    requires AllDigits(ds) && |ds| <= 3
    ensures ParseNat(ds) < (if |ds| == 0 then 1 else if |ds| == 1 then 10 else if |ds| == 2 then 100 else 1000)
  {
    if |ds| > 0 {
      ParseNatBelow(ds[..|ds| - 1]);
    }
  }

  /** `(\d{1,3})\s*岁` anchored at the start of `s`: at most three digits, then `岁`. */
  function AgeAt(s: String): (r: Option<nat>)
    ensures r.Some? ==> r.value < 1000
    ensures r.Some? ==> |s| > 0 && IsDigit(s[0])
  {
    var d := if DigitRun(s) < 3 then DigitRun(s) else 3;
    if d == 0 then None
    else
      var rest := s[d..];
      var u := rest[SpaceRun(rest)..];
      if |u| > 0 && u[0] == '岁' then
        assert AllDigits(s[..d]) by { assert s[..d] == s[..DigitRun(s)][..d]; }
        ParseNatBelow(s[..d]);
        Some(ParseNat(s[..d]))
      else None
  }

  /** The leftmost age match at or after position `i`. */
  function AgeFrom(s: String, i: nat): (r: Option<nat>)
    requires i <= |s|
    ensures r.Some? ==> r.value < 1000
    ensures r.Some? <==> exists j :: i <= j < |s| && AgeAt(s[j..]).Some?
    ensures r.Some? ==> exists j :: i <= j < |s| && AgeAt(s[j..]) == r && NoAgeBetween(s, i, j)
    decreases |s| - i
  {
    if i == |s| then None
    else
      match AgeAt(s[i..])
      case Some(a) => Some(a)
      case None =>
        var r := AgeFrom(s, i + 1);
        AgeFromNext(s, i, r);
        r
  }

  /** With no match at `i`, the leftmost match from `i + 1` on is the leftmost from `i` on. */
  lemma AgeFromNext(s: String, i: nat, r: Option<nat>)
    requires i < |s| && AgeAt(s[i..]).None?
    requires r.Some? <==> exists j :: i + 1 <= j < |s| && AgeAt(s[j..]).Some?
    requires r.Some? ==> exists j :: i + 1 <= j < |s| && AgeAt(s[j..]) == r && NoAgeBetween(s, i + 1, j)
    ensures r.Some? <==> exists j :: i <= j < |s| && AgeAt(s[j..]).Some?
    ensures r.Some? ==> exists j :: i <= j < |s| && AgeAt(s[j..]) == r && NoAgeBetween(s, i, j)
  {
    if r.Some? {
      var j :| i + 1 <= j < |s| && AgeAt(s[j..]) == r && NoAgeBetween(s, i + 1, j);
      assert NoAgeBetween(s, i, j);
    }
  }

  /** No age match starts at a position from `i` up to, not including, `j`. */
  predicate NoAgeBetween(s: String, i: nat, j: nat)
    requires i <= j <= |s|
  {
    forall m :: i <= m < j ==> AgeAt(s[m..]).None?
  }

  /** `extract_age_from_stem`. */
  function AgeFromStem(stem: String): (r: Option<nat>)
    ensures r.Some? ==> r.value < 1000
    ensures r.Some? <==> exists j :: 0 <= j < |stem| && AgeAt(stem[j..]).Some?
  {
    AgeFrom(stem, 0)
  }

  predicate IsAddressSep(c: char) { c == '，' || c == ',' || c == ' ' }

  function SepRun(s: String): (n: nat)
    ensures n <= |s|
    ensures n < |s| ==> !IsAddressSep(s[n])
    ensures forall i :: 0 <= i < n ==> IsAddressSep(s[i])
  {
    if |s| > 0 && IsAddressSep(s[0]) then 1 + SepRun(s[1..]) else 0
  }

  /** `is_patient_side_explicit`: the line opens by addressing the doctor. */
  predicate IsPatientSideExplicit(line: String) {
    var s := Strip(line);
    || (StartsWith(s, "你好") && StartsWith(s[2..][SepRun(s[2..])..], "医生"))
    || (|s| >= 3 && s[..2] == "医生" && (IsAddressSep(s[2]) || IsColon(s[2])))
    || StartsWith(s, "请问医生")
    || StartsWith(s, "医生你好")
  }

  const FamilyCues: seq<String> := ["我家孩子", "孩子", "我儿子", "我女儿", "我孙子", "我孙女", "他妈妈", "他爸爸", "家里"]

  /** `choose_non_doctor_label`: the label alternating with the doctor's. */
  function ChooseNonDoctorLabel(age: Option<nat>, line: String): (r: String)
    ensures IsLabel(r) && r != LabelDoctor
    ensures r == LabelFamily <==> ContainsAny(Strip(line), FamilyCues) || (age.Some? && age.value < 18)
  {
    var s := Strip(line);
    if ContainsAny(s, FamilyCues) then LabelFamily
    else if age.Some? && age.value < 18 then LabelFamily
    else LabelPatient
  }

  // ---------------------------------------------------- heuristic pass

  /** Which lines the heuristic skips. */
  function Skips(lines: seq<String>): (r: seq<bool>)
    ensures |r| == |lines|
  {
    seq(|lines|, i requires 0 <= i < |lines| => SkipLine(lines[i]))
  }

  /** The first index at or after `i` that is not skipped. */
  function FirstUnskipped(skips: seq<bool>, i: nat): (r: Option<nat>)
    requires i <= |skips|
    ensures r.Some? ==> i <= r.value < |skips| && !skips[r.value]
    ensures r.Some? ==> forall j :: i <= j < r.value ==> skips[j]
    ensures r.None? ==> forall j :: i <= j < |skips| ==> skips[j]
    decreases |skips| - i
  {
    if i == |skips| then None
    else if !skips[i] then Some(i)
    else FirstUnskipped(skips, i + 1)
  }

  /** The role after the current one: the doctor and `nonDoctor` take turns. */
  function Flip(role: String, nonDoctor: String): String {
    if role == LabelDoctor then nonDoctor else LabelDoctor
  }

  /** The role of the `m`-th tagged line (counting from 0). */
  function RoleAfter(start: String, nonDoctor: String, m: nat): String {
    if m == 0 then start else Flip(RoleAfter(start, nonDoctor, m - 1), nonDoctor)
  }

  /** The state of the tagging loop of `apply_heuristic_mapping`. */
  datatype Heuristic = Heuristic(out: seq<String>, role: String, count: nat)

  function HeuristicStep(st: Heuristic, line: String, skip: bool, nonDoctor: String): Heuristic {
    if skip then st.(out := st.out + [line])
    else Heuristic(st.out + [Tagged(st.role, Strip(line))], Flip(st.role, nonDoctor), st.count + 1)
  }

  /** The state after `lines[..k]`, `skips` telling which lines are skipped. */
  function HeuristicFold(lines: seq<String>, skips: seq<bool>, start: String, nonDoctor: String, k: nat): Heuristic
    requires k <= |lines| == |skips|
  {
    if k == 0 then Heuristic([], start, 0)
    else HeuristicStep(HeuristicFold(lines, skips, start, nonDoctor, k - 1), lines[k - 1], skips[k - 1], nonDoctor)
  }

  /** The number of lines in `skips[..k]` that are not skipped. */
  function TagCount(skips: seq<bool>, k: nat): nat
    requires k <= |skips|
  {
    if k == 0 then 0 else TagCount(skips, k - 1) + (if skips[k - 1] then 0 else 1)
  }

  /** The first role: the non-doctor label when the first line addresses the doctor. */
  function StartRole(first: String, nonDoctor: String): String {
    if IsPatientSideExplicit(first) then nonDoctor else LabelDoctor
  }

  datatype HeuristicResult = HeuristicResult(out: seq<String>, changed: bool, count: nat)

  /** The tagging from the first dialogue line `lines[f]` on. */
  function TagFrom(lines: seq<String>, f: nat, age: Option<nat>): HeuristicResult
    requires f < |lines|
  {
    var first := Strip(lines[f]);
    var nonDoctor := ChooseNonDoctorLabel(age, first);
    var h := HeuristicFold(lines, Skips(lines), StartRole(first, nonDoctor), nonDoctor, |lines|);
    HeuristicResult(h.out, h.count > 0, h.count)
  }

  /** What `apply_heuristic_mapping(lines, age)` computes. */
  function HeuristicMapping(lines: seq<String>, age: Option<nat>): HeuristicResult {
    match FirstUnskipped(Skips(lines), 0)
    case None => HeuristicResult(lines, false, 0)
    case Some(f) => TagFrom(lines, f, age)
  }

  lemma HeuristicFoldStep(lines: seq<String>, skips: seq<bool>, start: String, nonDoctor: String, i: nat, st: Heuristic)
    requires i < |lines| == |skips| && HeuristicFold(lines, skips, start, nonDoctor, i) == st
    ensures HeuristicFold(lines, skips, start, nonDoctor, i + 1) == HeuristicStep(st, lines[i], skips[i], nonDoctor)
  {
  }

  /** The first loop of `apply_heuristic_mapping`: the index of the first dialogue line. */
  method FindFirstDialogue(lines: seq<String>) returns (r: Option<nat>)
    ensures r == FirstUnskipped(Skips(lines), 0)
  {
    ghost var skips := Skips(lines);
    var i := 0;
    while i < |lines|
      invariant i <= |lines|
      invariant FirstUnskipped(skips, i) == FirstUnskipped(skips, 0)
    {
      assert skips[i] == SkipLine(lines[i]);
      if !SkipLine(lines[i]) {
        return Some(i);
      }
      i := i + 1;
    }
    return None;
  }

  /** The body of the tagging loop of `apply_heuristic_mapping`. */
  method HeuristicFeed(idx: nat, firstIndex: nat, line: String, nonDoctor: String,
                       out: seq<String>, currentRole: String, changed: bool, count: nat)
    returns (out': seq<String>, currentRole': String, changed': bool, count': nat)
    requires idx < firstIndex ==> SkipLine(line)
    ensures Heuristic(out', currentRole', count') ==
      HeuristicStep(Heuristic(out, currentRole, count), line, SkipLine(line), nonDoctor)
    ensures changed' == (changed || !SkipLine(line))
  {
    if idx < firstIndex || SkipLine(line) {
      return out + [line], currentRole, changed, count;
    }
    var tagged := Tagged(currentRole, Strip(line));
    out', changed', count' := out + [tagged], true, count + 1;
    currentRole' := if currentRole == LabelDoctor then nonDoctor else LabelDoctor;
  }

  /** The tagging loop of `apply_heuristic_mapping`. */
  method TagLines(lines: seq<String>, firstIndex: nat, start: String, nonDoctor: String)
    returns (out: seq<String>, changed: bool, count: nat)
    requires forall j :: 0 <= j < firstIndex && j < |lines| ==> Skips(lines)[j]
    ensures var h := HeuristicFold(lines, Skips(lines), start, nonDoctor, |lines|);
      out == h.out && count == h.count && changed == (count > 0)
  {
    ghost var skips := Skips(lines);
    var currentRole := start;
    out, changed, count := [], false, 0;
    var idx := 0;
    while idx < |lines|
      invariant idx <= |lines|
      invariant HeuristicFold(lines, skips, start, nonDoctor, idx) == Heuristic(out, currentRole, count)
      invariant changed <==> count > 0
    {
      HeuristicFoldStep(lines, skips, start, nonDoctor, idx, Heuristic(out, currentRole, count));
      assert skips[idx] == SkipLine(lines[idx]);
      out, currentRole, changed, count := HeuristicFeed(idx, firstIndex, lines[idx], nonDoctor, out, currentRole, changed, count);
      idx := idx + 1;
    }
  }

  method ApplyHeuristicMapping(lines: seq<String>, age: Option<nat>) returns (out: seq<String>, changed: bool, count: nat)
    ensures HeuristicResult(out, changed, count) == HeuristicMapping(lines, age)
  {
    var firstDialogue := FindFirstDialogue(lines);
    if firstDialogue.None? {
      return lines, false, 0;
    }
    var firstIndex := firstDialogue.value;
    var first := Strip(lines[firstIndex]);
    var nonDoctor := ChooseNonDoctorLabel(age, first);
    out, changed, count := TagLines(lines, firstIndex, StartRole(first, nonDoctor), nonDoctor);
  }

  // ----------------------------------------------- heuristic properties

  lemma FoldShape(lines: seq<String>, skips: seq<bool>, start: String, nonDoctor: String, k: nat)
    requires k <= |lines| == |skips|
    ensures var h := HeuristicFold(lines, skips, start, nonDoctor, k);
      |h.out| == k && h.count == TagCount(skips, k) && h.role == RoleAfter(start, nonDoctor, h.count)
  {
    FoldLength(lines, skips, start, nonDoctor, k);
    FoldTagCount(lines, skips, start, nonDoctor, k);
    FoldRole(lines, skips, start, nonDoctor, k);
  }

  lemma {:induction false} FoldLength(lines: seq<String>, skips: seq<bool>, start: String, nonDoctor: String, k: nat)
    requires k <= |lines| == |skips|
    ensures |HeuristicFold(lines, skips, start, nonDoctor, k).out| == k
  {
    if k > 0 {
      FoldLength(lines, skips, start, nonDoctor, k - 1);
    }
  }

  lemma {:induction false} FoldTagCount(lines: seq<String>, skips: seq<bool>, start: String, nonDoctor: String, k: nat)
    requires k <= |lines| == |skips|
    ensures HeuristicFold(lines, skips, start, nonDoctor, k).count == TagCount(skips, k)
  {
    if k > 0 {
      FoldTagCount(lines, skips, start, nonDoctor, k - 1);
    }
  }

  lemma {:induction false} FoldRole(lines: seq<String>, skips: seq<bool>, start: String, nonDoctor: String, k: nat)
    requires k <= |lines| == |skips|
    ensures var h := HeuristicFold(lines, skips, start, nonDoctor, k);
      h.role == RoleAfter(start, nonDoctor, h.count)
  {
    if k > 0 {
      FoldRole(lines, skips, start, nonDoctor, k - 1);
      RoleKept(HeuristicFold(lines, skips, start, nonDoctor, k - 1), lines[k - 1], skips[k - 1], start, nonDoctor);
    }
  }

  /** One step keeps the role the one that the turn count gives. */
  lemma RoleKept(st: Heuristic, line: String, skip: bool, start: String, nonDoctor: String)
    requires st.role == RoleAfter(start, nonDoctor, st.count)
    ensures var next := HeuristicStep(st, line, skip, nonDoctor);
      next.role == RoleAfter(start, nonDoctor, next.count)
  {
    StepRole(st, line, skip, nonDoctor);
  }

  /** A tagged line flips the role and counts one more; a skipped line changes neither. */
  lemma StepRole(st: Heuristic, line: String, skip: bool, nonDoctor: String)
    ensures var next := HeuristicStep(st, line, skip, nonDoctor);
      next.role == (if skip then st.role else Flip(st.role, nonDoctor)) &&
      next.count == st.count + (if skip then 0 else 1)
  {
  }

  /** One step keeps the lines emitted so far and appends the copy or the tagged line. */
  lemma StepLine(st: Heuristic, line: String, skip: bool, nonDoctor: String, j: nat)
    requires j <= |st.out|
    ensures var next := HeuristicStep(st, line, skip, nonDoctor);
      |next.out| == |st.out| + 1 &&
      next.out[j] == if j < |st.out| then st.out[j] else if skip then line else Tagged(st.role, Strip(line))
  {
  }

  /** Line `j` of the fold's output: copied when skipped, else tagged with the role of its turn. */
  lemma {:induction false} FoldLine(lines: seq<String>, skips: seq<bool>, start: String, nonDoctor: String, k: nat, j: nat)
    requires j < k <= |lines| == |skips|
    ensures var h := HeuristicFold(lines, skips, start, nonDoctor, k);
      j < |h.out| &&
      h.out[j] == if skips[j] then lines[j] else Tagged(RoleAfter(start, nonDoctor, TagCount(skips, j)), Strip(lines[j]))
  {
    var prev := HeuristicFold(lines, skips, start, nonDoctor, k - 1);
    FoldShape(lines, skips, start, nonDoctor, k - 1);
    StepLine(prev, lines[k - 1], skips[k - 1], nonDoctor, j);
    if j < k - 1 {
      FoldLine(lines, skips, start, nonDoctor, k - 1, j);
    }
  }

  /** Skipped lines do not advance the turn count. */
  lemma {:induction false} TagCountSkipped(skips: seq<bool>, i: nat, j: nat)
    requires i <= j <= |skips|
    requires forall m :: i <= m < j ==> skips[m]
    ensures TagCount(skips, j) == TagCount(skips, i)
  {
    if i < j {
      TagCountSkipped(skips, i, j - 1);
    }
  }

  /**
   * The roles alternate: each is the doctor or `nonDoctor`, the next one
   * differs, and the role of turn `m` is `start` exactly when `m` is even.
   */
  lemma {:induction false} RolesAlternate(start: String, nonDoctor: String, m: nat)
    requires nonDoctor != LabelDoctor && (start == LabelDoctor || start == nonDoctor)
    ensures RoleAfter(start, nonDoctor, m) == LabelDoctor || RoleAfter(start, nonDoctor, m) == nonDoctor
    ensures RoleAfter(start, nonDoctor, m + 1) != RoleAfter(start, nonDoctor, m)
    ensures RoleAfter(start, nonDoctor, m) == if m % 2 == 0 then start else Flip(start, nonDoctor)
  {
    if m > 0 {
      RolesAlternate(start, nonDoctor, m - 1);
    }
  }

  /** The label the heuristic gives line `j`: the role of its turn. */
  function HeuristicRole(lines: seq<String>, age: Option<nat>, j: nat): String
    requires FirstUnskipped(Skips(lines), 0).Some? && j <= |lines|
  {
    var first := Strip(lines[FirstUnskipped(Skips(lines), 0).value]);
    var nonDoctor := ChooseNonDoctorLabel(age, first);
    RoleAfter(StartRole(first, nonDoctor), nonDoctor, TagCount(Skips(lines), j))
  }

  /**
   * The heuristic keeps the number of lines, copies every skipped line,
   * tags every other one with its role and the trimmed text, and counts
   * the tagged lines.
   */
  lemma HeuristicLines(lines: seq<String>, age: Option<nat>, j: nat)
    requires j < |lines|
    ensures var h := HeuristicMapping(lines, age);
      && |h.out| == |lines|
      && h.count == TagCount(Skips(lines), |lines|)
      && (h.changed <==> h.count > 0)
      && (Skips(lines)[j] ==> h.out[j] == lines[j])
      && (!Skips(lines)[j] ==> FirstUnskipped(Skips(lines), 0).Some? && h.out[j] == Tagged(HeuristicRole(lines, age, j), Strip(lines[j])))
  {
    var skips := Skips(lines);
    match FirstUnskipped(Skips(lines), 0)
    case None =>
      TagCountSkipped(skips, 0, |lines|);
    case Some(f) =>
      var first := Strip(lines[f]);
      var nonDoctor := ChooseNonDoctorLabel(age, first);
      FoldShape(lines, skips, StartRole(first, nonDoctor), nonDoctor, |lines|);
      FoldLine(lines, skips, StartRole(first, nonDoctor), nonDoctor, |lines|, j);
  }

  /**
   * The first dialogue line opens the first turn: its label is the
   * non-doctor label exactly when it addresses the doctor, and at least
   * one line is tagged.
   */
  lemma HeuristicFirstTurn(lines: seq<String>, age: Option<nat>, f: nat)
    requires FirstUnskipped(Skips(lines), 0) == Some(f)
    ensures var first := Strip(lines[f]);
      && HeuristicMapping(lines, age).count >= 1
      && HeuristicMapping(lines, age).changed
      && (HeuristicRole(lines, age, f) != LabelDoctor <==> IsPatientSideExplicit(first))
      && (IsPatientSideExplicit(first) ==> HeuristicRole(lines, age, f) == ChooseNonDoctorLabel(age, first))
  {
    var skips := Skips(lines);
    TagCountSkipped(skips, 0, f);
    assert !skips[f];
    var first := Strip(lines[f]);
    var nonDoctor := ChooseNonDoctorLabel(age, first);
    FoldShape(lines, skips, StartRole(first, nonDoctor), nonDoctor, |lines|);
    TagCountMonotone(skips, f + 1, |lines|);
  }

  lemma {:induction false} TagCountMonotone(skips: seq<bool>, i: nat, j: nat)
    requires i <= j <= |skips|
    ensures TagCount(skips, i) <= TagCount(skips, j)
  {
    if i < j {
      TagCountMonotone(skips, i, j - 1);
    }
  }

  /** Two turns with only skipped lines between them have different roles. */
  lemma FoldAlternates(skips: seq<bool>, start: String, nonDoctor: String, i: nat, j: nat)
    requires nonDoctor != LabelDoctor && (start == LabelDoctor || start == nonDoctor)
    requires i < j <= |skips| && !skips[i]
    requires forall m :: i < m < j ==> skips[m]
    ensures RoleAfter(start, nonDoctor, TagCount(skips, i)) != RoleAfter(start, nonDoctor, TagCount(skips, j))
    ensures RoleAfter(start, nonDoctor, TagCount(skips, j)) == LabelDoctor || RoleAfter(start, nonDoctor, TagCount(skips, j)) == nonDoctor
  {
    TagCountSkipped(skips, i + 1, j);
    RolesAlternate(start, nonDoctor, TagCount(skips, i));
    RolesAlternate(start, nonDoctor, TagCount(skips, j));
  }

  lemma DialogueStarts(lines: seq<String>, i: nat)
    requires i < |lines| && !Skips(lines)[i]
    ensures FirstUnskipped(Skips(lines), 0).Some? && FirstUnskipped(Skips(lines), 0).value <= i
  {
  }

  /** Every heuristic label is the doctor's or the non-doctor label. */
  lemma HeuristicRoleIsLabel(lines: seq<String>, age: Option<nat>, j: nat)
    requires FirstUnskipped(Skips(lines), 0).Some? && j <= |lines|
    ensures var nonDoctor := ChooseNonDoctorLabel(age, Strip(lines[FirstUnskipped(Skips(lines), 0).value]));
      HeuristicRole(lines, age, j) == LabelDoctor || HeuristicRole(lines, age, j) == nonDoctor
  {
    var first := Strip(lines[FirstUnskipped(Skips(lines), 0).value]);
    var nonDoctor := ChooseNonDoctorLabel(age, first);
    RolesAlternate(StartRole(first, nonDoctor), nonDoctor, TagCount(Skips(lines), j));
  }

  /**
   * Strict alternation: two tagged lines with only skipped lines between
   * them carry different labels.
   */
  lemma HeuristicAlternates(lines: seq<String>, age: Option<nat>, i: nat, j: nat)
    requires i < j < |lines| && !Skips(lines)[i] && !Skips(lines)[j]
    requires forall m :: i < m < j ==> Skips(lines)[m]
    ensures FirstUnskipped(Skips(lines), 0).Some?
    ensures HeuristicRole(lines, age, i) != HeuristicRole(lines, age, j)
  {
    DialogueStarts(lines, i);
    var first := Strip(lines[FirstUnskipped(Skips(lines), 0).value]);
    var nonDoctor := ChooseNonDoctorLabel(age, first);
    FoldAlternates(Skips(lines), StartRole(first, nonDoctor), nonDoctor, i, j);
  }

  /**
   * The heuristic returns its input unchanged, with no tags, exactly when
   * every line is skipped.
   */
  lemma HeuristicNoDialogue(lines: seq<String>, age: Option<nat>)
    ensures (forall j :: 0 <= j < |lines| ==> Skips(lines)[j]) <==>
      HeuristicMapping(lines, age) == HeuristicResult(lines, false, 0)
  {
    if FirstUnskipped(Skips(lines), 0).Some? {
      HeuristicFirstTurn(lines, age, FirstUnskipped(Skips(lines), 0).value);
    }
  }

  // ------------------------------------------------------ one transcript

  lemma {:induction false} NoHitsAllText(kinds: seq<LineKind>, k: nat)
    requires k <= |kinds| && BracketCount(kinds, k) + RoleLineCount(kinds, k) == 0
    ensures forall j :: 0 <= j < k ==> kinds[j].TextLine?
  {
    if k > 0 {
      NoHitsAllText(kinds, k - 1);
    }
  }

  /** Without a single hit the explicit pass returns its input, unchanged. */
  lemma ExplicitNoHits(lines: seq<String>)
    requires ExplicitMapping(lines).hits == 0
    ensures ExplicitMapping(lines) == Explicit(lines, None, false, 0)
  {
    var kinds := Kinds(lines);
    FoldCounts(lines, kinds, |lines|);
    NoHitsAllText(kinds, |lines|);
    TextLinesUnchanged(lines, kinds, |lines|);
    assert lines[..|lines|] == lines;
  }

  /** The outcome of labelling one transcript. */
  datatype Labelled = Labelled(lines: seq<String>, changed: bool, explicitHits: nat, usedHeuristic: bool, heuristicCount: nat)

  /** The strategy choice of `process_file`: the heuristic only when the explicit pass found nothing. */
  function LabelLines(lines: seq<String>, age: Option<nat>): Labelled {
    var e := ExplicitMapping(lines);
    if e.hits == 0 then
      var h := HeuristicMapping(e.out, age);
      Labelled(h.out, e.changed || h.changed, e.hits, h.count > 0, h.count)
    else Labelled(e.out, e.changed, e.hits, false, 0)
  }

  /** `process_file` on a transcript named `stem` holding `text`. */
  function LabelText(stem: String, text: String): Labelled {
    LabelLines(SplitLines(text), AgeFromStem(stem))
  }

  /** The text written back: the labelled lines, keeping a final newline; nothing when unchanged. */
  function Rewritten(text: String, l: Labelled): Option<String> {
    if !l.changed then None
    else if EndsWith(text, "\n") then Some(Join(l.lines, '\n') + "\n")
    else Some(Join(l.lines, '\n'))
  }

  /**
   * The two strategies never mix: with explicit hits the explicit output
   * is final and the heuristic does not run; without them the heuristic
   * labels the original lines.
   */
  lemma StrategyChoice(lines: seq<String>, age: Option<nat>)
    ensures var l := LabelLines(lines, age);
      && (l.usedHeuristic ==> l.explicitHits == 0 && l.heuristicCount > 0)
      && (l.explicitHits > 0 ==> !l.usedHeuristic && l.heuristicCount == 0 && l.lines == ExplicitMapping(lines).out)
      && (l.explicitHits == 0 ==>
            var h := HeuristicMapping(lines, age);
            l.lines == h.out && l.changed == h.changed && l.heuristicCount == h.count)
  {
    if ExplicitMapping(lines).hits == 0 {
      ExplicitNoHits(lines);
    }
  }

  /** The counters of `process_file`. */
  class LabelStats {
    var filesTotal: nat
    var filesChanged: nat
    var filesExplicit: nat
    var filesHeuristic: nat
    var explicitTurns: nat
    var heuristicTurns: nat

    /**
     * A file is counted as explicit or heuristic, never both; every
     * explicit file has a hit and every heuristic file a tagged line.
     */
    ghost predicate Valid()
      reads this
    {
      && filesChanged <= filesTotal
      && filesExplicit + filesHeuristic <= filesTotal
      && filesExplicit <= explicitTurns
      && filesHeuristic <= heuristicTurns
    }

    constructor()
      ensures Valid()
      ensures filesTotal == filesChanged == filesExplicit == filesHeuristic == 0
      ensures explicitTurns == heuristicTurns == 0
    {
      filesTotal, filesChanged, filesExplicit, filesHeuristic := 0, 0, 0, 0;
      explicitTurns, heuristicTurns := 0, 0;
    }

    /** `process_file`: label one transcript, return the text to write back, count. */
    method ProcessFile(stem: String, text: String) returns (written: Option<String>)
      requires Valid()
      modifies this
      ensures Valid()
      ensures written == Rewritten(text, LabelText(stem, text))
      ensures var l := LabelText(stem, text);
        && filesTotal == old(filesTotal) + 1
        && filesChanged == old(filesChanged) + (if l.changed then 1 else 0)
        && filesExplicit == old(filesExplicit) + (if l.explicitHits > 0 then 1 else 0)
        && filesHeuristic == old(filesHeuristic) + (if l.usedHeuristic then 1 else 0)
        && explicitTurns == old(explicitTurns) + l.explicitHits
        && heuristicTurns == old(heuristicTurns) + l.heuristicCount
    {
      var finalLines, changed, hits, usedHeuristic, heuristicCount := LabelTranscript(stem, text);
      written := Record(text, Labelled(finalLines, changed, hits, usedHeuristic, heuristicCount));
    }

    /** The write-back decision and the counter updates of `process_file` for one outcome. */
    method Record(text: String, l: Labelled) returns (written: Option<String>)
      requires Valid()
      requires l.usedHeuristic ==> l.explicitHits == 0 && l.heuristicCount > 0
      modifies this
      ensures Valid()
      ensures written == Rewritten(text, l)
      ensures && filesTotal == old(filesTotal) + 1
        && filesChanged == old(filesChanged) + (if l.changed then 1 else 0)
        && filesExplicit == old(filesExplicit) + (if l.explicitHits > 0 then 1 else 0)
        && filesHeuristic == old(filesHeuristic) + (if l.usedHeuristic then 1 else 0)
        && explicitTurns == old(explicitTurns) + l.explicitHits
        && heuristicTurns == old(heuristicTurns) + l.heuristicCount
    {
      written := None;
      if l.changed {
        var output := Join(l.lines, '\n');
        if EndsWith(text, "\n") {
          output := output + "\n";
        }
        written := Some(output);
        filesChanged := filesChanged + 1;
      }
      filesTotal := filesTotal + 1;
      if l.explicitHits > 0 {
        filesExplicit := filesExplicit + 1;
      }
      if l.usedHeuristic {
        filesHeuristic := filesHeuristic + 1;
      }
      explicitTurns := explicitTurns + l.explicitHits;
      heuristicTurns := heuristicTurns + l.heuristicCount;
    }
  }

  /** The labelling part of `process_file`: explicit pass, then the heuristic when it found nothing. */
  method LabelTranscript(stem: String, text: String)
    returns (finalLines: seq<String>, changed: bool, hits: nat, usedHeuristic: bool, heuristicCount: nat)
    ensures Labelled(finalLines, changed, hits, usedHeuristic, heuristicCount) == LabelText(stem, text)
    ensures usedHeuristic ==> hits == 0 && heuristicCount > 0
  {
    var lines := SplitLines(text);
    var out;
    out, changed, hits := ApplyExplicitMapping(lines);
    finalLines := out;
    usedHeuristic := false;
    heuristicCount := 0;
    if hits == 0 {
      var age := AgeFromStem(stem);
      var hOut, hChanged, hCount := ApplyHeuristicMapping(out, age);
      finalLines := hOut;
      changed := changed || hChanged;
      usedHeuristic := hCount > 0;
      heuristicCount := hCount;
    }
  }
}
