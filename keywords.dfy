/**
 * The keyword header of a dialogue file (`_extract_keywords_and_body` in
 * `build_dataset_adult.py`): a line `关键词` (optionally followed by a
 * colon), a newline, the keyword text up to the first blank line or the
 * first `文字记录:` / `场景:` label line, then the body.
 *
 * The regular expression is searched with Python's backtracking order,
 * written out position by position: the optional colon is tried present
 * first, the greedy `\s*` longest first, the lazy keyword group shortest
 * first, and of the two terminators the blank line first.
 */
module Keywords {
  import opened Text

  const Label: String := "关键词"

  predicate IsColon(c: char) { c == ':' || c == '：' }

  /**
   * The length of `文字记录` or `场景` followed by a colon at the start of
   * `s`, if `s` starts that way.
   */
  function SectionLabel(s: String): (r: Option<nat>)
    ensures r.Some? ==> 0 < r.value <= |s| && IsColon(s[r.value - 1])
  {
    if StartsWith(s, "文字记录") && |s| > 4 && IsColon(s[4]) then Some(5)
    else if StartsWith(s, "场景") && |s| > 2 && IsColon(s[2]) then Some(3)
    else None
  }

  /**
   * The end of the terminator `\n\s*\n|\n(文字记录|场景)[:：]` when it starts
   * at `q`.  The blank-line alternative, whose greedy `\s*` gives back
   * characters until a newline follows, ends after the last newline of
   * the whitespace run that follows the first one.
   */
  function TerminatorEnd(text: String, q: nat): (r: Option<nat>)
    requires q <= |text|
    ensures r.Some? ==> q < |text| && text[q] == '\n' && q + 1 < r.value <= |text|
  {
    if q < |text| && text[q] == '\n' then
      var run := text[q + 1..q + 1 + SpaceRun(text[q + 1..])];
      match LastIndexOf(run, '\n')
      case Some(j) => Some(q + 1 + j + 1)
      case None =>
        match SectionLabel(text[q + 1..])
        case Some(n) => Some(q + 1 + n)
        case None => None
    else None
  }

  /** The lazy `(.+?)`: the first group end `ge` from `from` on with a terminator after it, and the match end. */
  function LazyFrom(text: String, from: nat): (r: Option<(nat, nat)>)
    requires from <= |text|
    ensures r.Some? ==> from <= r.value.0 < r.value.1 <= |text| && text[r.value.0] == '\n'
    decreases |text| - from
  {
    match TerminatorEnd(text, from)
    case Some(e) => Some((from, e))
    case None => if from < |text| then LazyFrom(text, from + 1) else None
  }

  /** Where a match found at `start` puts its keyword group and where it ends. */
  datatype KeywordMatch = KeywordMatch(start: nat, groupStart: nat, groupEnd: nat, end: nat)

  predicate WellPlaced(text: String, m: KeywordMatch) {
    m.start + |Label| < m.groupStart < m.groupEnd < m.end <= |text| &&
    text[m.start..m.start + |Label|] == Label &&
    text[m.groupStart - 1] == '\n' && text[m.groupEnd] == '\n'
  }

  /**
   * The greedy `\s*\n` over the whitespace run `text[c..c + k]`: the newline
   * ending it is tried from the right, and the first that lets the rest
   * match wins.
   */
  function NewlineFrom(text: String, start: nat, c: nat, k: nat): (r: Option<KeywordMatch>)
    requires start + |Label| <= c && c + k <= |text|
    requires text[start..start + |Label|] == Label
    ensures r.Some? ==> r.value.start == start && WellPlaced(text, r.value)
    decreases k
  {
    if k == 0 then None
    else
      var n := c + k - 1;
      if text[n] == '\n' && n + 2 <= |text| then
        match LazyFrom(text, n + 2)
        case Some(ends) => Some(KeywordMatch(start, n + 1, ends.0, ends.1))
        case None => NewlineFrom(text, start, c, k - 1)
      else NewlineFrom(text, start, c, k - 1)
  }

  /** The match of the pattern at position `p`, if any: the optional colon is tried present first. */
  function MatchAt(text: String, p: nat): (r: Option<KeywordMatch>)
    requires p <= |text|
    ensures r.Some? ==> r.value.start == p && WellPlaced(text, r.value)
  {
    if !StartsWith(text[p..], Label) then None
    else
      assert text[p..p + |Label|] == text[p..][..|Label|];
      var c := p + |Label|;
      var withColon :=
        if c < |text| && IsColon(text[c]) then NewlineFrom(text, p, c + 1, SpaceRun(text[c + 1..]))
        else None;
      if withColon.Some? then withColon
      else NewlineFrom(text, p, c, SpaceRun(text[c..]))
  }

  /** `re.search`: the leftmost position from `p` on where the pattern matches. */
  function SearchFrom(text: String, p: nat): (r: Option<KeywordMatch>)
    requires p <= |text|
    ensures r.Some? ==> p <= r.value.start && WellPlaced(text, r.value)
    ensures r.Some? ==> forall q :: p <= q < r.value.start ==> MatchAt(text, q).None?
    decreases |text| - p
  {
    match MatchAt(text, p)
    case Some(m) => Some(m)
    case None => if p < |text| then SearchFrom(text, p + 1) else None
  }

  /** Python's `s.strip(chars)` for the characters in `cs`. */
  function StripChars(s: String, cs: set<char>): (r: String)
    ensures |r| <= |s|
    ensures r == [] || (r[0] !in cs && r[|r| - 1] !in cs)
    decreases |s|
  {
    if |s| > 0 && s[0] in cs then StripChars(s[1..], cs)
    else if |s| > 0 && s[|s| - 1] in cs then StripChars(s[..|s| - 1], cs)
    else s
  }

  predicate IsKeywordSeparator(c: char) { c == '、' || c == '，' }

  /** `re.split(r"[、，]", s)`. */
  function SplitOnSeparators(s: String): (r: seq<String>)
    ensures |r| >= 1
    ensures forall k :: 0 <= k < |r| ==> SeparatorFree(r[k])
    decreases |s|
  {
    if |s| == 0 then [[]]
    else if IsKeywordSeparator(s[0]) then [[]] + SplitOnSeparators(s[1..])
    else
      var rest := SplitOnSeparators(s[1..]);
      [[s[0]] + rest[0]] + rest[1..]
  }

  /** The characters `strip(" ，、")` removes from the ends of a keyword. */
  const KeywordTrim: set<char> := {' ', '，', '、'}

  /** The keyword pieces kept: non-blank ones, with spaces and separators trimmed. */
  function KeepKeywords(pieces: seq<String>): (r: seq<String>)
    ensures |r| <= |pieces|
    decreases |pieces|
  {
    if |pieces| == 0 then []
    else
      var rest := KeepKeywords(pieces[1..]);
      if Strip(pieces[0]) != [] then [StripChars(pieces[0], KeywordTrim)] + rest else rest
  }

  /** The parsed keyword list of a keyword line. */
  function KeywordList(line: String): seq<String> {
    KeepKeywords(SplitOnSeparators(line))
  }

  /** `re.sub(r"^(文字记录|场景)[:：]\s*", "", s)`. */
  function DropLabel(s: String): (r: String)
    ensures |r| <= |s|
  {
    match SectionLabel(s)
    case Some(n) => s[n + SpaceRun(s[n..])..]
    case None => s
  }

  /** The keyword list of `_extract_keywords_and_body`: None when there is no header or it holds no keyword. */
  function KeywordsOf(text: String): Option<seq<String>> {
    match SearchFrom(text, 0)
    case None => None
    case Some(m) =>
      var parsed := KeywordList(Strip(text[m.groupStart..m.groupEnd]));
      if parsed != [] then Some(parsed) else None
  }

  /**
   * The body of `_extract_keywords_and_body`: the header is cut out where
   * `str.find` first meets its text and replaced by a newline, then the
   * text is trimmed and a leading `文字记录:` / `场景:` label dropped.
   */
  function BodyOf(text: String): String {
    match SearchFrom(text, 0)
    case None => DropLabel(Strip(text))
    case Some(m) => DropLabel(Strip(CutOut(text, text[m.start..m.end])))
  }

  /** The text with the first occurrence of `whole` replaced by a newline, trimmed; the text itself if there is none. */
  function CutOut(text: String, whole: String): String {
    match Find(text, whole)
    case Some(st) => Strip(text[..st] + "\n" + text[st + |whole|..])
    case None => text
  }

  function ExtractKeywordsAndBody(text: String): (Option<seq<String>>, String) {
    (KeywordsOf(text), BodyOf(text))
  }

  // ---------------------------------------------------------------- lemmas

  /** Without the word 关键词 there is no header: no keywords, and the body is the whole text. */
  lemma NoHeader(text: String)
    requires !Contains(text, Label)
    ensures ExtractKeywordsAndBody(text) == (None, DropLabel(Strip(text)))
  {
    match SearchFrom(text, 0)
    case None =>
    case Some(m) =>
      ContainsAt(text, Label, m.start);
      assert false;
  }

  lemma {:induction false} StripCharsNonEmpty(s: String, cs: set<char>, i: nat)
    requires i < |s| && s[i] !in cs
    ensures StripChars(s, cs) != []
    decreases |s|
  {
    if s[0] in cs {
      StripCharsNonEmpty(s[1..], cs, i - 1);
    } else if s[|s| - 1] in cs {
      StripCharsNonEmpty(s[..|s| - 1], cs, i);
    }
  }

  lemma {:induction false} StripCharsKeeps(s: String, cs: set<char>, i: nat)
    requires i < |StripChars(s, cs)|
    ensures StripChars(s, cs)[i] in s
    decreases |s|
  {
    if |s| > 0 && s[0] in cs {
      StripCharsKeeps(s[1..], cs, i);
    } else if |s| > 0 && s[|s| - 1] in cs {
      StripCharsKeeps(s[..|s| - 1], cs, i);
    }
  }

  /** What makes a keyword: not empty, no separator inside, no space or separator at either end. */
  predicate IsKeyword(k: String) {
    k != [] && k[0] != ' ' && k[|k| - 1] != ' ' && SeparatorFree(k)
  }

  predicate SeparatorFree(s: String) {
    forall i :: 0 <= i < |s| ==> !IsKeywordSeparator(s[i])
  }

  lemma {:induction false} KeptPieceNonEmpty(piece: String)
    requires Strip(piece) != []
    requires SeparatorFree(piece)
    ensures StripChars(piece, KeywordTrim) != []
  {
    var i := NonBlankChar(piece);
    assert piece[i] !in KeywordTrim;
    StripCharsNonEmpty(piece, KeywordTrim, i);
  }

  lemma {:induction false} KeptPiece(piece: String)
    requires Strip(piece) != []
    requires SeparatorFree(piece)
    ensures IsKeyword(StripChars(piece, KeywordTrim))
  {
    var k := StripChars(piece, KeywordTrim);
    KeptPieceNonEmpty(piece);
    forall i | 0 <= i < |k|
      ensures !IsKeywordSeparator(k[i])
    {
      StripCharsKeeps(piece, KeywordTrim, i);
    }
  }

  lemma {:induction false} KeepKeywordsAreKeywords(pieces: seq<String>)
    requires forall k :: 0 <= k < |pieces| ==> SeparatorFree(pieces[k])
    ensures forall k :: 0 <= k < |KeepKeywords(pieces)| ==> IsKeyword(KeepKeywords(pieces)[k])
    decreases |pieces|
  {
    if |pieces| > 0 {
      KeepKeywordsAreKeywords(pieces[1..]);
      if Strip(pieces[0]) != [] {
        KeptPiece(pieces[0]);
      }
    }
  }

  /** Every keyword returned is a proper keyword, and a keyword list is never empty. */
  lemma KeywordsWellFormed(text: String)
    ensures var kws := KeywordsOf(text);
      kws.Some? ==> |kws.value| > 0 && forall k :: 0 <= k < |kws.value| ==> IsKeyword(kws.value[k])
  {
    match SearchFrom(text, 0)
    case None =>
    case Some(m) =>
      KeepKeywordsAreKeywords(SplitOnSeparators(Strip(text[m.groupStart..m.groupEnd])));
  }

  /** A leading `文字记录` or `场景` label with its colon and the whitespace after it is dropped, and only that. */
  lemma DropLabelOfLabelled(section: String, colon: char, ws: String, rest: String)
    requires section == "文字记录" || section == "场景"
    requires IsColon(colon) && IsBlank(ws) && (rest == [] || !IsSpace(rest[0]))
    ensures DropLabel(section + [colon] + ws + rest) == rest
  {
    var s := section + [colon] + ws + rest;
    var n := |section| + 1;
    assert s[..|section|] == section;
    assert s[|section|] == colon;
    assert SectionLabel(s) == Some(n);
    assert s[n..] == ws + rest;
    SpaceRunOfBlankThen(ws, rest);
    assert s[n + |ws|..] == rest;
  }

  /** A text without a section label keeps its start. */
  lemma DropLabelOfUnlabelled(s: String)
    requires !StartsWith(s, "文字记录") && !StartsWith(s, "场景")
    ensures DropLabel(s) == s
  {
  }

  /** No newline in `text[a..b]`: the lazy group cannot end there. */
  lemma LazySkip(text: String, a: nat, b: nat)
    requires a <= b <= |text|
    requires forall i :: a <= i < b ==> text[i] != '\n'
    ensures LazyFrom(text, a) == LazyFrom(text, b)
  {
    var f: nat -> Option<(nat, nat)> := (j: nat) => if j <= |text| then LazyFrom(text, j) else None;
    forall i | a <= i < b
      ensures f(i) == f(i + 1)
    {
      LazyStep(text, i);
    }
    ChainEqual(f, a, b);
  }

  /** Values that agree from each position to the next agree across a range. */
  lemma {:induction false} ChainEqual<T>(f: nat -> T, a: nat, b: nat)
    requires a <= b
    requires forall i :: a <= i < b ==> f(i) == f(i + 1)
    ensures f(a) == f(b)
    decreases b - a
  {
    if a < b {
      ChainEqual(f, a + 1, b);
    }
  }

  /** A character other than a newline cannot end the lazy group. */
  lemma LazyStep(text: String, a: nat)
    requires a < |text| && text[a] != '\n'
    ensures LazyFrom(text, a) == LazyFrom(text, a + 1)
  {
    assert TerminatorEnd(text, a).None?;
  }

  /** A blank line (two newlines in a row, then no whitespace) ends the header right after it. */
  lemma BlankLineEnd(text: String, q: nat)
    requires q + 2 <= |text| && text[q] == '\n' && text[q + 1] == '\n'
    requires q + 2 == |text| || !IsSpace(text[q + 2])
    ensures TerminatorEnd(text, q) == Some(q + 2)
  {
    assert text[q + 1..] == ['\n'] + text[q + 2..];
    SpaceRunOfBlankThen(['\n'], text[q + 2..]);
    assert text[q + 1..q + 2] == ['\n'];
  }

  /** The match of a header that opens the text: `关键词：`, a keyword line, a blank line. */
  lemma HeaderMatch(line: String, rest: String)
    requires line != [] && '\n' !in line && !IsSpace(line[0])
    requires rest == [] || !IsSpace(rest[0])
    ensures var text := Label + "：\n" + line + "\n\n" + rest;
      SearchFrom(text, 0) == Some(KeywordMatch(0, 5, 5 + |line|, 7 + |line|))
  {
    var text := Label + "：\n" + line + "\n\n" + rest;
    var q := 5 + |line|;
    assert text[5..q] == line;
    assert text[q] == '\n' && text[q + 1] == '\n';
    assert text[q + 2..] == rest;
    HeaderGroup(text, q);
    assert text[3] == '：' && text[4] == '\n';
    assert text[4..] == ['\n'] + text[5..];
    SpaceRunOfBlankThen(['\n'], text[5..]);
    assert text[0..3] == Label;
    HeaderAtStart(text, q);
  }

  /**
   * A keyword line from position 5 up to a blank line at `q` is the lazy
   * group, and the match ends after the blank line.
   */
  lemma HeaderGroup(text: String, q: nat)
    requires 6 <= q && q + 2 <= |text| && text[q] == '\n' && text[q + 1] == '\n'
    requires q + 2 == |text| || !IsSpace(text[q + 2])
    requires forall i :: 6 <= i < q ==> text[i] != '\n'
    ensures LazyFrom(text, 6) == Some((q, q + 2))
  {
    BlankLineEnd(text, q);
    LazySkip(text, 6, q);
  }

  /** `关键词`, a colon and one newline at the start: the pattern matches there with that group. */
  lemma HeaderAtStart(text: String, q: nat)
    requires 6 <= q && q + 2 <= |text| && text[0..3] == Label && text[3] == '：' && text[4] == '\n'
    requires SpaceRun(text[4..]) == 1
    requires LazyFrom(text, 6) == Some((q, q + 2))
    ensures SearchFrom(text, 0) == Some(KeywordMatch(0, 5, q, q + 2))
  {
    assert NewlineFrom(text, 0, 4, 1) == Some(KeywordMatch(0, 5, q, q + 2));
    assert text[0..] == text;
  }

  /** A header that opens the text yields the keywords of its line. */
  lemma HeaderKeywords(line: String, rest: String)
    requires line != [] && '\n' !in line && !IsSpace(line[0])
    requires rest == [] || !IsSpace(rest[0])
    ensures var kws := KeywordList(Strip(line));
      KeywordsOf(Label + "：\n" + line + "\n\n" + rest) == if kws != [] then Some(kws) else None
  {
    var text := Label + "：\n" + line + "\n\n" + rest;
    HeaderMatch(line, rest);
    assert text[5..5 + |line|] == line;
  }

  lemma CutOutPrefix(text: String, whole: String)
    requires StartsWith(text, whole)
    ensures CutOut(text, whole) == Strip(['\n'] + text[|whole|..])
  {
    assert Find(text, whole) == Some(0);
    assert text[..0] + "\n" + text[|whole|..] == ['\n'] + text[|whole|..];
  }

  /** A header matched at the very start is cut out of the front of the text. */
  lemma BodyOfLeadingMatch(text: String, m: KeywordMatch)
    requires SearchFrom(text, 0) == Some(m) && m.start == 0
    ensures BodyOf(text) == DropLabel(Strip(Strip(['\n'] + text[m.end..])))
  {
    var whole := text[0..m.end];
    assert StartsWith(text, whole);
    CutOutPrefix(text, whole);
  }

  /** After a header that opens the text, the body is the rest, trimmed and without a section label. */
  lemma HeaderBody(line: String, rest: String)
    requires line != [] && '\n' !in line && !IsSpace(line[0])
    requires rest == [] || !IsSpace(rest[0])
    ensures BodyOf(Label + "：\n" + line + "\n\n" + rest) == DropLabel(Strip(rest))
  {
    var text := Label + "：\n" + line + "\n\n" + rest;
    HeaderMatch(line, rest);
    BodyOfLeadingMatch(text, KeywordMatch(0, 5, 5 + |line|, 7 + |line|));
    assert text[7 + |line|..] == rest;
    StripNewlineThen(text[7 + |line|..]);
  }

  lemma StripNewlineThen(rest: String)
    ensures Strip(Strip(['\n'] + rest)) == Strip(rest)
  {
    StripLeadingSpace('\n', rest);
    StripIdempotent(rest);
  }
}
