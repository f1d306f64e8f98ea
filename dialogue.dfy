/**
 * Transcript structuring for the adult dataset (the dialogue half of
 * `build_dataset_adult.py`): a dialogue text is cut into visits at
 * parenthesised marker lines, and each visit into speaker turns at
 * bracket tags such as `【D】` or `[家属（母亲）]`.
 */
module Dialogue {
  import opened Text

  // ================================================================ visits

  /** A visit boundary: the trimmed line is wrapped in （…） or (…). */
  predicate IsVisitMarker(line: String) {
    var s := Strip(line);
    (StartsWith(s, "（") && EndsWith(s, "）")) || (StartsWith(s, "(") && EndsWith(s, ")"))
  }

  /** The lines that `isMarker` rejects, in their original order. */
  function Unmarked(lines: seq<String>, isMarker: String -> bool): (r: seq<String>)
    ensures forall i :: 0 <= i < |r| ==> !isMarker(r[i])
  {
    if |lines| == 0 then []
    else if isMarker(lines[|lines| - 1]) then Unmarked(lines[..|lines| - 1], isMarker)
    else Unmarked(lines[..|lines| - 1], isMarker) + [lines[|lines| - 1]]
  }

  function MarkerCount(lines: seq<String>, isMarker: String -> bool): nat {
    if |lines| == 0 then 0
    else MarkerCount(lines[..|lines| - 1], isMarker) + (if isMarker(lines[|lines| - 1]) then 1 else 0)
  }

  function Flatten(groups: seq<seq<String>>): seq<String> {
    if |groups| == 0 then [] else Flatten(groups[..|groups| - 1]) + groups[|groups| - 1]
  }

  /**
   * The runs of lines between markers: one before the first marker and one
   * after each marker.
   */
  function Groups(lines: seq<String>, isMarker: String -> bool): (g: seq<seq<String>>)
    ensures |g| >= 1
    decreases |lines|
  {
    if |lines| == 0 then [[]]
    else
      var g := Groups(lines[..|lines| - 1], isMarker);
      var last := lines[|lines| - 1];
      if isMarker(last) then g + [[]]
      else g[..|g| - 1] + [g[|g| - 1] + [last]]
  }

  /** Appending a line: a marker opens a new run, any other line joins the last one. */
  lemma GroupsSnoc(l: seq<String>, x: String, isMarker: String -> bool)
    ensures var g := Groups(l, isMarker);
      Groups(l + [x], isMarker) == if isMarker(x) then g + [[]] else g[..|g| - 1] + [g[|g| - 1] + [x]]
  {
    assert (l + [x])[..|l|] == l;
  }

  /** The runs of one more line of the same list. */
  lemma GroupsStep(lines: seq<String>, i: nat, isMarker: String -> bool)
    requires i < |lines|
    ensures var g := Groups(lines[..i], isMarker);
      Groups(lines[..i + 1], isMarker) ==
        if isMarker(lines[i]) then g + [[]] else g[..|g| - 1] + [g[|g| - 1] + [lines[i]]]
  {
    assert lines[..i + 1][..i] == lines[..i];
  }

  /**
   * There is one run more than there are markers; markers belong to no run,
   * and reading the runs one after the other gives back every other line in
   * order.
   */
  lemma GroupsPartition(lines: seq<String>, isMarker: String -> bool)
    ensures |Groups(lines, isMarker)| == MarkerCount(lines, isMarker) + 1
    ensures forall k, i :: 0 <= k < |Groups(lines, isMarker)| && 0 <= i < |Groups(lines, isMarker)[k]| ==>
      !isMarker(Groups(lines, isMarker)[k][i])
    ensures Flatten(Groups(lines, isMarker)) == Unmarked(lines, isMarker)
  {
    GroupsCount(lines, isMarker);
    GroupsMarkerFree(lines, isMarker);
    GroupsFlatten(lines, isMarker);
  }

  lemma {:induction false} GroupsCount(lines: seq<String>, isMarker: String -> bool)
    ensures |Groups(lines, isMarker)| == MarkerCount(lines, isMarker) + 1
    decreases |lines|
  {
    if |lines| > 0 {
      var l := lines[..|lines| - 1];
      GroupsCount(l, isMarker);
      GroupsSnoc(l, lines[|lines| - 1], isMarker);
      assert lines == l + [lines[|lines| - 1]];
    }
  }

  /** No line of any run is a marker. */
  predicate MarkerFree(g: seq<seq<String>>, isMarker: String -> bool) {
    forall k, i :: 0 <= k < |g| && 0 <= i < |g[k]| ==> !isMarker(g[k][i])
  }

  lemma {:induction false} GroupsMarkerFree(lines: seq<String>, isMarker: String -> bool)
    ensures MarkerFree(Groups(lines, isMarker), isMarker)
    decreases |lines|
  {
    if |lines| > 0 {
      var l := lines[..|lines| - 1];
      var x := lines[|lines| - 1];
      GroupsMarkerFree(l, isMarker);
      assert lines == l + [x];
      GroupsSnoc(l, x, isMarker);
      var g := Groups(l, isMarker);
      if isMarker(x) {
        RunsAppendEmpty(g, isMarker);
      } else {
        RunsExtendLast(g, x, isMarker);
      }
    }
  }

  lemma RunsAppendEmpty(g: seq<seq<String>>, isMarker: String -> bool)
    requires MarkerFree(g, isMarker)
    ensures MarkerFree(g + [[]], isMarker)
  {
    var g' := g + [[]];
    forall k, i | 0 <= k < |g'| && 0 <= i < |g'[k]| ensures !isMarker(g'[k][i]) {
      assert k < |g| && g'[k] == g[k];
    }
  }

  lemma RunsExtendLast(g: seq<seq<String>>, x: String, isMarker: String -> bool)
    requires |g| > 0 && MarkerFree(g, isMarker) && !isMarker(x)
    ensures MarkerFree(g[..|g| - 1] + [g[|g| - 1] + [x]], isMarker)
  {
    var g' := g[..|g| - 1] + [g[|g| - 1] + [x]];
    forall k, i | 0 <= k < |g'| && 0 <= i < |g'[k]| ensures !isMarker(g'[k][i]) {
      if k < |g'| - 1 {
        assert g'[k] == g[k];
      } else if i < |g[|g| - 1]| {
        assert g'[k][i] == g[|g| - 1][i];
      }
    }
  }

  lemma {:induction false} GroupsFlatten(lines: seq<String>, isMarker: String -> bool)
    ensures Flatten(Groups(lines, isMarker)) == Unmarked(lines, isMarker)
    decreases |lines|
  {
    if |lines| > 0 {
      var l := lines[..|lines| - 1];
      var x := lines[|lines| - 1];
      GroupsFlatten(l, isMarker);
      InitLast(lines);
      GroupsSnoc(l, x, isMarker);
      UnmarkedSnoc(l, x, isMarker);
      var g := Groups(l, isMarker);
      if isMarker(x) {
        FlattenOpen(g);
      } else {
        FlattenExtendLast(g, x);
      }
    }
  }

  lemma UnmarkedSnoc(l: seq<String>, x: String, isMarker: String -> bool)
    ensures Unmarked(l + [x], isMarker) == if isMarker(x) then Unmarked(l, isMarker) else Unmarked(l, isMarker) + [x]
  {
    assert (l + [x])[..|l|] == l;
  }

  /** A new empty run adds nothing to the lines read back. */
  lemma FlattenOpen(g: seq<seq<String>>)
    ensures Flatten(g + [[]]) == Flatten(g)
  {
    assert (g + [[]])[..|g|] == g;
  }

  /** A line added to the last run comes last in the lines read back. */
  lemma FlattenExtendLast(g: seq<seq<String>>, x: String)
    requires |g| > 0
    ensures Flatten(g[..|g| - 1] + [g[|g| - 1] + [x]]) == Flatten(g) + [x]
  {
    var init, last := g[..|g| - 1], g[|g| - 1];
    var g' := init + [last + [x]];
    assert g'[..|g'| - 1] == init && g'[|g'| - 1] == last + [x];
    assert Flatten(g') == Flatten(init) + (last + [x]);
    assert Flatten(g) == Flatten(init) + last;
    AppendAssoc(Flatten(init), last, [x]);
  }

  /** A visit's text: its lines joined with '\n', trimmed. */
  function VisitText(group: seq<String>): String {
    Strip(Join(group, '\n'))
  }

  function VisitTexts(groups: seq<seq<String>>): (r: seq<String>)
    ensures |r| == |groups|
  {
    if |groups| == 0 then []
    else VisitTexts(groups[..|groups| - 1]) + [VisitText(groups[|groups| - 1])]
  }

  lemma VisitTextsSnoc(groups: seq<seq<String>>, x: seq<String>)
    ensures VisitTexts(groups + [x]) == VisitTexts(groups) + [VisitText(x)]
  {
    assert (groups + [x])[..|groups|] == groups;
  }

  /** `[s for s in segments if s]`. */
  function NonEmpty(xs: seq<String>): (r: seq<String>)
    ensures |r| <= |xs|
  {
    if |xs| == 0 then []
    else if xs[|xs| - 1] == [] then NonEmpty(xs[..|xs| - 1])
    else NonEmpty(xs[..|xs| - 1]) + [xs[|xs| - 1]]
  }

  lemma {:induction false} NonEmptyAppend(a: seq<String>, b: seq<String>)
    ensures NonEmpty(a + b) == NonEmpty(a) + NonEmpty(b)
    decreases |b|
  {
    if |b| == 0 {
      assert a + b == a;
    } else {
      assert (a + b)[..|a + b| - 1] == a + b[..|b| - 1];
      NonEmptyAppend(a, b[..|b| - 1]);
    }
  }

  /** The segments `_split_visits` returns for a list of lines. */
  function SegmentsOfLines(lines: seq<String>): seq<String> {
    NonEmpty(VisitTexts(Groups(lines, IsVisitMarker)))
  }

  /** The segments `_split_visits` returns for a text. */
  function VisitSegments(content: String): seq<String> {
    SegmentsOfLines(SplitLines(content))
  }

  /**
   * Closing the last run `g[|g| - 1]` adds its text to the segments
   * when the run is not empty; an empty run has no text to add.
   */
  lemma ClosingRun(g: seq<seq<String>>, segments: seq<String>)
    requires |g| >= 1
    requires NonEmpty(segments) == NonEmpty(VisitTexts(g[..|g| - 1]))
    ensures var closed := if g[|g| - 1] != [] then segments + [Strip(Join(g[|g| - 1], '\n'))] else segments;
      NonEmpty(closed) == NonEmpty(VisitTexts(g))
  {
  }

  /**
   * The loop state of `_split_visits` after `i` lines: `current` is the open
   * run and `segments` holds the texts of the closed ones (empty texts aside).
   */
  ghost predicate SplitState(lines: seq<String>, i: nat, segments: seq<String>, current: seq<String>)
    requires i <= |lines|
  {
    var g := Groups(lines[..i], IsVisitMarker);
    current == g[|g| - 1] && NonEmpty(segments) == NonEmpty(VisitTexts(g[..|g| - 1]))
  }

  lemma MarkerLine(lines: seq<String>, i: nat, segments: seq<String>, current: seq<String>)
    requires i < |lines| && IsVisitMarker(lines[i])
    requires SplitState(lines, i, segments, current)
    ensures SplitState(lines, i + 1, if current != [] then segments + [Strip(Join(current, '\n'))] else segments, [])
  {
    GroupsStep(lines, i, IsVisitMarker);
    ClosingRun(Groups(lines[..i], IsVisitMarker), segments);
  }

  lemma OrdinaryLine(lines: seq<String>, i: nat, segments: seq<String>, current: seq<String>)
    requires i < |lines| && !IsVisitMarker(lines[i])
    requires SplitState(lines, i, segments, current)
    ensures SplitState(lines, i + 1, segments, current + [lines[i]])
  {
    GroupsStep(lines, i, IsVisitMarker);
  }

  /**
   * `_split_visits`: marker lines close the current segment and are
   * dropped; empty segments are filtered out at the end.
   */
  method SplitVisits(content: String) returns (r: seq<String>)
    ensures r == VisitSegments(content)
  {
    var lines := SplitLines(content);
    var segments: seq<String> := [];
    var current: seq<String> := [];
    var i := 0;
    while i < |lines|
      invariant 0 <= i <= |lines|
      invariant SplitState(lines, i, segments, current)
    {
      var line := lines[i];
      if IsVisitMarker(line) {
        MarkerLine(lines, i, segments, current);
        if current != [] {
          segments := segments + [Strip(Join(current, '\n'))];
          current := [];
        }
      } else {
        OrdinaryLine(lines, i, segments, current);
        current := current + [line];
      }
      i := i + 1;
    }
    assert lines[..i] == lines;
    ClosingRun(Groups(lines, IsVisitMarker), segments);
    if current != [] {
      segments := segments + [Strip(Join(current, '\n'))];
    }
    r := NonEmpty(segments);
  }

  /** Texts that are non-empty and have no surrounding whitespace. */
  predicate Trimmed(xs: seq<String>) {
    forall k :: 0 <= k < |xs| ==> xs[k] != [] && Strip(xs[k]) == xs[k]
  }

  lemma {:induction false} TextsTrimmed(g: seq<seq<String>>)
    ensures Trimmed(NonEmpty(VisitTexts(g)))
    decreases |g|
  {
    if |g| > 0 {
      var p := VisitTexts(g[..|g| - 1]);
      var x := VisitText(g[|g| - 1]);
      TextsTrimmed(g[..|g| - 1]);
      assert VisitTexts(g) == p + [x];
      NonEmptyAppend(p, [x]);
      StripIdempotent(Join(g[|g| - 1], '\n'));
      KeptTrimmed(x);
      TrimmedAppend(NonEmpty(p), NonEmpty([x]));
    }
  }

  /** A trimmed text, kept only when non-empty, leaves a trimmed list. */
  lemma KeptTrimmed(x: String)
    requires Strip(x) == x
    ensures Trimmed(NonEmpty([x]))
  {
    assert [x][..0] == [];
  }

  lemma TrimmedAppend(q: seq<String>, r: seq<String>)
    requires Trimmed(q) && Trimmed(r)
    ensures Trimmed(q + r)
  {
    forall k | 0 <= k < |q + r| ensures (q + r)[k] != [] && Strip((q + r)[k]) == (q + r)[k] {
      if k < |q| { assert (q + r)[k] == q[k]; } else { assert (q + r)[k] == r[k - |q|]; }
    }
  }

  /** Every segment is non-empty and already trimmed. */
  lemma SegmentsTrimmed(lines: seq<String>)
    ensures Trimmed(SegmentsOfLines(lines))
  {
    TextsTrimmed(Groups(lines, IsVisitMarker));
  }

  /** Without marker lines there is a single run: the whole input. */
  lemma {:induction false} GroupsWithoutMarkers(lines: seq<String>, isMarker: String -> bool)
    requires forall i :: 0 <= i < |lines| ==> !isMarker(lines[i])
    ensures Groups(lines, isMarker) == [lines]
    decreases |lines|
  {
    if |lines| > 0 {
      GroupsWithoutMarkers(lines[..|lines| - 1], isMarker);
      assert lines[..|lines| - 1] + [lines[|lines| - 1]] == lines;
    }
  }

  predicate NoMarkers(lines: seq<String>) {
    forall i :: 0 <= i < |lines| ==> !IsVisitMarker(lines[i])
  }

  /**
   * With no marker lines the result is one segment (the trimmed joined
   * lines), or nothing when that is empty.
   */
  lemma SegmentsWithoutMarkers(lines: seq<String>)
    requires NoMarkers(lines)
    ensures SegmentsOfLines(lines) == if VisitText(lines) == [] then [] else [VisitText(lines)]
  {
    GroupsWithoutMarkers(lines, IsVisitMarker);
    assert VisitTexts([lines]) == [VisitText(lines)];
    assert [VisitText(lines)][..0] == [];
  }

  lemma ReplaceLastOfAppend<T>(x: seq<T>, y: seq<T>, v: T)
    requires |y| > 0
    ensures (x + y)[..|x + y| - 1] + [v] == x + (y[..|y| - 1] + [v])
    ensures (x + y)[|x + y| - 1] == y[|y| - 1]
  {
  }

  /** A marker line splits the runs of what precedes and what follows it. */
  lemma {:induction false} GroupsAroundMarker(a: seq<String>, m: String, b: seq<String>, isMarker: String -> bool)
    requires isMarker(m)
    ensures Groups(a + [m] + b, isMarker) == Groups(a, isMarker) + Groups(b, isMarker)
    decreases |b|
  {
    var ga := Groups(a, isMarker);
    if |b| == 0 {
      assert a + [m] + b == a + [m];
      GroupsSnoc(a, m, isMarker);
    } else {
      var b' := b[..|b| - 1];
      var x := b[|b| - 1];
      GroupsAroundMarker(a, m, b', isMarker);
      assert a + [m] + b == (a + [m] + b') + [x];
      assert b == b' + [x];
      GroupsSnoc(a + [m] + b', x, isMarker);
      GroupsSnoc(b', x, isMarker);
      var gb := Groups(b', isMarker);
      if isMarker(x) {
        AppendAssoc(ga, gb, [[]]);
      } else {
        ReplaceLastOfAppend(ga, gb, gb[|gb| - 1] + [x]);
      }
    }
  }

  /**
   * A single marker line between two marker-free, non-blank parts yields
   * exactly those two segments; the marker is in neither.
   */
  lemma TwoVisits(a: seq<String>, m: String, b: seq<String>)
    requires IsVisitMarker(m) && NoMarkers(a) && NoMarkers(b)
    requires VisitText(a) != [] && VisitText(b) != []
    ensures SegmentsOfLines(a + [m] + b) == [VisitText(a), VisitText(b)]
  {
    RunsOfTwo(a, m, b);
    TextsOfTwo(a, b);
  }

  lemma RunsOfTwo(a: seq<String>, m: String, b: seq<String>)
    requires IsVisitMarker(m) && NoMarkers(a) && NoMarkers(b)
    ensures Groups(a + [m] + b, IsVisitMarker) == [a] + [b]
  {
    GroupsAroundMarker(a, m, b, IsVisitMarker);
    GroupsWithoutMarkers(a, IsVisitMarker);
    GroupsWithoutMarkers(b, IsVisitMarker);
  }

  lemma TextsOfTwo(a: seq<String>, b: seq<String>)
    requires VisitText(a) != [] && VisitText(b) != []
    ensures NonEmpty(VisitTexts([a] + [b])) == [VisitText(a), VisitText(b)]
  {
    VisitTextsSnoc([a], b);
    assert VisitTexts([a]) == [VisitText(a)];
    NonEmptyPair(VisitText(a), VisitText(b));
  }

  lemma NonEmptyPair(x: String, y: String)
    requires x != [] && y != []
    ensures NonEmpty([x] + [y]) == [x, y]
  {
    NonEmptyAppend([x], [y]);
    assert [x][..0] == [] && [y][..0] == [];
  }

  // ================================================================= turns

  datatype Role = Doctor | Caregiver | Patient | Other

  /**
   * `_normalize_role`: the cues are tried in a fixed order and the first
   * that fires decides; every token gets one of the four roles.
   */
  function NormalizeRole(raw: String): (r: Role)
    ensures (StartsWith(raw, "D") || Contains(raw, "医生")) ==> r == Doctor
    ensures r == Caregiver ==>
      !(StartsWith(raw, "D") || Contains(raw, "医生")) && (Contains(raw, "家属") || Contains(raw, "家长"))
    ensures r == Patient ==>
      !(StartsWith(raw, "D") || Contains(raw, "医生") || Contains(raw, "家属") || Contains(raw, "家长")) &&
      (StartsWith(raw, "P") || Contains(raw, "患者"))
    ensures r == Other <==>
      !(StartsWith(raw, "D") || StartsWith(raw, "P") ||
        Contains(raw, "医生") || Contains(raw, "家属") || Contains(raw, "家长") || Contains(raw, "患者"))
  {
    if StartsWith(raw, "D") || Contains(raw, "医生") then Doctor
    else if Contains(raw, "家属") || Contains(raw, "家长") then Caregiver
    else if StartsWith(raw, "P") || Contains(raw, "患者") then Patient
    else Other
  }

  predicate IsOpenBracket(c: char) { c == '[' || c == '【' }
  predicate IsCloseBracket(c: char) { c == ']' || c == '】' }

  /** The position of the first closing bracket. */
  function FirstClose(s: String): (r: Option<nat>)
    ensures r.Some? ==> r.value < |s| && IsCloseBracket(s[r.value])
    ensures r.Some? ==> forall k :: 0 <= k < r.value ==> !IsCloseBracket(s[k])
    ensures r.None? ==> forall k :: 0 <= k < |s| ==> !IsCloseBracket(s[k])
  {
    if |s| == 0 then None
    else if IsCloseBracket(s[0]) then Some(0)
    else match FirstClose(s[1..])
      case None => None
      case Some(k) => Some(k + 1)
  }

  /** A bracket tag: the token between the brackets and the trimmed text after it. */
  datatype Tag = Tag(rawRole: String, text: String)

  /**
   * `^[\[【]([^\]】]+)[\]】[:：]?\s*(.*)$` on a trimmed line, with the text
   * group trimmed.  The token is everything up to the first closing
   * bracket and must not be empty.
   */
  function MatchTag(line: String): (r: Option<Tag>)
    ensures r.Some? ==> |line| > 0 && IsOpenBracket(line[0]) && r.value.rawRole != []
  {
    if |line| == 0 || !IsOpenBracket(line[0]) then None
    else match FirstClose(line[1..])
      case None => None
      case Some(k) =>
        if k == 0 then None
        else
          var after := line[k + 2..];
          var text := if |after| > 0 && (after[0] == ':' || after[0] == '：') then after[1..] else after;
          Some(Tag(line[1..k + 1], Strip(text)))
  }

  /** A bracket tag written as `【token】：text` reads back as that token and the trimmed text. */
  lemma MatchTagOfTagLine(open: char, token: String, close: char, text: String)
    requires IsOpenBracket(open) && IsCloseBracket(close)
    requires token != [] && forall k :: 0 <= k < |token| ==> !IsCloseBracket(token[k])
    ensures MatchTag([open] + token + [close] + "：" + text) == Some(Tag(token, Strip(text)))
  {
    TagLineShape(open, token, close, text);
    FirstCloseAfter(token, [close] + "：" + text);
  }

  lemma TagLineShape(open: char, token: String, close: char, text: String)
    ensures var line := [open] + token + [close] + "：" + text;
      |line| == |token| + 3 + |text| && line[0] == open &&
      line[1..] == token + ([close] + "：" + text) &&
      line[1..|token| + 1] == token && line[|token| + 2..] == "：" + text
  {
    var line := [open] + token + [close] + "：" + text;
    assert line[1..] == token + ([close] + "：" + text);
    assert line[1..|token| + 1] == token;
    assert line[|token| + 2..] == "：" + text;
  }

  lemma FirstCloseAfter(token: String, rest: String)
    requires forall k :: 0 <= k < |token| ==> !IsCloseBracket(token[k])
    requires |rest| > 0 && IsCloseBracket(rest[0])
    ensures FirstClose(token + rest) == Some(|token|)
  {
    assert (token + rest)[|token|] == rest[0];
    assert forall k :: 0 <= k < |token| ==> (token + rest)[k] == token[k];
  }

  /**
   * The speaker note of a tag: the text between the first （ and the next ）
   * after it, present only when the token holds both brackets.
   */
  function NoteOf(raw: String): (r: Option<String>)
    ensures r.Some? <==> '（' in raw && '）' in raw
    ensures r.Some? ==> '）' !in r.value
  {
    if '（' in raw && '）' in raw then
      var i := IndexOf(raw, '（').value;
      Some(Split(raw[i + 1..], '）')[0])
    else None
  }

  /** A token `prefix（note）suffix` with no （ in the prefix carries exactly `note`. */
  lemma NoteOfBracketed(prefix: String, note: String, suffix: String)
    requires '（' !in prefix && '）' !in note
    ensures NoteOf(prefix + "（" + note + "）" + suffix) == Some(note)
  {
    var raw := prefix + "（" + note + "）" + suffix;
    assert raw[|prefix|] == '（';
    assert raw[|prefix| + 1 + |note|] == '）';
    var i := IndexOf(raw, '（').value;
    assert raw[..|prefix|] == prefix;
    assert i == |prefix|;
    var after := raw[i + 1..];
    assert after == note + "）" + suffix;
    assert after[|note|] == '）' && after[..|note|] == note;
    assert IndexOf(after, '）') == Some(|note|);
  }

  /** One speaker turn; `note` is the speaker note, never empty when present. */
  datatype Turn = Turn(role: Role, text: String, note: Option<String>)

  /** The speaker being collected: its role and note, and the text pieces so far. */
  datatype Pending = Pending(role: Option<Role>, note: Option<String>, buffer: seq<String>)

  const Idle: Pending := Pending(None, None, [])

  /**
   * What `flush` emits: the pending speaker's pieces joined with no
   * separator and trimmed, when there is a speaker and the text is not
   * empty; an empty note is dropped.
   */
  function Flushed(p: Pending): (r: seq<Turn>)
    ensures |r| <= 1
  {
    if p.role.Some? && p.buffer != [] then
      var text := Strip(Concat(p.buffer));
      if text != [] then
        [Turn(p.role.value, text, if p.note.Some? && p.note.value != [] then p.note else None)]
      else []
    else []
  }

  /** The speaker a tag line opens. */
  function Opened(tag: Tag): Pending {
    Pending(Some(NormalizeRole(tag.rawRole)), NoteOf(tag.rawRole), if tag.text != [] then [tag.text] else [])
  }

  /** A line that is neither blank nor a bracket tag once trimmed. */
  predicate IsContinuation(line: String) {
    Strip(line) != [] && MatchTag(Strip(line)).None?
  }

  /**
   * One pass of the line loop of `_parse_turns`: the new pending speaker and
   * the turns emitted.  Blank lines are skipped; a tag line flushes and opens
   * a speaker; any other line joins the open speaker, or is dropped when
   * there is none.
   */
  function Step(p: Pending, line: String): (Pending, seq<Turn>) {
    var l := Strip(line);
    if l == [] then (p, [])
    else match MatchTag(l)
      case Some(tag) => (Opened(tag), Flushed(p))
      case None => (if p.role.Some? then p.(buffer := p.buffer + [l]) else p, [])
  }

  /** The loop over `lines` from pending speaker `p`: where it ends and what it emits. */
  function Run(p: Pending, lines: seq<String>): (Pending, seq<Turn>)
    decreases |lines|
  {
    if |lines| == 0 then (p, [])
    else
      var s := Step(p, lines[0]);
      var r := Run(s.0, lines[1..]);
      (r.0, s.1 + r.1)
  }

  /** The turns the loop and the final flush produce for a sequence of lines. */
  function TurnsOfLines(lines: seq<String>): seq<Turn> {
    var r := Run(Idle, lines);
    r.1 + Flushed(r.0)
  }

  /** The turns `_parse_turns` returns for a text. */
  function TurnsOf(content: String): seq<Turn> {
    TurnsOfLines(SplitLines(content))
  }

  /**
   * The state `_parse_turns` keeps between lines: the turns so far and the
   * pending speaker that the nested `flush` emits and resets.
   */
  class TurnBuilder {
    var turns: seq<Turn>
    var currentRole: Option<Role>
    var currentNote: Option<String>
    var buffer: seq<String>

    function State(): Pending
      reads this
    {
      Pending(currentRole, currentNote, buffer)
    }

    constructor ()
      ensures turns == [] && State() == Idle
    {
      turns := [];
      currentRole := None;
      currentNote := None;
      buffer := [];
    }

    /** `flush`: emit the pending turn, if any, and forget the speaker. */
    method Flush()
      modifies this
      ensures turns == old(turns) + Flushed(old(State()))
      ensures State() == Idle
    {
      if currentRole.Some? && buffer != [] {
        var text := Strip(Concat(buffer));
        if text != [] {
          var note := if currentNote.Some? && currentNote.value != [] then currentNote else None;
          turns := turns + [Turn(currentRole.value, text, note)];
        }
      }
      buffer := [];
      currentRole := None;
      currentNote := None;
    }

    /** A tag line: flush, then take the tagged speaker, its note and its inline text. */
    method Open(tag: Tag)
      modifies this
      ensures turns == old(turns) + Flushed(old(State()))
      ensures State() == Opened(tag)
    {
      Flush();
      currentRole := Some(NormalizeRole(tag.rawRole));
      currentNote := NoteOf(tag.rawRole);
      if tag.text != [] {
        buffer := buffer + [tag.text];
      }
    }

    /** Any other non-blank line: kept only while a speaker is open. */
    method Continue(line: String)
      modifies this
      ensures turns == old(turns)
      ensures State() == if old(currentRole).Some? then old(State()).(buffer := old(buffer) + [line]) else old(State())
    {
      if currentRole.Some? {
        buffer := buffer + [line];
      }
    }
  }

  /**
   * The loop of `_parse_turns` after `i` lines: pending speaker `p` and
   * emitted turns `done` lead to the same result as the whole loop.
   */
  ghost predicate TurnsState(lines: seq<String>, i: nat, p: Pending, done: seq<Turn>) {
    i <= |lines| && Run(Idle, lines) == (Run(p, lines[i..]).0, done + Run(p, lines[i..]).1)
  }

  lemma TurnsStart(lines: seq<String>)
    ensures TurnsState(lines, 0, Idle, [])
  {
    assert lines[0..] == lines;
    assert [] + Run(Idle, lines).1 == Run(Idle, lines).1;
  }

  lemma TurnsAdvance(lines: seq<String>, i: nat, p: Pending, done: seq<Turn>)
    requires TurnsState(lines, i, p, done) && i < |lines|
    ensures var s := Step(p, lines[i]); TurnsState(lines, i + 1, s.0, done + s.1)
  {
    assert lines[i..][0] == lines[i];
    assert lines[i..][1..] == lines[i + 1..];
    var s := Step(p, lines[i]);
    AppendAssoc(done, s.1, Run(s.0, lines[i + 1..]).1);
  }

  /** A blank line changes nothing. */
  lemma BlankLine(lines: seq<String>, i: nat, p: Pending, done: seq<Turn>)
    requires TurnsState(lines, i, p, done) && i < |lines| && Strip(lines[i]) == []
    ensures TurnsState(lines, i + 1, p, done)
  {
    QuietStep(lines, i, p, done, p);
  }

  /** A tag line flushes the pending speaker and opens the tagged one. */
  lemma TagLine(lines: seq<String>, i: nat, p: Pending, done: seq<Turn>, tag: Tag)
    requires TurnsState(lines, i, p, done) && i < |lines|
    requires Strip(lines[i]) != [] && MatchTag(Strip(lines[i])) == Some(tag)
    ensures TurnsState(lines, i + 1, Opened(tag), done + Flushed(p))
  {
    TurnsAdvance(lines, i, p, done);
  }

  /** Any other line joins the open speaker's text, or is dropped. */
  lemma TextLine(lines: seq<String>, i: nat, p: Pending, done: seq<Turn>)
    requires TurnsState(lines, i, p, done) && i < |lines|
    requires Strip(lines[i]) != [] && MatchTag(Strip(lines[i])).None?
    ensures TurnsState(lines, i + 1, if p.role.Some? then p.(buffer := p.buffer + [Strip(lines[i])]) else p, done)
  {
    var q := if p.role.Some? then p.(buffer := p.buffer + [Strip(lines[i])]) else p;
    assert Step(p, lines[i]) == (q, []);
    QuietStep(lines, i, p, done, q);
  }

  /** A line that emits no turn leaves the emitted turns as they were. */
  lemma QuietStep(lines: seq<String>, i: nat, p: Pending, done: seq<Turn>, q: Pending)
    requires TurnsState(lines, i, p, done) && i < |lines|
    requires Step(p, lines[i]) == (q, [])
    ensures TurnsState(lines, i + 1, q, done)
  {
    TurnsAdvance(lines, i, p, done);
    AppendEmpty(done);
  }

  /** After the last line, the final flush completes the turns. */
  lemma TurnsEnd(lines: seq<String>, p: Pending, done: seq<Turn>)
    requires TurnsState(lines, |lines|, p, done)
    ensures TurnsOfLines(lines) == done + Flushed(p)
  {
    var rest := lines[|lines|..];
    assert |rest| == 0;
    assert Run(p, rest) == (p, []);
    AppendEmpty(done);
    assert Run(Idle, lines) == (p, done);
  }

  /** One pass of the loop body of `_parse_turns`, on line `i`. */
  method Feed(b: TurnBuilder, lines: seq<String>, i: nat)
    requires i < |lines| && TurnsState(lines, i, b.State(), b.turns)
    modifies b
    ensures TurnsState(lines, i + 1, b.State(), b.turns)
  {
    var line := Strip(lines[i]);
    if line == [] {
      BlankLine(lines, i, b.State(), b.turns);
    } else {
      var m := MatchTag(line);
      if m.Some? {
        TagLine(lines, i, b.State(), b.turns, m.value);
        b.Open(m.value);
      } else {
        TextLine(lines, i, b.State(), b.turns);
        b.Continue(line);
      }
    }
  }

  /** `_parse_turns`. */
  method ParseTurns(content: String) returns (turns: seq<Turn>)
    ensures turns == TurnsOf(content)
  {
    var lines := SplitLines(content);
    var b := new TurnBuilder();
    var i := 0;
    TurnsStart(lines);
    while i < |lines|
      invariant i <= |lines|
      invariant TurnsState(lines, i, b.State(), b.turns)
    {
      Feed(b, lines, i);
      i := i + 1;
    }
    TurnsEnd(lines, b.State(), b.turns);
    b.Flush();
    turns := b.turns;
  }

  /** What every emitted turn satisfies: trimmed, non-empty text and a note only when it is non-empty. */
  predicate WellFormedTurn(t: Turn) {
    t.text != [] && !IsSpace(t.text[0]) && !IsSpace(t.text[|t.text| - 1]) && (t.note.Some? ==> t.note.value != [])
  }

  predicate WellFormedTurns(ts: seq<Turn>) {
    forall k :: 0 <= k < |ts| ==> WellFormedTurn(ts[k])
  }

  lemma FlushedWellFormed(p: Pending)
    ensures WellFormedTurns(Flushed(p))
  {
    if p.role.Some? && p.buffer != [] {
      var text := Strip(Concat(p.buffer));
      if text != [] {
        var note := if p.note.Some? && p.note.value != [] then p.note else None;
        assert Flushed(p) == [Turn(p.role.value, text, note)];
        SingleTurnWellFormed(Turn(p.role.value, text, note));
      }
    }
  }

  lemma SingleTurnWellFormed(t: Turn)
    requires WellFormedTurn(t)
    ensures WellFormedTurns([t])
  {
  }

  lemma WellFormedAppend(a: seq<Turn>, b: seq<Turn>)
    requires WellFormedTurns(a) && WellFormedTurns(b)
    ensures WellFormedTurns(a + b)
  {
    forall k | 0 <= k < |a + b|
      ensures WellFormedTurn((a + b)[k])
    {
      if k >= |a| {
        assert (a + b)[k] == b[k - |a|];
      }
    }
  }

  lemma {:induction false} RunWellFormed(p: Pending, lines: seq<String>)
    ensures WellFormedTurns(Run(p, lines).1)
    decreases |lines|
  {
    if |lines| > 0 {
      var s := Step(p, lines[0]);
      FlushedWellFormed(p);
      RunWellFormed(s.0, lines[1..]);
      WellFormedAppend(s.1, Run(s.0, lines[1..]).1);
    }
  }

  /** Every turn `_parse_turns` returns has trimmed non-empty text and, if any, a non-empty note. */
  lemma TurnsWellFormed(content: String)
    ensures WellFormedTurns(TurnsOf(content))
  {
    var r := Run(Idle, SplitLines(content));
    RunWellFormed(Idle, SplitLines(content));
    FlushedWellFormed(r.0);
    WellFormedAppend(r.1, Flushed(r.0));
  }

  /** Whether a line, once trimmed, is a bracket tag line. */
  predicate IsTagLine(line: String) {
    Strip(line) != [] && MatchTag(Strip(line)).Some?
  }

  function TagCount(lines: seq<String>): nat
    decreases |lines|
  {
    if |lines| == 0 then 0 else (if IsTagLine(lines[0]) then 1 else 0) + TagCount(lines[1..])
  }

  function OpenCount(p: Pending): nat {
    if p.role.Some? then 1 else 0
  }

  lemma {:induction false} RunTurnCount(p: Pending, lines: seq<String>)
    ensures |Run(p, lines).1| + OpenCount(Run(p, lines).0) <= OpenCount(p) + TagCount(lines)
    decreases |lines|
  {
    if |lines| > 0 {
      var s := Step(p, lines[0]);
      RunTurnCount(s.0, lines[1..]);
      var l := Strip(lines[0]);
      if l != [] && MatchTag(l).Some? {
        assert |s.1| <= OpenCount(p);
      }
    }
  }

  /** Each turn is opened by its own tag line: there are never more turns than tag lines. */
  lemma TurnsAtMostTags(lines: seq<String>)
    ensures |TurnsOfLines(lines)| <= TagCount(lines)
  {
    RunTurnCount(Idle, lines);
  }

  lemma ConsAppend<T>(a: seq<T>, b: seq<T>)
    requires |a| > 0
    ensures a + b == [a[0]] + (a[1..] + b)
  {
  }

  lemma AppendEmpty<T>(a: seq<T>)
    ensures a + [] == a
  {
  }

  lemma EmptyAppend<T>(a: seq<T>, b: seq<T>)
    requires a == []
    ensures a + b == b
  {
  }

  lemma ConsSplit<T>(a: seq<T>)
    requires |a| > 0
    ensures a == [a[0]] + a[1..]
  {
  }

  lemma RunCons(p: Pending, line: String, rest: seq<String>)
    ensures var s := Step(p, line);
      Run(p, [line] + rest) == (Run(s.0, rest).0, s.1 + Run(s.0, rest).1)
  {
    assert ([line] + rest)[0] == line;
    assert ([line] + rest)[1..] == rest;
  }

  lemma StepIdle(line: String)
    requires !IsTagLine(line)
    ensures Step(Idle, line) == (Idle, [])
  {
  }

  lemma StepContinuation(p: Pending, line: String)
    requires p.role.Some? && IsContinuation(line)
    ensures Step(p, line) == (p.(buffer := p.buffer + [Strip(line)]), [])
  {
  }

  /** With no speaker open, a line that is not a tag line is skipped. */
  lemma IdleSkips(line: String, rest: seq<String>)
    requires !IsTagLine(line)
    ensures Run(Idle, [line] + rest) == Run(Idle, rest)
  {
    RunCons(Idle, line, rest);
    StepIdle(line);
    var r := Run(Idle, rest);
    assert [] + r.1 == r.1;
  }

  lemma DropFirst(pre: seq<String>, rest: seq<String>)
    requires |pre| > 0 && !IsTagLine(pre[0])
    ensures Run(Idle, pre + rest) == Run(Idle, pre[1..] + rest)
  {
    ConsAppend(pre, rest);
    IdleSkips(pre[0], pre[1..] + rest);
  }

  /** Lines before the first tag line are ignored: no speaker is open to take them. */
  lemma {:induction false} LeadingLinesDropped(pre: seq<String>, rest: seq<String>)
    requires forall k :: 0 <= k < |pre| ==> !IsTagLine(pre[k])
    ensures Run(Idle, pre + rest) == Run(Idle, rest)
    decreases |pre|
  {
    if |pre| > 0 {
      assert !IsTagLine(pre[0]);
      DropFirst(pre, rest);
      LeadingLinesDropped(pre[1..], rest);
    } else {
      EmptyAppend(pre, rest);
    }
  }

  /** The lines trimmed. */
  function StripAll(lines: seq<String>): (r: seq<String>)
    ensures |r| == |lines|
    decreases |lines|
  {
    if |lines| == 0 then [] else [Strip(lines[0])] + StripAll(lines[1..])
  }

  lemma {:induction false} ContinuationLines(p: Pending, lines: seq<String>)
    requires p.role.Some?
    requires forall k :: 0 <= k < |lines| ==> IsContinuation(lines[k])
    ensures Run(p, lines) == (p.(buffer := p.buffer + StripAll(lines)), [])
    decreases |lines|
  {
    if |lines| > 0 {
      ConsSplit(lines);
      RunCons(p, lines[0], lines[1..]);
      StepContinuation(p, lines[0]);
      var q := p.(buffer := p.buffer + [Strip(lines[0])]);
      ContinuationLines(q, lines[1..]);
      var r := Run(q, lines[1..]);
      assert [] + r.1 == r.1;
      assert Run(p, lines) == (r.0, r.1);
      AppendAssoc(p.buffer, [Strip(lines[0])], StripAll(lines[1..]));
      assert StripAll(lines) == [Strip(lines[0])] + StripAll(lines[1..]);
    } else {
      AppendEmpty(p.buffer);
    }
  }

  /**
   * A tag line followed only by non-tag lines makes at most one turn, whose
   * text is the tag's inline text and the trimmed lines run together with
   * no separator.
   */
  lemma OneSpeaker(line: String, tag: Tag, rest: seq<String>)
    requires Strip(line) != [] && MatchTag(Strip(line)) == Some(tag)
    requires forall k :: 0 <= k < |rest| ==> IsContinuation(rest[k])
    ensures var o := Opened(tag); TurnsOfLines([line] + rest) == Flushed(o.(buffer := o.buffer + StripAll(rest)))
  {
    var o := Opened(tag);
    var o' := o.(buffer := o.buffer + StripAll(rest));
    IdleOpens(line, tag, rest);
    ContinuationLines(o, rest);
    TurnsOfRun([line] + rest, o');
  }

  lemma TurnsOfRun(lines: seq<String>, p: Pending)
    requires Run(Idle, lines) == (p, [])
    ensures TurnsOfLines(lines) == Flushed(p)
  {
    EmptyAppend([], Flushed(p));
  }

  /** From no speaker, a tag line opens its speaker and emits nothing. */
  lemma IdleOpens(line: String, tag: Tag, rest: seq<String>)
    requires Strip(line) != [] && MatchTag(Strip(line)) == Some(tag)
    ensures Run(Idle, [line] + rest) == Run(Opened(tag), rest)
  {
    RunCons(Idle, line, rest);
    assert Step(Idle, line) == (Opened(tag), []);
    var r := Run(Opened(tag), rest);
    assert [] + r.1 == r.1;
  }
}
