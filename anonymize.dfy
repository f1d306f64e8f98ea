/**
 * processed_data/anonymize_names.py: named-entity spans of a text replaced
 * by `[NAME]` / `[ORG]`, line by line, with the recogniser's raw output
 * filtered into entities and long texts fed to it in fixed-size chunks.
 * The recogniser itself is a function parameter.
 */
module Anonymize {
  import opened Text

  const NamePlaceholder: String := "[NAME]"
  const OrgPlaceholder: String := "[ORG]"

  /** A recognised span `[start, end)` of a text and its label (`kind`). */
  datatype NerEntity = NerEntity(start: int, end: int, kind: String)

  /** `[NAME]` for a NAME span, `[ORG]` for any other kind. */
  function Placeholder(kind: String): (r: String)
    ensures r == NamePlaceholder <==> kind == "NAME"
    ensures r == NamePlaceholder || r == OrgPlaceholder
  {
    if kind == "NAME" then NamePlaceholder else OrgPlaceholder
  }

  // ------------------------------------------------------ Python slices

  /** `s[:i]`: a negative index counts from the end, an index out of range is clamped. */
  function PyTake(s: String, i: int): (r: String)
    ensures |r| <= |s| && r == s[..|r|]
    ensures 0 <= i <= |s| ==> |r| == i
  {
    if i < 0 then (if |s| + i < 0 then [] else s[..|s| + i])
    else if i > |s| then s
    else s[..i]
  }

  /** `s[i:]`, with the same index rules. */
  function PyDrop(s: String, i: int): (r: String)
    ensures |r| <= |s| && r == s[|s| - |r|..]
    ensures 0 <= i <= |s| ==> |r| == |s| - i
  {
    if i < 0 then (if |s| + i < 0 then s else s[|s| + i..])
    else if i > |s| then []
    else s[i..]
  }

  /** `s[:i] + s[i:] == s` for every index. */
  lemma PySliceSplit(s: String, i: int)
    ensures PyTake(s, i) + PyDrop(s, i) == s
  {
    var k := if i < 0 then (if |s| + i < 0 then 0 else |s| + i) else if i > |s| then |s| else i;
    assert PyTake(s, i) == s[..k] && PyDrop(s, i) == s[k..];
  }

  // ------------------------------------------------------------ sorting

  predicate Descending(xs: seq<NerEntity>) {
    forall i, j :: 0 <= i < j < |xs| ==> xs[i].start >= xs[j].start
  }

  /** `e` placed after every entity that does not start after it. */
  function InsertDesc(xs: seq<NerEntity>, e: NerEntity): (r: seq<NerEntity>)
    requires Descending(xs)
    ensures Descending(r)
    ensures multiset(r) == multiset(xs) + multiset{e}
    ensures |r| == |xs| + 1 && (r[|r| - 1] == e || (|xs| > 0 && r[|r| - 1] == xs[|xs| - 1]))
  {
    if |xs| == 0 then [e]
    else if xs[|xs| - 1].start >= e.start then DescendingSnoc(xs, e); xs + [e]
    else
      var last := xs[|xs| - 1];
      var init := xs[..|xs| - 1];
      DescendingInit(xs);
      InitLast(xs);
      var r := InsertDesc(init, e);
      DescendingSnoc(r, last);
      SnocMultiset(r, init, e, last);
      r + [last]
  }

  lemma SnocMultiset(r: seq<NerEntity>, init: seq<NerEntity>, e: NerEntity, last: NerEntity)
    requires multiset(r) == multiset(init) + multiset{e}
    ensures multiset(r + [last]) == multiset(init + [last]) + multiset{e}
  {
  }

  /** An entity that starts no later than the last one extends a descending list. */
  lemma DescendingSnoc(xs: seq<NerEntity>, e: NerEntity)
    requires Descending(xs) && (|xs| > 0 ==> xs[|xs| - 1].start >= e.start)
    ensures Descending(xs + [e])
  {
  }

  /** `sorted(entities, key=start, reverse=True)`: stable, by descending start. */
  function SortDesc(xs: seq<NerEntity>): (r: seq<NerEntity>)
    ensures Descending(r)
    ensures multiset(r) == multiset(xs)
  {
    if |xs| == 0 then []
    else
      assert xs == xs[..|xs| - 1] + [xs[|xs| - 1]];
      InsertDesc(SortDesc(xs[..|xs| - 1]), xs[|xs| - 1])
  }

  /** Entities already in descending order keep their order. */
  lemma {:induction false} SortDescSorted(xs: seq<NerEntity>)
    requires Descending(xs)
    ensures SortDesc(xs) == xs
  {
    if |xs| > 0 {
      var init := xs[..|xs| - 1];
      var last := xs[|xs| - 1];
      DescendingInit(xs);
      SortDescSorted(init);
      InsertAtEnd(init, last);
      SortDescLast(xs);
      InitLast(xs);
    }
  }

  lemma DescendingInit(xs: seq<NerEntity>)
    requires Descending(xs) && |xs| > 0
    ensures Descending(xs[..|xs| - 1])
    ensures |xs| > 1 ==> xs[|xs| - 2].start >= xs[|xs| - 1].start
  {
  }

  /** The sort of a non-empty list inserts its last entity into the sort of the rest. */
  lemma SortDescLast(xs: seq<NerEntity>)
    requires |xs| > 0
    ensures SortDesc(xs) == InsertDesc(SortDesc(xs[..|xs| - 1]), xs[|xs| - 1])
  {
  }

  /** An entity that starts no later than the last one goes at the end. */
  lemma InsertAtEnd(xs: seq<NerEntity>, e: NerEntity)
    requires Descending(xs) && (|xs| > 0 ==> xs[|xs| - 1].start >= e.start)
    ensures InsertDesc(xs, e) == xs + [e]
  {
    if |xs| == 0 {
      assert InsertDesc(xs, e) == [e];
    }
  }

  predicate StrictlyAscending(xs: seq<NerEntity>) {
    forall i, j :: 0 <= i < j < |xs| ==> xs[i].start < xs[j].start
  }

  function Reverse(xs: seq<NerEntity>): (r: seq<NerEntity>)
    ensures |r| == |xs|
    ensures forall k :: 0 <= k < |xs| ==> r[k] == xs[|xs| - 1 - k]
  {
    if xs == [] then [] else [xs[|xs| - 1]] + Reverse(xs[..|xs| - 1])
  }

  lemma {:induction false} InsertFront(xs: seq<NerEntity>, e: NerEntity)
    requires Descending(xs)
    requires forall k :: 0 <= k < |xs| ==> xs[k].start < e.start
    ensures InsertDesc(xs, e) == [e] + xs
  {
    if xs != [] {
      var init := xs[..|xs| - 1];
      InsertFront(init, e);
      assert [e] + xs == ([e] + init) + [xs[|xs| - 1]];
    }
  }

  /** Entities in strictly ascending order, as the detector yields them, are simply reversed. */
  lemma {:induction false} SortDescAscending(xs: seq<NerEntity>)
    requires StrictlyAscending(xs)
    ensures SortDesc(xs) == Reverse(xs)
  {
    if xs != [] {
      var init := xs[..|xs| - 1];
      assert StrictlyAscending(init);
      SortDescAscending(init);
      ReversedBelowLast(xs);
      InsertFront(Reverse(init), xs[|xs| - 1]);
    }
  }

  /** Reversing all but the last entity leaves every one of them before the last. */
  lemma ReversedBelowLast(xs: seq<NerEntity>)
    requires StrictlyAscending(xs) && xs != []
    ensures var rev := Reverse(xs[..|xs| - 1]);
      forall k :: 0 <= k < |rev| ==> rev[k].start < xs[|xs| - 1].start
  {
    var init := xs[..|xs| - 1];
    var rev := Reverse(init);
    forall k | 0 <= k < |rev|
      ensures rev[k].start < xs[|xs| - 1].start
    {
      assert rev[k] == xs[|xs| - 2 - k];
    }
  }

  // ------------------------------------------------------ replace_spans

  /** One replacement: `out[:start] + placeholder + out[end:]`. */
  function Splice(s: String, e: NerEntity): String {
    PyTake(s, e.start) + Placeholder(e.kind) + PyDrop(s, e.end)
  }

  /** The replacements of `es`, in list order. */
  function SpliceAll(s: String, es: seq<NerEntity>): String
    decreases |es|
  {
    if es == [] then s else SpliceAll(Splice(s, es[0]), es[1..])
  }

  /** `replace_spans`: every entity spliced in, the one starting last first. */
  function Replaced(text: String, entities: seq<NerEntity>): String {
    SpliceAll(text, SortDesc(entities))
  }

  method ReplaceSpans(text: String, entities: seq<NerEntity>) returns (out: String)
    ensures out == Replaced(text, entities)
    ensures entities == [] ==> out == text
  {
    if entities == [] {
      return text;
    }
    var order := SortDesc(entities);
    out := text;
    var i := 0;
    while i < |order|
      invariant 0 <= i <= |order|
      invariant SpliceAll(out, order[i..]) == SpliceAll(text, order)
    {
      var ent := order[i];
      var placeholder := if ent.kind == "NAME" then NamePlaceholder else OrgPlaceholder;
      assert order[i..][1..] == order[i + 1..];
      out := PyTake(out, ent.start) + placeholder + PyDrop(out, ent.end);
      i := i + 1;
    }
  }

  /** A text seen as spans: the untouched text before each span, the span's text and its label (`kind`). */
  datatype Piece = Piece(gap: String, span: String, kind: String)

  /** The text the pieces spell. */
  function Source(pieces: seq<Piece>): String {
    if pieces == [] then []
    else
      var p := pieces[|pieces| - 1];
      Source(pieces[..|pieces| - 1]) + p.gap + p.span
  }

  /** The same text with each span replaced by its placeholder. */
  function Masked(pieces: seq<Piece>): String {
    if pieces == [] then []
    else
      var p := pieces[|pieces| - 1];
      Masked(pieces[..|pieces| - 1]) + p.gap + Placeholder(p.kind)
  }

  /** The entities of the spans, the last span first. */
  function Spans(pieces: seq<Piece>): (r: seq<NerEntity>)
    ensures |r| == |pieces|
  {
    if pieces == [] then []
    else
      var init := pieces[..|pieces| - 1];
      [SpanOf(Source(init), pieces[|pieces| - 1])] + Spans(init)
  }

  /** The entity of piece `p` after the text `before`. */
  function SpanOf(before: String, p: Piece): NerEntity {
    NerEntity(|before| + |p.gap|, |before| + |p.gap| + |p.span|, p.kind)
  }

  /** The entities of the spans lie inside the text, do not overlap, and come in descending order. */
  lemma {:induction false} SpansInside(pieces: seq<Piece>)
    ensures var es := Spans(pieces);
      (forall k :: 0 <= k < |es| ==> 0 <= es[k].start <= es[k].end <= |Source(pieces)|) &&
      (forall k :: 0 <= k < |es| - 1 ==> es[k + 1].end <= es[k].start) &&
      Descending(es)
  {
    if pieces != [] {
      var init := pieces[..|pieces| - 1];
      var p := pieces[|pieces| - 1];
      SpansInside(init);
      SpansFirst(pieces, init, p);
      assert Source(pieces) == Source(init) + p.gap + p.span;
    }
  }

  lemma SpliceLast(s: String, e: NerEntity, before: String, p: Piece, tail: String)
    requires s == before + p.gap + p.span + tail
    requires e.start == |before| + |p.gap| && e.end == e.start + |p.span| && e.kind == p.kind
    ensures Splice(s, e) == before + (p.gap + Placeholder(p.kind) + tail)
  {
    assert s[..e.start] == before + p.gap;
    assert s[e.end..] == tail;
  }

  /** Replacing the last span first leaves the earlier spans before a new tail. */
  lemma SpliceSpansStep(pieces: seq<Piece>, init: seq<Piece>, p: Piece, tail: String)
    requires pieces != [] && init == pieces[..|pieces| - 1] && p == pieces[|pieces| - 1]
    ensures SpliceAll(Source(pieces) + tail, Spans(pieces))
         == SpliceAll(Source(init) + (p.gap + Placeholder(p.kind) + tail), Spans(init))
  {
    SpansFirst(pieces, init, p);
    SpliceLastOf(pieces, init, p, tail);
  }

  lemma SpliceLastOf(pieces: seq<Piece>, init: seq<Piece>, p: Piece, tail: String)
    requires pieces != [] && init == pieces[..|pieces| - 1] && p == pieces[|pieces| - 1]
    ensures SpliceAll(Source(pieces) + tail, [SpanOf(Source(init), p)] + Spans(init))
         == SpliceAll(Source(init) + (p.gap + Placeholder(p.kind) + tail), Spans(init))
  {
    SourceLast(pieces, init, p);
    SpliceLastAll(Source(pieces) + tail, SpanOf(Source(init), p), Source(init), p, tail, Spans(init));
  }

  lemma SourceLast(pieces: seq<Piece>, init: seq<Piece>, p: Piece)
    requires pieces != [] && init == pieces[..|pieces| - 1] && p == pieces[|pieces| - 1]
    ensures Source(pieces) == Source(init) + p.gap + p.span
  {
  }

  lemma SpliceLastAll(s: String, e: NerEntity, before: String, p: Piece, tail: String, rest: seq<NerEntity>)
    requires s == before + p.gap + p.span + tail
    requires e.start == |before| + |p.gap| && e.end == e.start + |p.span| && e.kind == p.kind
    ensures SpliceAll(s, [e] + rest) == SpliceAll(before + (p.gap + Placeholder(p.kind) + tail), rest)
  {
    SpliceLast(s, e, before, p, tail);
    SpliceHead(s, e, rest);
  }

  lemma SpliceHead(s: String, e: NerEntity, rest: seq<NerEntity>)
    ensures SpliceAll(s, [e] + rest) == SpliceAll(Splice(s, e), rest)
  {
    assert ([e] + rest)[0] == e && ([e] + rest)[1..] == rest;
  }

  lemma SpansFirst(pieces: seq<Piece>, init: seq<Piece>, p: Piece)
    requires pieces != [] && init == pieces[..|pieces| - 1] && p == pieces[|pieces| - 1]
    ensures Spans(pieces) == [SpanOf(Source(init), p)] + Spans(init)
  {
  }

  lemma MaskedStep(pieces: seq<Piece>, init: seq<Piece>, p: Piece, tail: String)
    requires pieces != [] && init == pieces[..|pieces| - 1] && p == pieces[|pieces| - 1]
    ensures Masked(init) + (p.gap + Placeholder(p.kind) + tail) == Masked(pieces) + tail
  {
    var m := Masked(init);
    var ph := Placeholder(p.kind);
    AppendAssoc(p.gap, ph, tail);
    AppendAssoc(m, p.gap, ph + tail);
    AppendAssoc(m + p.gap, ph, tail);
  }

  lemma {:induction false} SpliceSpans(pieces: seq<Piece>, tail: String)
    ensures SpliceAll(Source(pieces) + tail, Spans(pieces)) == Masked(pieces) + tail
  {
    if pieces != [] {
      var init, p := pieces[..|pieces| - 1], pieces[|pieces| - 1];
      SpliceSpansStep(pieces, init, p, tail);
      SpliceSpans(init, p.gap + Placeholder(p.kind) + tail);
      MaskedStep(pieces, init, p, tail);
    }
  }

  /**
   * In-bounds, non-overlapping spans, listed last span first: each span
   * becomes its placeholder and the text around the spans is kept, in order.
   */
  lemma ReplacedLayout(pieces: seq<Piece>, tail: String)
    ensures Replaced(Source(pieces) + tail, Spans(pieces)) == Masked(pieces) + tail
  {
    SpansInside(pieces);
    SortDescSorted(Spans(pieces));
    SpliceSpans(pieces, tail);
  }

  /** The same with the entities in ascending order, as a detector finds them, when no span is empty. */
  lemma ReplacedLayoutAscending(pieces: seq<Piece>, tail: String)
    requires forall k :: 0 <= k < |pieces| ==> pieces[k].span != []
    ensures Replaced(Source(pieces) + tail, Reverse(Spans(pieces))) == Masked(pieces) + tail
  {
    var es := Spans(pieces);
    SpansStrict(pieces);
    var asc := Reverse(es);
    ReverseAscending(es);
    SortDescAscending(asc);
    assert Reverse(asc) == es;
    SpliceSpans(pieces, tail);
  }

  /**
   * In-bounds spans with text in them, listed in any order: `replace_spans`
   * sorts them last span first, so the layout result holds whatever the order.
   */
  lemma ReplacedLayoutAnyOrder(pieces: seq<Piece>, tail: String, es: seq<NerEntity>)
    requires forall k :: 0 <= k < |pieces| ==> pieces[k].span != []
    requires multiset(es) == multiset(Spans(pieces))
    ensures Replaced(Source(pieces) + tail, es) == Masked(pieces) + tail
  {
    SpansStrict(pieces);
    DescendingUnique(SortDesc(es), Spans(pieces));
    SpliceSpans(pieces, tail);
  }

  /** A descending list holding the same entities as a list of strictly decreasing starts is that list. */
  lemma {:induction false} DescendingUnique(r: seq<NerEntity>, s: seq<NerEntity>)
    requires Descending(r) && multiset(r) == multiset(s)
    requires forall i, j :: 0 <= i < j < |s| ==> s[i].start > s[j].start
    ensures r == s
  {
    assert |r| == |multiset(r)| == |multiset(s)| == |s|;
    if s != [] {
      LastOfDescending(r, s);
      InitMultiset(r, s);
      DescendingInit(r);
      DescendingUnique(r[..|r| - 1], s[..|s| - 1]);
      InitLast(r);
      InitLast(s);
    }
  }

  /** Lists with the same entities and the same last entity agree on the rest. */
  lemma InitMultiset(r: seq<NerEntity>, s: seq<NerEntity>)
    requires multiset(r) == multiset(s) && |r| == |s| > 0 && r[|r| - 1] == s[|s| - 1]
    ensures multiset(r[..|r| - 1]) == multiset(s[..|s| - 1])
  {
    var x := r[|r| - 1];
    InitLast(r);
    InitLast(s);
    assert multiset(r) == multiset(r[..|r| - 1]) + multiset{x};
    assert multiset(s) == multiset(s[..|s| - 1]) + multiset{x};
    assert multiset(r[..|r| - 1]) == multiset(r) - multiset{x};
    assert multiset(s[..|s| - 1]) == multiset(s) - multiset{x};
  }

  /** The last entities agree: the one with the least start is the same in both lists. */
  lemma LastOfDescending(r: seq<NerEntity>, s: seq<NerEntity>)
    requires Descending(r) && multiset(r) == multiset(s) && |r| == |s| > 0
    requires forall i, j :: 0 <= i < j < |s| ==> s[i].start > s[j].start
    ensures r[|r| - 1] == s[|s| - 1]
  {
    var n := |s|;
    var x, y := r[n - 1], s[n - 1];
    assert x in multiset(s);
    var k :| 0 <= k < n && s[k] == x;
    assert y in multiset(r);
    var m :| 0 <= m < n && r[m] == y;
    assert y.start >= x.start;
  }

  lemma ReverseAscending(es: seq<NerEntity>)
    requires forall i, j :: 0 <= i < j < |es| ==> es[i].start > es[j].start
    ensures StrictlyAscending(Reverse(es))
  {
    var asc := Reverse(es);
    forall i, j | 0 <= i < j < |asc|
      ensures asc[i].start < asc[j].start
    {
      assert asc[i] == es[|es| - 1 - i] && asc[j] == es[|es| - 1 - j];
    }
  }

  /** With non-empty spans the entities start strictly further left one after another. */
  lemma {:induction false} SpansStrict(pieces: seq<Piece>)
    requires forall k :: 0 <= k < |pieces| ==> pieces[k].span != []
    ensures var es := Spans(pieces); forall i, j :: 0 <= i < j < |es| ==> es[i].start > es[j].start
  {
    if pieces != [] {
      var init := pieces[..|pieces| - 1];
      SpansStrict(init);
      SpansFirst(pieces, init, pieces[|pieces| - 1]);
      SpansInside(init);
      if init != [] {
        var q := init[|init| - 1];
        assert Source(init) == Source(init[..|init| - 1]) + q.gap + q.span;
        assert Spans(init)[0].start < |Source(init)|;
      }
    }
  }

  // ------------------------------------------------- anonymize_text_full

  /** One line: a blank line is kept, any other has its detected spans replaced. */
  function AnonymizeLine(line: String, detect: String -> seq<NerEntity>): String {
    if Strip(line) == [] then line else Replaced(line, detect(line))
  }

  function AnonymizeLines(lines: seq<String>, detect: String -> seq<NerEntity>): (r: seq<String>)
    ensures |r| == |lines|
    ensures forall k :: 0 <= k < |lines| ==> r[k] == AnonymizeLine(lines[k], detect)
  {
    seq(|lines|, k requires 0 <= k < |lines| => AnonymizeLine(lines[k], detect))
  }

  /** `anonymize_text_full`: each line with its ending, anonymized, joined back. */
  function AnonymizeText(text: String, detect: String -> seq<NerEntity>): (r: String)
    ensures text == [] ==> r == text
  {
    var lines := SplitLinesKeepEnds(text);
    if lines == [] then text else Concat(AnonymizeLines(lines, detect))
  }

  /** The body of the line loop: a blank line is kept, any other is masked. */
  method AnonymizeLineAt(line: String, detect: String -> seq<NerEntity>) returns (r: String)
    ensures r == AnonymizeLine(line, detect)
  {
    r := line;
    if Strip(line) != [] {
      r := ReplaceSpans(line, detect(line));
    }
  }

  method AnonymizeTextFull(text: String, detect: String -> seq<NerEntity>) returns (r: String)
    ensures r == AnonymizeText(text, detect)
  {
    var lines := SplitLinesKeepEnds(text);
    if lines == [] {
      return text;
    }
    ghost var original := lines;
    var idx := 0;
    while idx < |lines|
      invariant 0 <= idx <= |lines| == |original|
      invariant forall k :: 0 <= k < idx ==> lines[k] == AnonymizeLine(original[k], detect)
      invariant forall k :: idx <= k < |lines| ==> lines[k] == original[k]
    {
      var line := AnonymizeLineAt(lines[idx], detect);
      lines := lines[idx := line];
      idx := idx + 1;
    }
    MaskedLines(text, detect, lines);
    r := Concat(lines);
  }

  /** Once every line is masked, joining them gives the anonymized text. */
  lemma MaskedLines(text: String, detect: String -> seq<NerEntity>, masked: seq<String>)
    requires SplitLinesKeepEnds(text) != [] && |masked| == |SplitLinesKeepEnds(text)|
    requires forall k :: 0 <= k < |masked| ==> masked[k] == AnonymizeLine(SplitLinesKeepEnds(text)[k], detect)
    ensures Concat(masked) == AnonymizeText(text, detect)
  {
    assert masked == AnonymizeLines(SplitLinesKeepEnds(text), detect);
  }

  /** A detector that finds nothing leaves every text as it was. */
  lemma QuietDetector(text: String, detect: String -> seq<NerEntity>)
    requires forall s :: detect(s) == []
    ensures AnonymizeText(text, detect) == text
  {
    var lines := SplitLinesKeepEnds(text);
    assert AnonymizeLines(lines, detect) == lines;
  }

  /** A text of whitespace only is left as it was, whatever the detector says. */
  lemma BlankTextKept(text: String, detect: String -> seq<NerEntity>)
    requires IsBlank(text)
    ensures AnonymizeText(text, detect) == text
  {
    var lines := SplitLinesKeepEnds(text);
    forall k | 0 <= k < |lines|
      ensures Strip(lines[k]) == []
    {
      ConcatPieceBlank(lines, k);
      StripEmpty(lines[k]);
    }
    assert AnonymizeLines(lines, detect) == lines;
  }

  lemma {:induction false} ConcatPieceBlank(parts: seq<String>, k: nat)
    requires k < |parts|
    requires IsBlank(Concat(parts))
    ensures IsBlank(parts[k])
  {
    assert Concat(parts) == parts[0] + Concat(parts[1..]);
    if k > 0 {
      forall i | 0 <= i < |Concat(parts[1..])|
        ensures IsSpace(Concat(parts[1..])[i])
      {
        assert Concat(parts[1..])[i] == Concat(parts)[|parts[0]| + i];
      }
      ConcatPieceBlank(parts[1..], k - 1);
    } else {
      forall i | 0 <= i < |parts[0]|
        ensures IsSpace(parts[0][i])
      {
        assert parts[0][i] == Concat(parts)[i];
      }
    }
  }

  // -------------------------------------------------------- to_entities

  /** One item of the recogniser's raw output; a missing key is `None`. */
  datatype RawItem = RawItem(entityGroup: Option<String>, entity: Option<String>, start: Option<int>, end: Option<int>)

  /** `entity_group`, else `entity`, else empty (an empty value counts as missing), upper-cased. */
  function RawLabel(item: RawItem): String {
    var l :=
      if item.entityGroup.Some? && item.entityGroup.value != [] then item.entityGroup.value
      else if item.entity.Some? && item.entity.value != [] then item.entity.value
      else [];
    Upper(l)
  }

  function RawStart(item: RawItem): int {
    if item.start.Some? then item.start.value else -1
  }

  function RawEnd(item: RawItem): int {
    if item.end.Some? then item.end.value else -1
  }

  predicate IsNameLabel(kind: String) {
    Contains(kind, "PER") || Contains(kind, "PERSON") || Contains(kind, "NAME")
  }

  /** The entity an item gives, shifted by the chunk offset, or nothing. */
  function ItemEntity(item: RawItem, offset: int): (r: Option<NerEntity>)
    ensures r.Some? <==>
      0 <= RawStart(item) < RawEnd(item) && (IsNameLabel(RawLabel(item)) || Contains(RawLabel(item), "ORG"))
    ensures r.Some? ==>
      r.value.start == RawStart(item) + offset && r.value.end == RawEnd(item) + offset &&
      (r.value.kind == "NAME" <==> IsNameLabel(RawLabel(item))) &&
      (r.value.kind == "NAME" || r.value.kind == "ORG")
  {
    var kind := RawLabel(item);
    var start := RawStart(item);
    var end := RawEnd(item);
    if start < 0 || end <= start then None
    else if IsNameLabel(kind) then Some(NerEntity(start + offset, end + offset, "NAME"))
    else if Contains(kind, "ORG") then Some(NerEntity(start + offset, end + offset, "ORG"))
    else None
  }

  predicate WellFormed(e: NerEntity, offset: int) {
    e.start >= offset && e.end > e.start && (e.kind == "NAME" || e.kind == "ORG")
  }

  /** `to_entities`: the entities of the items that give one, in item order. */
  function ToEntitiesOf(items: seq<RawItem>, offset: int): (r: seq<NerEntity>)
    ensures |r| <= |items|
    ensures forall k :: 0 <= k < |r| ==> WellFormed(r[k], offset)
  {
    if items == [] then []
    else
      var init := ToEntitiesOf(items[..|items| - 1], offset);
      match ItemEntity(items[|items| - 1], offset)
      case None => init
      case Some(e) => init + [e]
  }

  method ToEntities(items: seq<RawItem>, offset: int) returns (entities: seq<NerEntity>)
    ensures entities == ToEntitiesOf(items, offset)
  {
    entities := [];
    var i := 0;
    while i < |items|
      invariant 0 <= i <= |items|
      invariant entities == ToEntitiesOf(items[..i], offset)
    {
      var item := items[i];
      var kind := RawLabel(item);
      var start := RawStart(item);
      var end := RawEnd(item);
      ToEntitiesStep(items, offset, i);
      ItemEntityCases(item, offset, kind, start, end);
      i := i + 1;
      if start < 0 || end <= start {
        continue;
      }
      if IsNameLabel(kind) {
        entities := entities + [NerEntity(start + offset, end + offset, "NAME")];
      } else if Contains(kind, "ORG") {
        entities := entities + [NerEntity(start + offset, end + offset, "ORG")];
      }
    }
    assert items[..|items|] == items;
  }

  /** The entity of an item, by the same tests `to_entities` makes on its label and offsets. */
  lemma ItemEntityCases(item: RawItem, offset: int, kind: String, start: int, end: int)
    requires kind == RawLabel(item) && start == RawStart(item) && end == RawEnd(item)
    ensures start < 0 || end <= start ==> ItemEntity(item, offset).None?
    ensures !(start < 0 || end <= start) && IsNameLabel(kind) ==>
      ItemEntity(item, offset) == Some(NerEntity(start + offset, end + offset, "NAME"))
    ensures !(start < 0 || end <= start) && !IsNameLabel(kind) && Contains(kind, "ORG") ==>
      ItemEntity(item, offset) == Some(NerEntity(start + offset, end + offset, "ORG"))
    ensures !(start < 0 || end <= start) && !IsNameLabel(kind) && !Contains(kind, "ORG") ==>
      ItemEntity(item, offset).None?
  {
  }

  /** One more item adds its entity, if it gives one, to the entities of the items before it. */
  lemma ToEntitiesStep(items: seq<RawItem>, offset: int, i: nat)
    requires i < |items|
    ensures var e := ItemEntity(items[i], offset);
      ToEntitiesOf(items[..i + 1], offset) ==
        if e.Some? then ToEntitiesOf(items[..i], offset) + [e.value] else ToEntitiesOf(items[..i], offset)
  {
    assert items[..i + 1][..i] == items[..i];
    assert items[..i + 1][i] == items[i];
  }

  // ------------------------------------------------------------- detect

  /** The chunks `[start, min(start + size, n))` from `start` on. */
  function Chunks(n: nat, size: nat, start: nat): (r: seq<(nat, nat)>)
    requires size > 0 && start <= n
    ensures forall k :: 0 <= k < |r| ==> start <= r[k].0 < r[k].1 <= n
    decreases n - start
  {
    if start == n then []
    else
      var end := if start + size < n then start + size else n;
      [(start, end)] + Chunks(n, size, end)
  }

  /** The chunks run from `start` to `n`, and there are none exactly when nothing is left. */
  lemma {:induction false} ChunksEnds(n: nat, size: nat, start: nat)
    requires size > 0 && start <= n
    ensures var r := Chunks(n, size, start);
      && (r == [] <==> start == n)
      && (r != [] ==> r[0].0 == start && r[|r| - 1].1 == n)
    decreases n - start
  {
    if start < n {
      var end := if start + size < n then start + size else n;
      ChunksEnds(n, size, end);
      var rest := Chunks(n, size, end);
      var r := Chunks(n, size, start);
      assert r == [(start, end)] + rest;
      assert r[|r| - 1] == if rest == [] then (start, end) else rest[|rest| - 1];
    }
  }

  /** Chunk `k` is at most the chunk size long, and exactly that long and followed without a gap when it is not the last. */
  lemma {:induction false} ChunkAt(n: nat, size: nat, start: nat, k: nat)
    requires size > 0 && start <= n && k < |Chunks(n, size, start)|
    ensures var r := Chunks(n, size, start);
      && r[k].1 - r[k].0 <= size
      && (k + 1 < |r| ==> r[k].1 == r[k + 1].0 && r[k].1 - r[k].0 == size)
    decreases n - start
  {
    var end := if start + size < n then start + size else n;
    var rest := Chunks(n, size, end);
    var r := Chunks(n, size, start);
    assert r == [(start, end)] + rest;
    if k == 0 {
      if 1 < |r| {
        ChunksEnds(n, size, end);
      }
    } else {
      ChunkAt(n, size, end, k - 1);
      assert r[k] == rest[k - 1];
      if k + 1 < |r| {
        assert r[k + 1] == rest[k];
      }
    }
  }

  /** The entities of each chunk, shifted to text positions, chunk after chunk. */
  function ChunkEntities(nlp: String -> seq<RawItem>, text: String, chunks: seq<(nat, nat)>): (r: seq<NerEntity>)
    requires forall k :: 0 <= k < |chunks| ==> chunks[k].0 <= chunks[k].1 <= |text|
    ensures forall k :: 0 <= k < |r| ==> WellFormed(r[k], 0)
  {
    if chunks == [] then []
    else
      var c := chunks[0];
      ToEntitiesOf(nlp(text[c.0..c.1]), c.0) + ChunkEntities(nlp, text, chunks[1..])
  }

  /**
   * `detect`: nothing for the empty text, one call for a text that fits a
   * chunk, otherwise one call per chunk. A positive chunk size is needed
   * for the chunk loop to end.
   */
  function DetectOf(nlp: String -> seq<RawItem>, text: String, size: int): (r: seq<NerEntity>)
    requires text == [] || size > 0
    ensures forall k :: 0 <= k < |r| ==> WellFormed(r[k], 0)
  {
    if text == [] then []
    else if |text| <= size then ToEntitiesOf(nlp(text), 0)
    else ChunkEntities(nlp, text, Chunks(|text|, size, 0))
  }

  /** The one-call shortcut finds what the chunk loop would have found. */
  lemma DetectIsChunked(nlp: String -> seq<RawItem>, text: String, size: int)
    requires text != [] && size > 0
    ensures DetectOf(nlp, text, size) == ChunkEntities(nlp, text, Chunks(|text|, size, 0))
  {
    if |text| <= size {
      var chunks := Chunks(|text|, size, 0);
      assert Chunks(|text|, size, |text|) == [];
      assert chunks == [(0, |text|)];
      assert text[0..|text|] == text;
      assert ChunkEntities(nlp, text, chunks[1..]) == [];
    }
  }

  lemma ChunkStep(nlp: String -> seq<RawItem>, text: String, size: nat, start: nat)
    requires size > 0 && start < |text|
    ensures var end := if start + size < |text| then start + size else |text|;
      ChunkEntities(nlp, text, Chunks(|text|, size, start))
      == ToEntitiesOf(nlp(text[start..end]), start) + ChunkEntities(nlp, text, Chunks(|text|, size, end))
  {
    var end := if start + size < |text| then start + size else |text|;
    assert Chunks(|text|, size, start) == [(start, end)] + Chunks(|text|, size, end);
  }

  /** The body of the chunk loop: the next chunk's entities added, the start moved to its end. */
  method DetectChunk(nlp: String -> seq<RawItem>, text: String, size: int, start: nat, entities: seq<NerEntity>)
    returns (entities': seq<NerEntity>, end: nat)
    requires size > 0 && start < |text|
    ensures start < end <= |text|
    ensures entities' + ChunkEntities(nlp, text, Chunks(|text|, size, end))
         == entities + ChunkEntities(nlp, text, Chunks(|text|, size, start))
  {
    end := if start + size < |text| then start + size else |text|;
    var chunk := text[start..end];
    var found := ToEntities(nlp(chunk), start);
    ChunkStep(nlp, text, size, start);
    AppendAssoc(entities, found, ChunkEntities(nlp, text, Chunks(|text|, size, end)));
    entities' := entities + found;
  }

  method Detect(nlp: String -> seq<RawItem>, text: String, size: int) returns (entities: seq<NerEntity>)
    requires text == [] || size > 0
    ensures entities == DetectOf(nlp, text, size)
  {
    if text == [] {
      return [];
    }
    if |text| <= size {
      entities := ToEntities(nlp(text), 0);
      return;
    }
    entities := [];
    var start := 0;
    while start < |text|
      invariant 0 <= start <= |text|
      invariant entities + ChunkEntities(nlp, text, Chunks(|text|, size, start))
             == ChunkEntities(nlp, text, Chunks(|text|, size, 0))
      decreases |text| - start
    {
      entities, start := DetectChunk(nlp, text, size, start, entities);
    }
    DetectDone(nlp, text, size, entities);
  }

  /** Once the start reaches the end, the entities collected are all of them. */
  lemma DetectDone(nlp: String -> seq<RawItem>, text: String, size: int, entities: seq<NerEntity>)
    requires |text| > size > 0
    requires entities + ChunkEntities(nlp, text, Chunks(|text|, size, |text|))
          == ChunkEntities(nlp, text, Chunks(|text|, size, 0))
    ensures entities == DetectOf(nlp, text, size)
  {
    assert Chunks(|text|, size, |text|) == [];
    assert entities + [] == entities;
  }

  // ------------------------------------------------------- process_file

  /**
   * `process_file` without the write: the new stem and text, and whether
   * each changed.
   */
  method ProcessFile(stem: String, original: String, detect: String -> seq<NerEntity>)
    returns (renamed: bool, contentChanged: bool, newStem: String, updated: String)
    ensures newStem == Replaced(stem, detect(stem))
    ensures updated == AnonymizeText(original, detect)
    ensures renamed <==> newStem != stem
    ensures contentChanged <==> updated != original
  {
    newStem := ReplaceSpans(stem, detect(stem));
    renamed := newStem != stem;
    updated := AnonymizeTextFull(original, detect);
    contentChanged := updated != original;
  }

  /** Nothing detected: neither the name nor the content changes. */
  lemma NothingDetected(stem: String, original: String, detect: String -> seq<NerEntity>)
    requires forall s :: detect(s) == []
    ensures Replaced(stem, detect(stem)) == stem
    ensures AnonymizeText(original, detect) == original
  {
    QuietDetector(original, detect);
  }
}
