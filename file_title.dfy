/**
 * The dialogue file-name grammar of `_parse_file_title` in
 * `build_dataset_adult.py`: a leading list of patient ids separated by
 * full-width commas, then a title that is read as name, gender and age,
 * as name and gender, or as a bare name, in that order.
 *
 * The two regular expressions are written out with the backtracking the
 * Python engine performs: the greedy id list gives back a digit (or its
 * last `，`-run) when nothing is left for the title, and the name is the
 * shortest prefix after which the rest of the title matches.
 */
module FileTitle {
  import opened Text

  // ------------------------------------------------------------- id list

  /** The greedy `(?:，\d+)*`: the digit runs taken, one per `，` followed by a digit. */
  function MoreRuns(s: String): (r: seq<String>)
    ensures DigitRuns(r)
    decreases |s|
  {
    if |s| > 0 && s[0] == '，' && DigitRun(s[1..]) > 0 then
      var n := DigitRun(s[1..]);
      assert s[1..1 + n] == s[1..][..n];
      [s[1..1 + n]] + MoreRuns(s[1 + n..])
    else []
  }

  /** The characters the runs take, a `，` before each. */
  function RunsLength(runs: seq<String>): nat
    decreases |runs|
  {
    if |runs| == 0 then 0 else 1 + |runs[0]| + RunsLength(runs[1..])
  }

  lemma {:induction false} MoreRunsFit(s: String)
    ensures RunsLength(MoreRuns(s)) <= |s|
    decreases |s|
  {
    if |s| > 0 && s[0] == '，' && DigitRun(s[1..]) > 0 {
      var n := DigitRun(s[1..]);
      MoreRunsFit(s[1 + n..]);
    }
  }

  /** Where `^(\d+(?:，\d+)*)\s*(.+)$` leaves the id runs and the title, before trimming. */
  datatype Split = Split(runs: seq<String>, title: String)

  function Last<T>(xs: seq<T>): T
    requires |xs| > 0
  {
    xs[|xs| - 1]
  }

  /**
   * The match of `^(\d+(?:，\d+)*)\s*(.+)$`, None when there is none.
   * The greedy id list and whitespace run are taken first; when no
   * character is left for `(.+)`, the whitespace gives one back, else the
   * last digit run gives back its last digit, else the last `，`-run is
   * given back whole.
   */
  function SplitStem(stem: String): (r: Option<Split>)
    ensures r.Some? ==> |r.value.runs| > 0 && r.value.title != []
    ensures r.Some? ==> DigitRuns(r.value.runs)
  {
    var d := DigitRun(stem);
    if d == 0 then None else SplitIdTail(stem[..d], stem[d..])
  }

  /** The split once the first digit run `first` is read, `tail` being the text after it. */
  function SplitIdTail(first: String, tail: String): (r: Option<Split>)
    requires first != [] && AllDigits(first)
    ensures r.Some? ==> |r.value.runs| > 0 && r.value.title != []
    ensures r.Some? ==> DigitRuns(r.value.runs)
  {
    var more := MoreRuns(tail);
    MoreRunsFit(tail);
    RunsDigits(first, more);
    SplitRest([first] + more, tail[RunsLength(more)..])
  }

  /** Every run is a non-empty run of digits. */
  predicate DigitRuns(runs: seq<String>) {
    forall k :: 0 <= k < |runs| ==> runs[k] != [] && AllDigits(runs[k])
  }

  /** A run of digits followed by runs of digits are all runs of digits. */
  lemma RunsDigits(first: String, more: seq<String>)
    requires first != [] && AllDigits(first)
    requires DigitRuns(more)
    ensures DigitRuns([first] + more)
  {
    var runs := [first] + more;
    forall k | 0 <= k < |runs| ensures runs[k] != [] && AllDigits(runs[k]) {
      if k > 0 { assert runs[k] == more[k - 1]; }
    }
  }

  /** `\s*(.+)$` after the greedy id list `runs`, giving back what `(.+)` needs. */
  function SplitRest(runs: seq<String>, rest: String): (r: Option<Split>)
    requires |runs| > 0
    ensures r.Some? ==> |r.value.runs| > 0 && r.value.title != []
    ensures r.Some? && DigitRuns(runs) ==> DigitRuns(r.value.runs)
  {
    var w := SpaceRun(rest);
    if w < |rest| then Some(Split(runs, rest[w..]))
    else if w > 0 then Some(Split(runs, rest[w - 1..]))
    else GiveBack(runs)
  }

  /** Nothing left for `(.+)`: the id list gives back its last digit, or else its last `，`-run. */
  function GiveBack(runs: seq<String>): (r: Option<Split>)
    requires |runs| > 0
    ensures r.Some? ==> |r.value.runs| > 0 && r.value.title != []
    ensures r.Some? && DigitRuns(runs) ==> DigitRuns(r.value.runs)
  {
    var last := Last(runs);
    if |last| > 1 then
      var head := last[..|last| - 1];
      assert AllDigits(last) ==> AllDigits(head) by {
        if AllDigits(last) {
          forall j | 0 <= j < |head| ensures IsDigit(head[j]) { assert head[j] == last[j]; }
        }
      }
      Some(Split(runs[..|runs| - 1] + [head], [last[|last| - 1]]))
    else if |runs| > 1 then Some(Split(runs[..|runs| - 1], "，" + last))
    else None
  }

  // --------------------------------------------------------------- title

  predicate IsGender(c: char) { c == '男' || c == '女' }

  /** `\s+(男|女)\s+(\d+)\s*岁?$` at the start of `s`: the gender and the age. */
  function FixedSuffix(s: String): (r: Option<(String, nat)>)
    ensures r.Some? ==> |s| > 0 && IsSpace(s[0])
  {
    var a := SpaceRun(s);
    if a == 0 || a >= |s| || !IsGender(s[a]) then None
    else
      var t := s[a + 1..];
      var b := SpaceRun(t);
      var u := t[b..];
      var n := DigitRun(u);
      var v := u[n..];
      var end := v[SpaceRun(v)..];
      if b > 0 && n > 0 && (end == [] || end == "岁") then Some(([s[a]], ParseNat(u[..n]))) else None
  }

  /** `\s+(男|女)\s*$` at the start of `s`: the gender. */
  function GenderSuffix(s: String): (r: Option<String>)
    ensures r.Some? ==> |s| > 0 && IsSpace(s[0])
  {
    var a := SpaceRun(s);
    if a == 0 || a >= |s| || !IsGender(s[a]) || !IsBlank(s[a + 1..]) then None
    else Some([s[a]])
  }

  /** The lazy `(.+?)` before a suffix: the first split point from `i` on, at least one character in. */
  function LazySplit<T>(s: String, i: nat, suffix: String -> Option<T>): (r: Option<(nat, T)>)
    requires 1 <= i <= |s|
    ensures r.Some? ==> i <= r.value.0 < |s| && suffix(s[r.value.0..]) == Some(r.value.1)
    ensures r.Some? ==> forall j :: i <= j < r.value.0 ==> suffix(s[j..]).None?
    decreases |s| - i
  {
    if i == |s| then None
    else match suffix(s[i..])
      case Some(x) => Some((i, x))
      case None => LazySplit(s, i + 1, suffix)
  }

  /** What the title says: the trimmed title, the name, and the gender and age when they are given. */
  datatype Meta = Meta(titleRaw: String, name: String, gender: Option<String>, age: Option<nat>)

  /** The title read as name+gender+age, else name+gender, else a bare name. */
  function ReadTitle(tail: String): (m: Meta)
    ensures m.titleRaw == tail
    ensures m.age.Some? ==> m.gender.Some?
  {
    if tail == [] then Meta(tail, tail, None, None)
    else match LazySplit(tail, 1, FixedSuffix)
      case Some((i, ga)) => Meta(tail, Strip(tail[..i]), Some(ga.0), Some(ga.1))
      case None =>
        match LazySplit(tail, 1, GenderSuffix)
        case Some((i, g)) => Meta(tail, Strip(tail[..i]), Some(g), None)
        case None => Meta(tail, tail, None, None)
  }

  /** The ids, in file-name order. */
  function Ids(runs: seq<String>): (ids: seq<nat>)
    requires forall k :: 0 <= k < |runs| ==> AllDigits(runs[k])
    ensures |ids| == |runs|
    decreases |runs|
  {
    if |runs| == 0 then [] else [ParseNat(runs[0])] + Ids(runs[1..])
  }

  /**
   * `_parse_file_title`: the ids and the title metadata, or None where the
   * Python code raises ValueError.  The ids are `int` of the pieces of the
   * id list split at `，`, which are exactly its digit runs.
   */
  function ParseFileTitle(stem: String): (r: Option<(seq<nat>, Meta)>)
    ensures r.Some? ==> |r.value.0| > 0
  {
    match SplitStem(stem)
    case None => None
    case Some(sp) => Some((Ids(sp.runs), ReadTitle(Strip(sp.title))))
  }

  // -------------------------------------------------------------- lemmas

  /** The parse reads the ids and the title of the split it is given. */
  lemma ParseOfSplit(stem: String, sp: Split)
    requires SplitStem(stem) == Some(sp)
    ensures ParseFileTitle(stem) == Some((Ids(sp.runs), ReadTitle(Strip(sp.title))))
  {
  }

  /** A stem is accepted exactly when it starts with a digit and has a second character. */
  lemma TitleAccepted(stem: String)
    ensures ParseFileTitle(stem).Some? <==> |stem| >= 2 && IsDigit(stem[0])
  {
    var d := DigitRun(stem);
    if d > 0 {
      MoreRunsFit(stem[d..]);
      var more := MoreRuns(stem[d..]);
      var rest := stem[d + RunsLength(more)..];
      if |stem| >= 2 && rest == [] && d == 1 {
        assert RunsLength(more) > 0;
        assert |more| > 0;
      }
    }
  }

  /** Predicates over the title alone. */
  predicate NoSpace(s: String) {
    forall i :: 0 <= i < |s| ==> !IsSpace(s[i])
  }

  /** Positions where the suffix does not match are skipped by the lazy split. */
  lemma {:induction false} LazySkipRun<T>(s: String, i: nat, k: nat, suffix: String -> Option<T>)
    requires 1 <= i <= k <= |s|
    requires forall j :: i <= j < k ==> suffix(s[j..]).None?
    ensures LazySplit(s, i, suffix) == LazySplit(s, k, suffix)
    decreases k - i
  {
    if i < k {
      LazySkipRun(s, i + 1, k, suffix);
    }
  }

  /** Neither suffix can start on a non-space character. */
  lemma NoFixedSuffixAt(t: String, c: char)
    requires |t| > 0 && t[0] == c && !IsSpace(c)
    ensures FixedSuffix(t).None?
  {
  }

  lemma NoGenderSuffixAt(t: String, c: char)
    requires |t| > 0 && t[0] == c && !IsSpace(c)
    ensures GenderSuffix(t).None?
  {
  }

  lemma FixedSkip(s: String, i: nat, k: nat)
    requires 1 <= i <= k <= |s|
    requires forall j :: i <= j < k ==> !IsSpace(s[j])
    ensures LazySplit(s, i, FixedSuffix) == LazySplit(s, k, FixedSuffix)
  {
    forall j | i <= j < k
      ensures FixedSuffix(s[j..]).None?
    {
      NoFixedSuffixAt(s[j..], s[j]);
    }
    LazySkipRun(s, i, k, FixedSuffix);
  }

  lemma GenderSkip(s: String, i: nat, k: nat)
    requires 1 <= i <= k <= |s|
    requires forall j :: i <= j < k ==> !IsSpace(s[j])
    ensures LazySplit(s, i, GenderSuffix) == LazySplit(s, k, GenderSuffix)
  {
    forall j | i <= j < k
      ensures GenderSuffix(s[j..]).None?
    {
      NoGenderSuffixAt(s[j..], s[j]);
    }
    LazySkipRun(s, i, k, GenderSuffix);
  }

  /** A title without whitespace is a bare name: no gender, no age. */
  lemma BareTitle(name: String)
    requires NoSpace(name)
    ensures ReadTitle(name) == Meta(name, name, None, None)
  {
    if name != [] {
      FixedSkip(name, 1, |name|);
      GenderSkip(name, 1, |name|);
    }
  }

  lemma FixedSuffixOf(g: char, age: nat)
    requires IsGender(g)
    ensures FixedSuffix(" " + [g] + " " + NatToString(age) + "岁") == Some(([g], age))
  {
    var ds := NatToString(age);
    var s := " " + [g] + " " + ds + "岁";
    SpaceRunOfBlankThen(" ", [g] + " " + ds + "岁");
    assert s == " " + ([g] + " " + ds + "岁");
    var t := s[2..];
    assert t == " " + (ds + "岁");
    SpaceRunOfBlankThen(" ", ds + "岁");
    var u := t[1..];
    assert u == ds + "岁";
    DigitRunOfDigitsThen(ds, "岁");
    assert u[..|ds|] == ds;
    assert u[|ds|..] == "岁";
    ParseNatToString(age);
  }

  /** `name 男 35岁` reads as name, gender and age when the name has no whitespace. */
  lemma FixedTitle(name: String, g: char, age: nat)
    requires name != [] && NoSpace(name) && IsGender(g)
    ensures var title := name + " " + [g] + " " + NatToString(age) + "岁";
      ReadTitle(title) == Meta(title, name, Some([g]), Some(age))
  {
    var suffix := " " + [g] + " " + NatToString(age) + "岁";
    var title := name + suffix;
    assert title == name + " " + [g] + " " + NatToString(age) + "岁";
    assert title[..|name|] == name;
    FixedSkip(title, 1, |name|);
    assert title[|name|..] == suffix;
    FixedSuffixOf(g, age);
    StripOfStripped(name);
  }

  lemma GenderSuffixOf(g: char)
    requires IsGender(g)
    ensures FixedSuffix(" " + [g]) == None
    ensures GenderSuffix(" " + [g]) == Some([g])
  {
    SpaceRunOfBlankThen(" ", [g]);
  }

  /** `name 男` reads as name and gender when the name has no whitespace. */
  lemma GenderTitle(name: String, g: char)
    requires name != [] && NoSpace(name) && IsGender(g)
    ensures ReadTitle(name + " " + [g]) == Meta(name + " " + [g], name, Some([g]), None)
  {
    var title := name + " " + [g];
    assert title[..|name|] == name;
    assert title[|name|..] == " " + [g];
    FixedSkip(title, 1, |name|);
    GenderSkip(title, 1, |name|);
    GenderSuffixOf(g);
    assert title[|name| + 1..] == [g];
    assert LazySplit(title, |name| + 1, FixedSuffix) == None;
    StripOfStripped(name);
  }

  lemma SingleRun(ds: String)
    ensures [ds] + [] == [ds]
  {
  }

  lemma SplitSingleId(ds: String, title: String)
    requires ds != [] && AllDigits(ds)
    requires title != [] && !IsDigit(title[0]) && title[0] != '，' && !IsSpace(title[0])
    ensures SplitStem(ds + title) == Some(Split([ds], title))
  {
    var stem := ds + title;
    DigitRunOfDigitsThen(ds, title);
    assert stem[..|ds|] == ds;
    assert stem[|ds|..] == title;
    assert MoreRuns(title) == [];
    SingleRun(ds);
    assert title[0..] == title;
  }

  /**
   * One id written out in decimal and a title that starts with neither a
   * digit, a `，` nor whitespace: the id comes back, and the title is read
   * after trimming.
   */
  lemma SingleIdStem(id: nat, title: String)
    requires title != [] && !IsDigit(title[0]) && title[0] != '，' && !IsSpace(title[0])
    ensures ParseFileTitle(NatToString(id) + title) == Some(([id], ReadTitle(Strip(title))))
  {
    SplitSingleId(NatToString(id), title);
    ParseNatToString(id);
    assert Ids([NatToString(id)]) == [id];
  }

  lemma TwoDigits(n: nat, tens: char, ones: char)
    requires 10 <= n < 100
    requires tens == DigitChar(n / 10) && ones == DigitChar(n % 10)
    ensures NatToString(n) == [tens, ones]
  {
  }

  /** The ids written in decimal, each after a `，`. */
  function MoreIdsText(ids: seq<nat>): String
    decreases |ids|
  {
    if |ids| == 0 then [] else "，" + NatToString(ids[0]) + MoreIdsText(ids[1..])
  }

  function Decimals(ids: seq<nat>): (r: seq<String>)
    ensures |r| == |ids|
    ensures DigitRuns(r)
    decreases |ids|
  {
    if |ids| == 0 then [] else [NatToString(ids[0])] + Decimals(ids[1..])
  }

  lemma MoreRunsStep(ds: String, rest: String)
    requires ds != [] && AllDigits(ds) && (rest == [] || !IsDigit(rest[0]))
    ensures MoreRuns("，" + ds + rest) == [ds] + MoreRuns(rest)
  {
    var s := "，" + ds + rest;
    assert s[1..] == ds + rest;
    DigitRunOfDigitsThen(ds, rest);
    assert s[1..1 + |ds|] == ds;
    assert s[1 + |ds|..] == rest;
  }

  lemma {:induction false} MoreRunsOfIds(ids: seq<nat>, title: String)
    requires title == [] || (title[0] != '，' && !IsDigit(title[0]))
    ensures MoreRuns(MoreIdsText(ids) + title) == Decimals(ids)
    decreases |ids|
  {
    if |ids| == 0 {
      assert MoreIdsText(ids) + title == title;
    } else {
      var ds := NatToString(ids[0]);
      var rest := MoreIdsText(ids[1..]) + title;
      assert MoreIdsText(ids) + title == "，" + ds + rest;
      MoreRunsOfIds(ids[1..], title);
      assert rest == [] || !IsDigit(rest[0]) by {
        if |ids| == 1 {
          assert rest == title;
        } else {
          assert rest[0] == '，';
        }
      }
      MoreRunsStep(ds, rest);
    }
  }

  lemma {:induction false} RunsLengthOfIds(ids: seq<nat>)
    ensures RunsLength(Decimals(ids)) == |MoreIdsText(ids)|
    decreases |ids|
  {
    if |ids| > 0 {
      RunsLengthOfIds(ids[1..]);
      ConsRuns(NatToString(ids[0]), Decimals(ids[1..]));
    }
  }

  lemma {:induction false} IdsOfDecimals(ids: seq<nat>)
    ensures Ids(Decimals(ids)) == ids
    decreases |ids|
  {
    if |ids| > 0 {
      ParseNatToString(ids[0]);
      IdsOfDecimals(ids[1..]);
      assert Decimals(ids)[1..] == Decimals(ids[1..]);
    }
  }

  lemma ConsRuns(d: String, more: seq<String>)
    ensures ([d] + more)[1..] == more
  {
  }

  /** A stem whose id list is followed by a non-space character splits right there. */
  lemma SplitAtTitle(stem: String, d: nat, more: seq<String>, rest: String)
    requires 0 < d == DigitRun(stem) && more == MoreRuns(stem[d..])
    requires d + RunsLength(more) <= |stem| && rest == stem[d + RunsLength(more)..]
    requires |rest| > 0 && !IsSpace(rest[0])
    ensures SplitStem(stem) == Some(Split([stem[..d]] + more, rest))
  {
    var tail := stem[d..];
    assert rest == tail[RunsLength(more)..];
    SplitIdTailRest(stem[..d], tail, more, rest);
    SplitRestAtTitle([stem[..d]] + more, rest);
  }

  /** After the first run, the split is made by the rest after the further runs. */
  lemma SplitIdTailRest(first: String, tail: String, more: seq<String>, rest: String)
    requires first != [] && AllDigits(first)
    requires more == MoreRuns(tail) && RunsLength(more) <= |tail| && rest == tail[RunsLength(more)..]
    ensures SplitIdTail(first, tail) == SplitRest([first] + more, rest)
  {
  }

  lemma SplitRestAtTitle(runs: seq<String>, rest: String)
    requires |runs| > 0
    requires |rest| > 0 && !IsSpace(rest[0])
    ensures SplitRest(runs, rest) == Some(Split(runs, rest))
  {
    assert SpaceRun(rest) == 0;
    assert rest[0..] == rest;
  }

  lemma SplitIdList(first: nat, more: seq<nat>, title: String)
    requires title != [] && !IsDigit(title[0]) && title[0] != '，' && !IsSpace(title[0])
    ensures SplitStem(NatToString(first) + MoreIdsText(more) + title) ==
      Some(Split([NatToString(first)] + Decimals(more), title))
  {
    var ds := NatToString(first);
    var tail := MoreIdsText(more) + title;
    var stem := ds + tail;
    assert stem == NatToString(first) + MoreIdsText(more) + title;
    MoreRunsOfIds(more, title);
    RunsLengthOfIds(more);
    assert tail == [] || !IsDigit(tail[0]);
    DigitRunOfDigitsThen(ds, tail);
    assert stem[..|ds|] == ds;
    assert stem[|ds|..] == tail;
    assert stem[|ds| + |MoreIdsText(more)|..] == title;
    SplitAtTitle(stem, |ds|, Decimals(more), title);
  }

  /**
   * Ids written in decimal and separated by `，`, then a title that starts
   * with neither a digit, a `，` nor whitespace: the ids come back in
   * order, and the title is read after trimming.
   */
  lemma IdListStem(first: nat, more: seq<nat>, title: String)
    requires title != [] && !IsDigit(title[0]) && title[0] != '，' && !IsSpace(title[0])
    ensures ParseFileTitle(NatToString(first) + MoreIdsText(more) + title) ==
      Some(([first] + more, ReadTitle(Strip(title))))
  {
    SplitIdList(first, more, title);
    ParseNatToString(first);
    IdsOfDecimals(more);
    ConsRuns(NatToString(first), Decimals(more));
  }

  lemma ExampleNames()
    ensures NoSpace("江凤敏") && NoSpace("王小明")
  {
  }

  lemma ExampleTitle()
    ensures "江凤敏 男 35岁" == "江凤敏" + " " + ['男'] + " " + NatToString(35) + "岁"
  {
    TwoDigits(35, '3', '5');
  }

  lemma ExampleStem()
    ensures "41江凤敏 男 35岁" == NatToString(41) + "江凤敏 男 35岁"
  {
    TwoDigits(41, '4', '1');
  }

  /** `41江凤敏 男 35岁`: id 41, name 江凤敏, gender 男, age 35. */
  lemma NameGenderAgeExample()
    ensures ParseFileTitle("41江凤敏 男 35岁") == Some(([41], Meta("江凤敏 男 35岁", "江凤敏", Some("男"), Some(35))))
  {
    ExampleStem();
    SingleIdStem(41, "江凤敏 男 35岁");
    StripOfStripped("江凤敏 男 35岁");
    ExampleTitle();
    ExampleNames();
    FixedTitle("江凤敏", '男', 35);
  }

  /** An id list followed by a bare name: the ids in order, and the name as the whole title. */
  lemma BareIdList(first: nat, more: seq<nat>, name: String)
    requires name != [] && NoSpace(name) && !IsDigit(name[0]) && name[0] != '，'
    ensures ParseFileTitle(NatToString(first) + MoreIdsText(more) + name) ==
      Some(([first] + more, Meta(name, name, None, None)))
  {
    IdListStem(first, more, name);
    StripOfStripped(name);
    BareTitle(name);
  }

  /**
   * `3，7王小明` is the id list 3, 7 followed by the bare name 王小明, so
   * `BareIdList` reads it as ids 3 and 7 and name 王小明.
   */
  lemma IdListExample()
    ensures "3，7王小明" == NatToString(3) + MoreIdsText([7]) + "王小明"
    ensures NoSpace("王小明") && !IsDigit('王') && '王' != '，'
  {
    assert NatToString(3) == "3" && NatToString(7) == "7";
    assert MoreIdsText([7]) == "，7" + MoreIdsText([]);
  }
}
