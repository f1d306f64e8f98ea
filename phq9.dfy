/**
 * PHQ-9 scoring shared by both spreadsheet readers: the severity bands, the
 * item number read from a column label, and the stable sort of item scores
 * by that number.
 */
module Phq9 {
  import opened Text
  import opened Table

  // ------------------------------------------------------------ severity

  /** `PHQ9_SEVERITY_THRESHOLDS`, in the order the dictionary lists them. */
  const Bands: seq<(int, int, String)> := [
    (0, 4, "Minimal"), (5, 9, "Mild"), (10, 14, "Moderate"),
    (15, 19, "Moderately severe"), (20, 27, "Severe")]

  /** The label of the first band holding `total`. */
  function BandOf(bands: seq<(int, int, String)>, total: int): (r: Option<String>)
    ensures r.None? <==> forall k :: 0 <= k < |bands| ==> !(bands[k].0 <= total <= bands[k].1)
    ensures r.Some? ==> exists k :: 0 <= k < |bands| && bands[k].0 <= total <= bands[k].1 && r.value == bands[k].2
  {
    if bands == [] then None
    else if bands[0].0 <= total <= bands[0].1 then Some(bands[0].2)
    else
      assert forall k :: 1 <= k < |bands| ==> bands[k] == bands[1..][k - 1];
      BandOf(bands[1..], total)
  }

  /** `_determine_severity`: the band, else "Invalid" below 0, "Severe" above 27, else "Unknown". */
  function Severity(total: int): (r: String)
    ensures total < 0 ==> r == "Invalid"
    ensures total > 27 ==> r == "Severe"
  {
    match BandOf(Bands, total)
    case Some(s) => s
    case None =>
      if total < 0 then "Invalid"
      else if total > 27 then "Severe"
      else "Unknown"
  }

  /** The bands cover 0..27 without gaps, so the last fallback is never taken. */
  lemma SeverityBands(total: int)
    ensures 0 <= total <= 4 ==> Severity(total) == "Minimal"
    ensures 5 <= total <= 9 ==> Severity(total) == "Mild"
    ensures 10 <= total <= 14 ==> Severity(total) == "Moderate"
    ensures 15 <= total <= 19 ==> Severity(total) == "Moderately severe"
    ensures 20 <= total ==> Severity(total) == "Severe"
    ensures Severity(total) != "Unknown"
  {
    if total < 0 {
    } else if total <= 4 {
      BandOfFirst(Bands, total, 0);
    } else if total <= 9 {
      BandOfFirst(Bands, total, 1);
    } else if total <= 14 {
      BandOfFirst(Bands, total, 2);
    } else if total <= 19 {
      BandOfFirst(Bands, total, 3);
    } else if total <= 27 {
      BandOfFirst(Bands, total, 4);
    }
  }

  /** The first band holding the total gives its label. */
  lemma {:induction false} BandOfFirst(bands: seq<(int, int, String)>, total: int, j: nat)
    requires j < |bands| && bands[j].0 <= total <= bands[j].1
    requires forall k :: 0 <= k < j ==> bands[k].1 < total
    ensures BandOf(bands, total) == Some(bands[j].2)
  {
    if j > 0 {
      assert bands[1..][j - 1] == bands[j];
      BandOfFirst(bands[1..], total, j - 1);
    }
  }

  /** The rank of a severity label, "Invalid" lowest. */
  function Rank(s: String): nat {
    if s == "Minimal" then 1
    else if s == "Mild" then 2
    else if s == "Moderate" then 3
    else if s == "Moderately severe" then 4
    else if s == "Severe" then 5
    else 0
  }

  /** A higher total never gets a milder label. */
  lemma SeverityMonotone(a: int, b: int)
    requires a <= b
    ensures Rank(Severity(a)) <= Rank(Severity(b))
  {
    SeverityBands(a);
    SeverityBands(b);
  }

  // --------------------------------------------------------- item number

  /** The index of the first ASCII digit, or `|s|` when there is none. */
  function FirstDigit(s: String): (i: nat)
    ensures i <= |s|
    ensures forall k :: 0 <= k < i ==> !IsDigit(s[k])
    ensures i < |s| ==> IsDigit(s[i])
  {
    if s == [] || IsDigit(s[0]) then 0 else 1 + FirstDigit(s[1..])
  }

  /** `re.findall(r'\d+', name)`'s first run as an integer, or 0 when there is none. */
  function ItemNumber(name: String): (r: nat)
    ensures (forall k :: 0 <= k < |name| ==> !IsDigit(name[k])) ==> r == 0
  {
    var i := FirstDigit(name);
    if i == |name| then 0
    else ParseNat(name[i..][..DigitRun(name[i..])])
  }

  /** A label whose first digits are those of `n` has item number `n`. */
  lemma ItemNumberOf(lead: String, n: nat, tail: String)
    requires forall k :: 0 <= k < |lead| ==> !IsDigit(lead[k])
    requires tail == [] || !IsDigit(tail[0])
    ensures ItemNumber(lead + NatToString(n) + tail) == n
  {
    var ds := NatToString(n);
    var name := lead + ds + tail;
    assert name == lead + (ds + tail);
    LeadWithoutDigits(lead, ds + tail);
    DigitRunOfDigitsThen(ds, tail);
    ItemNumberAt(name, |lead|, ds, tail);
    ParseNatToString(n);
  }

  /** The item number is the digit run found at the first digit. */
  lemma ItemNumberAt(name: String, i: nat, ds: String, tail: String)
    requires i <= |name| && FirstDigit(name) == i && name[i..] == ds + tail
    requires ds != [] && DigitRun(ds + tail) == |ds|
    ensures ItemNumber(name) == ParseNat(ds)
  {
    assert (ds + tail)[..|ds|] == ds;
  }

  /** Text without digits before a digit: the first digit is right after it. */
  lemma {:induction false} LeadWithoutDigits(lead: String, rest: String)
    requires forall k :: 0 <= k < |lead| ==> !IsDigit(lead[k])
    requires rest != [] && IsDigit(rest[0])
    ensures FirstDigit(lead + rest) == |lead|
  {
    if lead != [] {
      assert (lead + rest)[1..] == lead[1..] + rest;
      LeadWithoutDigits(lead[1..], rest);
    }
  }

  /** Every `phq9_<n>` column has item number 9: the digit of `phq9` comes first. */
  lemma PhqColumnNumber(suffix: String)
    ensures ItemNumber("phq9_" + suffix) == 9
  {
    var name := "phq9_" + suffix;
    assert FirstDigit(name) == 3 by {
      assert !IsDigit(name[0]) && !IsDigit(name[1]) && !IsDigit(name[2]) && IsDigit(name[3]);
    }
    assert name[3..][0] == '9' && name[3..][1] == '_';
    assert DigitRun(name[3..]) == 1 by {
      assert DigitRun(name[3..][1..]) == 0;
    }
    assert name[3..][..1] == "9";
    assert ParseNat("9") == 9 by {
      assert "9"[..0] == [];
    }
  }

  // ------------------------------------------------------------ stable sort

  /** `s` sorted by `key`, ties in any order. */
  predicate SortedBy<T>(s: seq<T>, key: T -> int) {
    forall i, j :: 0 <= i < j < |s| ==> key(s[i]) <= key(s[j])
  }

  /** `x` placed after every element whose key is not above its own. */
  function InsertBy<T>(s: seq<T>, x: T, key: T -> int): (r: seq<T>)
    ensures |r| == |s| + 1
    ensures multiset(r) == multiset(s) + multiset{x}
  {
    if s == [] || key(s[|s| - 1]) <= key(x) then s + [x]
    else
      var init := s[..|s| - 1];
      assert s == init + [s[|s| - 1]];
      InsertBy(init, x, key) + [s[|s| - 1]]
  }

  /** `sorted(xs, key=key)`: Python's sort is stable. */
  function SortBy<T>(xs: seq<T>, key: T -> int): (r: seq<T>)
    ensures |r| == |xs|
    ensures multiset(r) == multiset(xs)
  {
    if xs == [] then []
    else
      var init := xs[..|xs| - 1];
      assert xs == init + [xs[|xs| - 1]];
      InsertBy(SortBy(init, key), xs[|xs| - 1], key)
  }

  /** Inserting into a sorted list keeps it sorted. */
  lemma {:induction false} InsertBySorted<T>(s: seq<T>, x: T, key: T -> int)
    requires SortedBy(s, key)
    ensures SortedBy(InsertBy(s, x, key), key)
  {
    if !(s == [] || key(s[|s| - 1]) <= key(x)) {
      var init := s[..|s| - 1];
      InsertBySorted(init, x, key);
      var r0 := InsertBy(init, x, key);
      var last := s[|s| - 1];
      forall i | 0 <= i < |r0|
        ensures key(r0[i]) <= key(last)
      {
        assert r0[i] in multiset(init) + multiset{x};
        if r0[i] != x {
          assert r0[i] in init;
        }
      }
    }
  }

  lemma {:induction false} SortBySorted<T>(xs: seq<T>, key: T -> int)
    ensures SortedBy(SortBy(xs, key), key)
  {
    if xs != [] {
      SortBySorted(xs[..|xs| - 1], key);
      InsertBySorted(SortBy(xs[..|xs| - 1], key), xs[|xs| - 1], key);
    }
  }

  /** The elements of `s` whose key is `k`, in order. */
  function WithKey<T>(s: seq<T>, key: T -> int, k: int): seq<T> {
    if s == [] then []
    else WithKey(s[..|s| - 1], key, k) + (if key(s[|s| - 1]) == k then [s[|s| - 1]] else [])
  }

  lemma {:induction false} WithKeyAppend<T>(a: seq<T>, b: seq<T>, key: T -> int, k: int)
    ensures WithKey(a + b, key, k) == WithKey(a, key, k) + WithKey(b, key, k)
  {
    if b != [] {
      var bi := b[..|b| - 1];
      assert (a + b)[..|a + b| - 1] == a + bi;
      WithKeyAppend(a, bi, key, k);
      AppendAssoc(WithKey(a, key, k), WithKey(bi, key, k), if key(b[|b| - 1]) == k then [b[|b| - 1]] else []);
    } else {
      assert a + b == a;
    }
  }

  /** Inserting `x` adds it after the other elements of its key. */
  lemma {:induction false} InsertByWithKey<T>(s: seq<T>, x: T, key: T -> int, k: int)
    ensures WithKey(InsertBy(s, x, key), key, k) == WithKey(s, key, k) + (if key(x) == k then [x] else [])
  {
    if s == [] || key(s[|s| - 1]) <= key(x) {
      assert InsertBy(s, x, key) == s + [x];
      WithKeyAppend(s, [x], key, k);
      WithKeySingle([x], key, k);
    } else {
      InsertByWithKey(s[..|s| - 1], x, key, k);
      InsertPastWithKey(s, x, key, k);
    }
  }

  /** The step of the above where `x` moves past a last element of a greater key. */
  lemma InsertPastWithKey<T>(s: seq<T>, x: T, key: T -> int, k: int)
    requires s != [] && key(x) < key(s[|s| - 1])
    requires WithKey(InsertBy(s[..|s| - 1], x, key), key, k) == WithKey(s[..|s| - 1], key, k) + (if key(x) == k then [x] else [])
    ensures WithKey(InsertBy(s, x, key), key, k) == WithKey(s, key, k) + (if key(x) == k then [x] else [])
  {
    var init := s[..|s| - 1];
    var last := s[|s| - 1];
    assert InsertBy(s, x, key) == InsertBy(init, x, key) + [last];
    WithKeyAppend(InsertBy(init, x, key), [last], key, k);
    WithKeySingle([last], key, k);
    WithKeyLast(s, key, k);
    var w := WithKey(init, key, k);
    var xs: seq<T> := if key(x) == k then [x] else [];
    var ls: seq<T> := if key(last) == k then [last] else [];
    if key(x) == k {
      AppendEmpty(w + xs, ls);
      AppendEmpty(w, ls);
    } else {
      AppendEmpty(w, xs);
      AppendEmpty(w + ls, xs);
    }
  }

  lemma WithKeySingle<T>(s: seq<T>, key: T -> int, k: int)
    requires |s| == 1
    ensures WithKey(s, key, k) == (if key(s[0]) == k then s else [])
  {
    assert s[..0] == [];
  }

  lemma WithKeyLast<T>(s: seq<T>, key: T -> int, k: int)
    requires |s| > 0
    ensures WithKey(s, key, k) == WithKey(s[..|s| - 1], key, k) + (if key(s[|s| - 1]) == k then [s[|s| - 1]] else [])
  {
  }

  /** Stability: the elements of each key keep their input order. */
  lemma {:induction false} SortByStable<T>(xs: seq<T>, key: T -> int, k: int)
    ensures WithKey(SortBy(xs, key), key, k) == WithKey(xs, key, k)
  {
    if xs != [] {
      SortByStable(xs[..|xs| - 1], key, k);
      InsertByWithKey(SortBy(xs[..|xs| - 1], key), xs[|xs| - 1], key, k);
    }
  }

  /** When every key is the same the sort changes nothing. */
  lemma {:induction false} SortByTies<T>(xs: seq<T>, key: T -> int)
    requires forall i :: 0 <= i < |xs| ==> key(xs[i]) == key(xs[0])
    ensures SortBy(xs, key) == xs
  {
    if xs != [] {
      var init := xs[..|xs| - 1];
      var last := xs[|xs| - 1];
      SortByTies(init, key);
      assert SortBy(xs, key) == InsertBy(init, last, key);
      if init != [] {
        assert key(init[|init| - 1]) == key(last);
      }
      InitLast(xs);
    }
  }

  // ----------------------------------------------------------------- sums

  /** The sum of `val` over `s`, from the back. */
  function Total<T>(s: seq<T>, val: T -> int): int {
    if s == [] then 0 else Total(s[..|s| - 1], val) + val(s[|s| - 1])
  }

  lemma {:induction false} TotalInsert<T>(s: seq<T>, x: T, key: T -> int, val: T -> int)
    ensures Total(InsertBy(s, x, key), val) == Total(s, val) + val(x)
  {
    if !(s == [] || key(s[|s| - 1]) <= key(x)) {
      var init := s[..|s| - 1];
      var r0 := InsertBy(init, x, key);
      TotalInsert(init, x, key, val);
      assert (r0 + [s[|s| - 1]])[..|r0|] == r0;
    } else {
      assert (s + [x])[..|s|] == s;
    }
  }

  /** Sorting does not change the sum. */
  lemma {:induction false} SortByTotal<T>(xs: seq<T>, key: T -> int, val: T -> int)
    ensures Total(SortBy(xs, key), val) == Total(xs, val)
  {
    if xs != [] {
      SortByTotal(xs[..|xs| - 1], key, val);
      TotalInsert(SortBy(xs[..|xs| - 1], key), xs[|xs| - 1], key, val);
    }
  }

  // ------------------------------------------------------------- assessment

  /** A scored item: its column label and its 0..3 score. */
  type Item = (String, int)

  function ItemKey(it: Item): int { ItemNumber(it.0) }

  function Score(it: Item): int { it.1 }

  /** The scores of the items, in order. */
  function Scores(items: seq<Item>): (r: seq<int>)
    ensures |r| == |items|
    ensures forall i :: 0 <= i < |items| ==> r[i] == items[i].1
  {
    seq(|items|, i requires 0 <= i < |items| => items[i].1)
  }

  lemma {:induction false} SumIsTotal(items: seq<Item>)
    ensures Sum(Scores(items)) == Total(items, Score)
  {
    if items != [] {
      var init := items[..|items| - 1];
      SumIsTotal(init);
      assert Scores(items) == Scores(init) + [items[|items| - 1].1];
      SumAppend(Scores(init), [items[|items| - 1].1]);
      assert Sum([items[|items| - 1].1]) == items[|items| - 1].1;
    }
  }

  /** The assessment a reader returns. */
  datatype Assessment = Assessment(totalScore: int, severity: String, items: seq<int>, assessmentDate: Option<String>)

  /**
   * The assessment from the kept item scores (column order) or, without any,
   * from a total read elsewhere: items sorted stably by item number and
   * summed, or nine zeros.
   */
  function AssessmentOf(kept: seq<Item>, total: Option<int>, date: Option<String>): (r: Option<Assessment>)
    ensures r.None? <==> kept == [] && total.None?
    ensures r.Some? ==> r.value.severity == Severity(r.value.totalScore) && r.value.assessmentDate == date
    ensures r.Some? && kept == [] ==> r.value.items == [0, 0, 0, 0, 0, 0, 0, 0, 0] && r.value.totalScore == total.value
  {
    if kept == [] then
      match total
      case None => None
      case Some(t) => Some(Assessment(t, Severity(t), [0, 0, 0, 0, 0, 0, 0, 0, 0], date))
    else
      var items := Scores(SortBy(kept, ItemKey));
      var t := Sum(items);
      Some(Assessment(t, Severity(t), items, date))
  }

  /**
   * With item scores, the total is the sum of the kept scores, the items are
   * a stable reordering of them by item number, and there is one per kept
   * column.
   */
  lemma ItemsAssessment(kept: seq<Item>, total: Option<int>, date: Option<String>)
    requires kept != []
    ensures var r := AssessmentOf(kept, total, date);
      r.Some? && r.value.totalScore == Sum(Scores(kept)) &&
      |r.value.items| == |kept| &&
      r.value.items == Scores(SortBy(kept, ItemKey)) &&
      SortedBy(SortBy(kept, ItemKey), ItemKey)
  {
    var sorted := SortBy(kept, ItemKey);
    SumIsTotal(sorted);
    SumIsTotal(kept);
    SortByTotal(kept, ItemKey, Score);
    SortBySorted(kept, ItemKey);
  }

  /** `phq9_<n>` columns all tie, so their scores stay in column order. */
  lemma PhqColumnsInColumnOrder(kept: seq<Item>)
    requires forall i :: 0 <= i < |kept| ==> |kept[i].0| >= 5 && kept[i].0[..5] == "phq9_"
    ensures SortBy(kept, ItemKey) == kept
  {
    forall i | 0 <= i < |kept|
      ensures ItemKey(kept[i]) == 9
    {
      PhqColumnNumber(kept[i].0[5..]);
      assert "phq9_" + kept[i].0[5..] == kept[i].0;
    }
    SortByTies(kept, ItemKey);
  }

  // ------------------------------------------------------------ reading a row

  /** A cell kept as an item score: not empty, an integer, and within 0..3. */
  function ItemScore(c: Cell): (r: Option<int>)
    ensures r.Some? ==> 0 <= r.value <= 3 && NotNa(c) && CellInt(c) == r
    ensures NotNa(c) && CellInt(c).Some? && 0 <= CellInt(c).value <= 3 ==> r == CellInt(c)
  {
    match CellInt(c)
    case Some(n) => if 0 <= n <= 3 then Some(n) else None
    case None => None
  }

  /** The item columns of a row, in column order, with their kept scores. */
  function KeptItems(row: Row, isItem: String -> bool): (r: seq<Item>)
    ensures |r| <= |row|
    ensures forall i :: 0 <= i < |r| ==> isItem(r[i].0) && 0 <= r[i].1 <= 3
  {
    if row == [] then []
    else
      var init := KeptItems(row[..|row| - 1], isItem);
      var col := row[|row| - 1];
      if isItem(col.0) && ItemScore(col.1).Some? then init + [(col.0, ItemScore(col.1).value)]
      else init
  }

  /** A row with no item column whose cell is a score keeps nothing. */
  lemma {:induction false} NoKeptItems(row: Row, isItem: String -> bool)
    requires forall i :: 0 <= i < |row| ==> !isItem(row[i].0) || ItemScore(row[i].1).None?
    ensures KeptItems(row, isItem) == []
  {
    if row != [] {
      NoKeptItems(row[..|row| - 1], isItem);
    }
  }

  /** Every item column whose cell is a score is kept. */
  lemma {:induction false} ItemKept(row: Row, isItem: String -> bool, j: nat)
    requires j < |row| && isItem(row[j].0) && ItemScore(row[j].1).Some?
    ensures (row[j].0, ItemScore(row[j].1).value) in KeptItems(row, isItem)
  {
    if j < |row| - 1 {
      assert row[..|row| - 1][j] == row[j];
      ItemKept(row[..|row| - 1], isItem, j);
    }
  }

  /** An item column whose cell `int(float(value))` overflows on. */
  predicate ItemOverflows(row: Row, isItem: String -> bool) {
    AnyItem(row, isItem, Overflows)
  }

  /** Some item column holds a cell `bad` holds for. */
  predicate AnyItem(row: Row, isItem: String -> bool, bad: Cell -> bool) {
    exists i :: 0 <= i < |row| && isItem(row[i].0) && bad(row[i].1)
  }

  /**
   * The item loop.  With `intItems` a cell is read with `int(float(value))`,
   * which raises on an infinity; without it a cell is read with `float(value)`
   * and tested with `is_integer()`, which does not raise.
   */
  method CollectItems(row: Row, isItem: String -> bool, intItems: bool) returns (r: Outcome<seq<Item>>)
    ensures r == if intItems && ItemOverflows(row, isItem) then Raised else Value(KeptItems(row, isItem))
  {
    var kept := [];
    var i := 0;
    while i < |row|
      invariant 0 <= i <= |row|
      invariant kept == KeptItems(row[..i], isItem)
      invariant intItems ==> !AnyItem(row[..i], isItem, Overflows)
    {
      assert row[..i + 1][..i] == row[..i];
      AnyItemStep(row, isItem, Overflows, i);
      var col := row[i];
      if isItem(col.0) {
        if intItems && Overflows(col.1) {
          assert AnyItem(row, isItem, Overflows) by {
            assert isItem(row[i].0) && Overflows(row[i].1);
          }
          r := Raised;
          return;
        }
        var score := ItemScore(col.1);
        if score.Some? {
          kept := kept + [(col.0, score.value)];
        }
      }
      i := i + 1;
    }
    assert row[..|row|] == row;
    r := Value(kept);
  }

  /** One more column is such an item exactly when it or one before it is. */
  lemma AnyItemStep(row: Row, isItem: String -> bool, bad: Cell -> bool, i: nat)
    requires i < |row|
    ensures AnyItem(row[..i + 1], isItem, bad) <==> AnyItem(row[..i], isItem, bad) || (isItem(row[i].0) && bad(row[i].1))
  {
    var pre := row[..i + 1];
    if AnyItem(pre, isItem, bad) && !(isItem(row[i].0) && bad(row[i].1)) {
      var c :| 0 <= c < |pre| && isItem(pre[c].0) && bad(pre[c].1);
      assert row[..i][c] == pre[c];
    }
    if AnyItem(row[..i], isItem, bad) {
      var c :| 0 <= c < i && isItem(row[..i][c].0) && bad(row[..i][c].1);
      assert pre[c] == row[..i][c];
    }
    if isItem(row[i].0) && bad(row[i].1) {
      assert pre[i] == row[i];
    }
  }

  /** The total-score columns tried when there are no item scores. */
  const TotalKeys: seq<String> := ["total_score", "phq9_total", "total", "总分", "phq9总分"]

  /** The assessment-date columns. */
  const DateKeys: seq<String> := ["assessment_date", "date", "test_date", "评估日期"]

  /** `str(value)` of the first present, non-empty cell. */
  function TextOf(c: Option<Cell>): Option<String> {
    match c
    case None => None
    case Some(v) => Some(CellText(v))
  }

  /** `extract_phq9_assessment` with the reader's own test for item columns. */
  function AssessmentFrom(row: Row, isItem: String -> bool): Option<Assessment> {
    AssessmentOf(KeptItems(row, isItem), FirstInt(row, TotalKeys), TextOf(FirstPresent(row, DateKeys)))
  }

  /**
   * What `extract_phq9_assessment` gives, or the OverflowError it raises on
   * an item cell (with `intItems`) or on the total when no item is kept.
   */
  function AssessmentOutcome(row: Row, isItem: String -> bool, intItems: bool): Outcome<Option<Assessment>> {
    if (intItems && ItemOverflows(row, isItem)) || (KeptItems(row, isItem) == [] && FirstIntRaises(row, TotalKeys)) then Raised
    else Value(AssessmentFrom(row, isItem))
  }

  method ExtractAssessment(row: Row, isItem: String -> bool, intItems: bool) returns (r: Outcome<Option<Assessment>>)
    ensures r == AssessmentOutcome(row, isItem, intItems)
  {
    var collected := CollectItems(row, isItem, intItems);
    if collected.Raised? {
      return Raised;
    }
    var kept := collected.value;
    var total: Option<int> := None;
    var items: seq<int>;
    if kept == [] {
      var found := FindFirstInt(row, TotalKeys);
      if found.Raised? {
        return Raised;
      }
      total := found.value;
      if total.None? {
        return Value(None);
      }
      items := [0, 0, 0, 0, 0, 0, 0, 0, 0];
    } else {
      items := Scores(SortBy(kept, ItemKey));
      total := Some(Sum(items));
    }
    var severity := Severity(total.value);
    var date := FindFirst(row, DateKeys);
    r := Value(Some(Assessment(total.value, severity, items, TextOf(date))));
  }

  /**
   * With no item kept, a total cell that reads as an infinity before any
   * readable total makes the row raise, whatever the total columns after it hold.
   */
  lemma TotalOverflowRaises(row: Row, isItem: String -> bool, intItems: bool, j: nat)
    requires KeptItems(row, isItem) == []
    requires j < |TotalKeys| && Usable(row, TotalKeys[j]) && Overflows(Get(row, TotalKeys[j]).value)
    requires forall k :: 0 <= k < j ==> IntCell(row, TotalKeys[k]).None?
    ensures AssessmentOutcome(row, isItem, intItems) == Raised
  {
    assert HitAt(TotalKeys, OverflowsUnder(row), ReadsUnder(row), j);
    HitAtHits(TotalKeys, OverflowsUnder(row), ReadsUnder(row), j);
  }

  /**
   * Conversely, when the fixed reader's lookup raises, no item was kept and
   * some total column overflows with no readable total before it.
   */
  lemma RaisedTotalKey(row: Row, isItem: String -> bool) returns (j: nat)
    requires AssessmentOutcome(row, isItem, false) == Raised
    ensures KeptItems(row, isItem) == []
    ensures j < |TotalKeys| && Usable(row, TotalKeys[j]) && Overflows(Get(row, TotalKeys[j]).value)
    ensures forall k :: 0 <= k < j ==> IntCell(row, TotalKeys[k]).None?
  {
    j := HitKey(TotalKeys, OverflowsUnder(row), ReadsUnder(row));
  }

  /** Without item scores and without a readable total there is no assessment. */
  lemma NoAssessment(row: Row, isItem: String -> bool)
    requires KeptItems(row, isItem) == []
    requires forall k :: 0 <= k < |TotalKeys| ==> !Usable(row, TotalKeys[k]) || CellInt(Get(row, TotalKeys[k]).value).None?
    ensures AssessmentFrom(row, isItem).None?
  {
  }
}
