/**
 * processed_data/count_dialogue_prefix_ids.py: the id list at the head of
 * a dialogue file name (`12，15、 20 张三.txt`), and the per-folder
 * counts of those ids: files without ids, all ids, distinct ids,
 * duplicated ids and the files each id appears in.
 */
module PrefixIds {
  import opened Text
  import opened SortedSet

  predicate IsIdSep(c: char) { c == '，' || c == ',' || c == '、' }

  /** `(?:\s*[，,、]\s*\d+)*` from the start of `s`, each id as a number. */
  function MoreIds(s: String): seq<nat>
    decreases |s|
  {
    var u := s[SpaceRun(s)..];
    if |u| > 0 && IsIdSep(u[0]) then IdsAfterMark(u[1..]) else []
  }

  /** `\s*\d+` after a separator mark, then the further ids; nothing without a digit. */
  function IdsAfterMark(w: String): seq<nat>
    decreases |w|
  {
    var v := w[SpaceRun(w)..];
    var d := DigitRun(v);
    if d > 0 then [ParseNat(v[..d])] + MoreIds(v[d..]) else []
  }

  /**
   * `extract_prefix_ids`: the leading `\d+(?:\s*[，,、]\s*\d+)*` after any
   * whitespace, split at the separators; nothing when the stem does not
   * start with a digit.
   */
  function ExtractPrefixIds(stem: String): (r: seq<nat>)
    ensures var t := stem[SpaceRun(stem)..]; r == [] <==> t == [] || !IsDigit(t[0])
  {
    var t := stem[SpaceRun(stem)..];
    var d := DigitRun(t);
    if d == 0 then [] else [ParseNat(t[..d])] + MoreIds(t[d..])
  }

  // --------------------------------------------------- rendering ids

  /** A separator as the pattern allows it: whitespace, one of `，,、`, whitespace. */
  datatype Sep = Sep(before: String, mark: char, after: String)

  predicate ValidSep(sep: Sep) {
    IsBlank(sep.before) && IsIdSep(sep.mark) && IsBlank(sep.after)
  }

  function SepText(sep: Sep): String {
    sep.before + [sep.mark] + sep.after
  }

  /** The text of the further ids, each after its separator. */
  function MoreText(more: seq<(Sep, nat)>): String {
    if more == [] then [] else SepText(more[0].0) + NatToString(more[0].1) + MoreText(more[1..])
  }

  function Values(more: seq<(Sep, nat)>): (r: seq<nat>)
    ensures |r| == |more|
  {
    if more == [] then [] else [more[0].1] + Values(more[1..])
  }

  lemma MoreIdsAtMark(ws: String, c: char, w: String)
    requires IsBlank(ws) && IsIdSep(c)
    ensures MoreIds(ws + [c] + w) == IdsAfterMark(w)
  {
    var s := ws + [c] + w;
    assert s == ws + ([c] + w);
    SpaceRunOfBlankThen(ws, [c] + w);
    assert s[SpaceRun(s)..] == [c] + w;
  }

  lemma IdsAfterMarkOf(ws: String, n: nat, rest: String)
    requires IsBlank(ws)
    requires rest == [] || !IsDigit(rest[0])
    ensures IdsAfterMark(ws + NatToString(n) + rest) == [n] + MoreIds(rest)
  {
    var ds := NatToString(n);
    var w := ws + ds + rest;
    assert w == ws + (ds + rest);
    SpaceRunOfBlankThen(ws, ds + rest);
    var v := w[SpaceRun(w)..];
    assert v == ds + rest;
    DigitRunOfDigitsThen(ds, rest);
    assert v[..|ds|] == ds && v[|ds|..] == rest;
    ParseNatToString(n);
    assert IdsAfterMark(w) == [ParseNat(ds)] + MoreIds(rest);
  }

  lemma MoreIdsStep(sep: Sep, n: nat, rest: String)
    requires ValidSep(sep)
    requires rest == [] || !IsDigit(rest[0])
    ensures MoreIds(SepText(sep) + NatToString(n) + rest) == [n] + MoreIds(rest)
  {
    var w := sep.after + NatToString(n) + rest;
    assert SepText(sep) + NatToString(n) + rest == sep.before + [sep.mark] + w;
    MoreIdsAtMark(sep.before, sep.mark, w);
    IdsAfterMarkOf(sep.after, n, rest);
  }

  /** A separator starts with whitespace or its mark, never a digit. */
  lemma SepStart(sep: Sep, rest: String)
    requires ValidSep(sep)
    ensures !IsDigit((SepText(sep) + rest)[0])
  {
    var s := SepText(sep) + rest;
    if sep.before == [] {
      assert s[0] == sep.mark;
    } else {
      assert s[0] == sep.before[0];
      assert IsSpace(sep.before[0]);
    }
  }

  /** The text of further ids, then a tail that does not start with a digit, does not start with one. */
  lemma TextStart(more: seq<(Sep, nat)>, tail: String)
    requires more != [] ==> ValidSep(more[0].0)
    requires tail == [] || !IsDigit(tail[0])
    ensures var s := MoreText(more) + tail; s == [] || !IsDigit(s[0])
  {
    if more != [] {
      var rest := NatToString(more[0].1) + MoreText(more[1..]) + tail;
      assert MoreText(more) + tail == SepText(more[0].0) + rest;
      SepStart(more[0].0, rest);
    } else {
      assert MoreText(more) + tail == tail;
    }
  }

  /** The further ids read back from their text, up to a tail that does not continue the list. */
  lemma {:induction false} MoreIdsOfText(more: seq<(Sep, nat)>, tail: String)
    requires forall k :: 0 <= k < |more| ==> ValidSep(more[k].0)
    requires tail == [] || !IsDigit(tail[0])
    ensures MoreIds(MoreText(more) + tail) == Values(more) + MoreIds(tail)
  {
    if more != [] {
      var sep, n := more[0].0, more[0].1;
      var head := SepText(sep) + NatToString(n);
      var rest := MoreText(more[1..]) + tail;
      assert ValidSep(sep);
      MoreIdsOfText(more[1..], tail);
      TextStart(more[1..], tail);
      MoreIdsStep(sep, n, rest);
      assert MoreText(more) == head + MoreText(more[1..]);
      AppendAssoc(head, MoreText(more[1..]), tail);
      assert Values(more) == [n] + Values(more[1..]);
      calc {
        MoreIds(MoreText(more) + tail);
        MoreIds(head + rest);
        [n] + MoreIds(rest);
        [n] + (Values(more[1..]) + MoreIds(tail));
        { AppendAssoc([n], Values(more[1..]), MoreIds(tail)); }
        Values(more) + MoreIds(tail);
      }
    } else {
      assert MoreText(more) + tail == tail;
      assert Values(more) + MoreIds(tail) == MoreIds(tail);
    }
  }

  /**
   * A stem written as whitespace, an id, further separated ids and a title
   * that does not continue the list gives back exactly those ids, in order.
   */
  lemma PrefixIdsOfStem(lead: String, first: nat, more: seq<(Sep, nat)>, title: String)
    requires IsBlank(lead)
    requires forall k :: 0 <= k < |more| ==> ValidSep(more[k].0)
    requires title == [] || !IsDigit(title[0])
    requires MoreIds(title) == []
    ensures ExtractPrefixIds(lead + NatToString(first) + MoreText(more) + title) == [first] + Values(more)
  {
    var ds := NatToString(first);
    var rest := MoreText(more) + title;
    TextStart(more, title);
    LeadingId(lead, first, rest);
    MoreIdsOfText(more, title);
    AppendAssoc(lead + ds, MoreText(more), title);
    AppendEmpty(Values(more), MoreIds(title));
  }

  lemma LeadingId(lead: String, first: nat, rest: String)
    requires IsBlank(lead)
    requires rest == [] || !IsDigit(rest[0])
    ensures ExtractPrefixIds(lead + NatToString(first) + rest) == [first] + MoreIds(rest)
  {
    var ds := NatToString(first);
    AppendAssoc(lead, ds, rest);
    IdsAfterBlank(lead, ds + rest);
    IdsOfNumeral(first, rest);
  }

  /** Leading whitespace is skipped before the first id. */
  lemma IdsAfterBlank(lead: String, t: String)
    requires IsBlank(lead)
    requires t != [] && IsDigit(t[0])
    ensures ExtractPrefixIds(lead + t) == ExtractPrefixIds(t)
  {
    SpaceRunOfBlankThen(lead, t);
    SpaceRunOfBlankThen([], t);
    assert [] + t == t;
    assert (lead + t)[|lead|..] == t;
  }

  /** A stem that opens with a numeral yields its value, then the ids after it. */
  lemma IdsOfNumeral(first: nat, rest: String)
    requires rest == [] || !IsDigit(rest[0])
    ensures ExtractPrefixIds(NatToString(first) + rest) == [first] + MoreIds(rest)
  {
    var ds := NatToString(first);
    var t := ds + rest;
    SpaceRunOfBlankThen([], t);
    assert [] + t == t;
    DigitRunOfDigitsThen(ds, rest);
    assert t[..|ds|] == ds && t[|ds|..] == rest;
    ParseNatToString(first);
  }

  // -------------------------------------------------------- scan_dir

  /** A `.txt` file of a folder: its name and its stem. */
  datatype StemFile = StemFile(name: String, stem: String)

  /** The names of the files whose stem carries no id, in scan order. */
  function Missing(files: seq<StemFile>): (r: seq<String>)
    ensures |r| <= |files|
  {
    if files == [] then []
    else
      var f := files[|files| - 1];
      Missing(files[..|files| - 1]) + (if ExtractPrefixIds(f.stem) == [] then [f.name] else [])
  }

  /** The number of files whose stem carries ids. */
  function ParsedCount(files: seq<StemFile>): nat {
    if files == [] then 0
    else ParsedCount(files[..|files| - 1]) + (if ExtractPrefixIds(files[|files| - 1].stem) == [] then 0 else 1)
  }

  /** Every id of every file, in scan order, duplicates kept. */
  function AllIds(files: seq<StemFile>): seq<nat> {
    if files == [] then [] else AllIds(files[..|files| - 1]) + ExtractPrefixIds(files[|files| - 1].stem)
  }

  /** `id_to_files[id].append(name)`. */
  function AddName(index: map<nat, seq<String>>, id: nat, name: String): map<nat, seq<String>> {
    index[id := (if id in index then index[id] else []) + [name]]
  }

  /** The inner loop of `scan_dir`: `name` appended under each of `ids`. */
  function AddNames(index: map<nat, seq<String>>, ids: seq<nat>, name: String): map<nat, seq<String>> {
    if ids == [] then index else AddName(AddNames(index, ids[..|ids| - 1], name), ids[|ids| - 1], name)
  }

  /** `id_to_files` after scanning `files`. */
  function Index(files: seq<StemFile>): map<nat, seq<String>> {
    if files == [] then map[]
    else
      var f := files[|files| - 1];
      AddNames(Index(files[..|files| - 1]), ExtractPrefixIds(f.stem), f.name)
  }

  /** `count` copies of `name`. */
  function Repeat(name: String, count: nat): (r: seq<String>)
    ensures |r| == count
    ensures forall k :: 0 <= k < count ==> r[k] == name
  {
    if count == 0 then [] else Repeat(name, count - 1) + [name]
  }

  /** Each file's name once per occurrence of `id` in its stem, in scan order. */
  function FilesOf(files: seq<StemFile>, id: nat): seq<String> {
    if files == [] then []
    else
      var f := files[|files| - 1];
      FilesOf(files[..|files| - 1], id) + Repeat(f.name, multiset(ExtractPrefixIds(f.stem))[id])
  }

  /** The ids seen more than once, with their counts: `duplicates`. */
  function Duplicates(ids: seq<nat>): (r: map<nat, nat>)
    ensures forall k :: k in r <==> multiset(ids)[k] > 1
    ensures forall k :: k in r ==> r[k] == multiset(ids)[k]
  {
    map k: nat | k in ids && multiset(ids)[k] > 1 :: multiset(ids)[k]
  }

  /** The result of `scan_dir` (folder path, counts, lists and index). */
  datatype ScanStats = ScanStats(
    folder: String,
    fileCount: nat,
    parsedFileCount: nat,
    missingPrefixFiles: seq<String>,
    totalPrefixCount: nat,
    uniquePrefixCount: nat,
    uniquePrefixIds: seq<int>,
    duplicates: map<nat, nat>,
    idToFiles: map<nat, seq<String>>)

  /** What `scan_dir` returns for the files of `folder`, in their sorted order. */
  function Scan(folder: String, files: seq<StemFile>): ScanStats {
    var all := AllIds(files);
    ScanStats(folder, |files|, |files| - |Missing(files)|, Missing(files), |all|,
              |Elements(all)|, SortedDistinct(all), Duplicates(all), Index(files))
  }

  /** The inner loop of `scan_dir`. */
  method AppendName(index: map<nat, seq<String>>, ids: seq<nat>, name: String) returns (r: map<nat, seq<String>>)
    ensures r == AddNames(index, ids, name)
  {
    r := index;
    var k := 0;
    while k < |ids|
      invariant k <= |ids|
      invariant r == AddNames(index, ids[..k], name)
    {
      assert ids[..k + 1][..k] == ids[..k];
      var id := ids[k];
      var current := if id in r then r[id] else [];
      r := r[id := current + [name]];
      k := k + 1;
    }
    assert ids[..k] == ids;
  }

  /** One file of the loop of `scan_dir`. */
  method ScanFile(file: StemFile, index: map<nat, seq<String>>, missing: seq<String>, allIds: seq<nat>)
    returns (index': map<nat, seq<String>>, missing': seq<String>, allIds': seq<nat>)
    ensures var ids := ExtractPrefixIds(file.stem);
      && missing' == missing + (if ids == [] then [file.name] else [])
      && allIds' == allIds + ids
      && index' == AddNames(index, ids, file.name)
  {
    var ids := ExtractPrefixIds(file.stem);
    if ids == [] {
      return index, missing + [file.name], allIds;
    }
    allIds' := allIds + ids;
    missing' := missing;
    index' := AppendName(index, ids, file.name);
  }

  method ScanDir(folder: String, files: seq<StemFile>) returns (stats: ScanStats)
    ensures stats == Scan(folder, files)
  {
    var index: map<nat, seq<String>> := map[];
    var missing: seq<String> := [];
    var allIds: seq<nat> := [];
    var i := 0;
    while i < |files|
      invariant i <= |files|
      invariant index == Index(files[..i]) && missing == Missing(files[..i]) && allIds == AllIds(files[..i])
    {
      assert files[..i + 1][..i] == files[..i];
      index, missing, allIds := ScanFile(files[i], index, missing, allIds);
      i := i + 1;
    }
    assert files[..i] == files;
    var counted := Elements(allIds);
    stats := ScanStats(folder, |files|, |files| - |missing|, missing, |allIds|,
                       |counted|, SortedDistinct(allIds), Duplicates(allIds), index);
  }

  // ---------------------------------------------------- scan properties

  /** A file is either missing its ids or parsed: `parsed_file_count` counts the files with ids. */
  lemma {:induction false} ParsedFiles(files: seq<StemFile>)
    ensures |files| - |Missing(files)| == ParsedCount(files)
  {
    if files != [] {
      ParsedFiles(files[..|files| - 1]);
    }
  }

  /** Names appended under `id` by one file: once per occurrence of `id` in its ids. */
  lemma AddNamesEntry(index: map<nat, seq<String>>, ids: seq<nat>, name: String, id: nat)
    ensures id in AddNames(index, ids, name) <==> id in index || id in ids
    ensures id in AddNames(index, ids, name) ==>
      AddNames(index, ids, name)[id] == (if id in index then index[id] else []) + Repeat(name, multiset(ids)[id])
  {
    AddNamesKeys(index, ids, name, id);
    AddNamesValue(index, ids, name, id);
  }

  lemma {:induction false} AddNamesKeys(index: map<nat, seq<String>>, ids: seq<nat>, name: String, id: nat)
    ensures id in AddNames(index, ids, name) <==> id in index || id in ids
  {
    if ids != [] {
      var init := ids[..|ids| - 1];
      AddNamesKeys(index, init, name, id);
      assert ids == init + [ids[|ids| - 1]];
    }
  }

  lemma {:induction false} AddNamesValue(index: map<nat, seq<String>>, ids: seq<nat>, name: String, id: nat)
    ensures id in AddNames(index, ids, name) ==>
      AddNames(index, ids, name)[id] == (if id in index then index[id] else []) + Repeat(name, multiset(ids)[id])
  {
    if ids != [] {
      var init := ids[..|ids| - 1];
      var x := ids[|ids| - 1];
      AddNamesKeys(index, init, name, id);
      AddNamesValue(index, init, name, id);
      CountSnoc(ids, id);
      if x == id {
        var before: seq<String> := if id in index then index[id] else [];
        var earlier: multiset<nat> := multiset(init);
        AppendAssoc(before, Repeat(name, earlier[id]), [name]);
      }
    } else {
      assert multiset(ids)[id] == 0;
    }
  }

  /** The last element counts once more for its own value and not for any other. */
  lemma CountSnoc(ids: seq<nat>, id: nat)
    requires ids != []
    ensures var before: multiset<nat> := multiset(ids[..|ids| - 1]);
      multiset(ids)[id] == before[id] + (if ids[|ids| - 1] == id then 1 else 0)
  {
    assert ids == ids[..|ids| - 1] + [ids[|ids| - 1]];
  }

  /**
   * `id_to_files` has a key for every id seen and no other, and lists
   * under it each file's name once per occurrence of the id, in scan order.
   */
  lemma {:induction false} IndexEntries(files: seq<StemFile>, id: nat)
    ensures id in Index(files) <==> id in AllIds(files)
    ensures id in Index(files) ==> Index(files)[id] == FilesOf(files, id)
  {
    if files != [] {
      var init := files[..|files| - 1];
      var f := files[|files| - 1];
      IndexEntries(init, id);
      AddNamesEntry(Index(init), ExtractPrefixIds(f.stem), f.name, id);
      if id !in Index(init) {
        assert FilesOf(init, id) == [] by { NotSeenNoFiles(init, id); }
      }
    }
  }

  lemma {:induction false} NotSeenNoFiles(files: seq<StemFile>, id: nat)
    requires id !in AllIds(files)
    ensures FilesOf(files, id) == []
  {
    if files != [] {
      var init := files[..|files| - 1];
      var ids := ExtractPrefixIds(files[|files| - 1].stem);
      assert id !in AllIds(init) && id !in ids;
      NotSeenNoFiles(init, id);
    }
  }

  /**
   * The distinct ids: `unique_prefix_ids` is increasing, holds exactly the
   * ids seen, and has `unique_prefix_count` entries.
   */
  lemma ScanUnique(folder: String, files: seq<StemFile>)
    ensures var s := Scan(folder, files);
      && Increasing(s.uniquePrefixIds)
      && (forall y :: y in s.uniquePrefixIds <==> y in AllIds(files))
      && |s.uniquePrefixIds| == s.uniquePrefixCount
      && s.parsedFileCount == ParsedCount(files)
      && s.totalPrefixCount == |AllIds(files)|
  {
    DistinctCount(AllIds(files));
    ParsedFiles(files);
  }

  // ---------------------------------------------------- print_overall

  function Concat(parts: seq<seq<int>>): seq<int> {
    if parts == [] then [] else Concat(parts[..|parts| - 1]) + parts[|parts| - 1]
  }

  function UniqueLists(all: seq<ScanStats>): (r: seq<seq<int>>)
    ensures |r| == |all|
  {
    seq(|all|, k requires 0 <= k < |all| => all[k].uniquePrefixIds)
  }

  /** The id list of `print_overall`: every folder's distinct ids, merged, sorted, without repeats. */
  method OverallIds(all: seq<ScanStats>) returns (r: seq<int>)
    ensures r == SortedDistinct(Concat(UniqueLists(all)))
  {
    var allIds: seq<int> := [];
    var i := 0;
    while i < |all|
      invariant i <= |all|
      invariant allIds == Concat(UniqueLists(all)[..i])
    {
      assert UniqueLists(all)[..i + 1][..i] == UniqueLists(all)[..i];
      allIds := allIds + all[i].uniquePrefixIds;
      i := i + 1;
    }
    assert UniqueLists(all)[..i] == UniqueLists(all);
    r := SortedDistinct(allIds);
  }

  lemma {:induction false} ConcatMember(parts: seq<seq<int>>, y: int)
    ensures y in Concat(parts) <==> exists k :: 0 <= k < |parts| && y in parts[k]
  {
    if parts != [] {
      ConcatMember(parts[..|parts| - 1], y);
      if y in parts[|parts| - 1] {
        assert y in parts[|parts| - 1];
      }
      if exists k :: 0 <= k < |parts| && y in parts[k] {
        var k :| 0 <= k < |parts| && y in parts[k];
        if k < |parts| - 1 {
          assert y in parts[..|parts| - 1][k];
        }
      }
    }
  }

  /** The overall list is increasing and is the union of the folders' distinct ids. */
  lemma OverallUnion(all: seq<ScanStats>, y: int)
    ensures Increasing(SortedDistinct(Concat(UniqueLists(all))))
    ensures y in SortedDistinct(Concat(UniqueLists(all))) <==> exists k :: 0 <= k < |all| && y in all[k].uniquePrefixIds
  {
    ConcatMember(UniqueLists(all), y);
    if exists k :: 0 <= k < |all| && y in all[k].uniquePrefixIds {
      var k :| 0 <= k < |all| && y in all[k].uniquePrefixIds;
      assert y in UniqueLists(all)[k];
    }
  }
}
