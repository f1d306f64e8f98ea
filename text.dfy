/**
 * String helpers shared by every module: Python's `str.strip`, `startswith`,
 * `in`, `find`, `split`, `splitlines` and `int`/`str` on decimal numbers,
 * written over `seq<char>`.  Full-width punctuation is ordinary characters.
 */
module Text {

  datatype Option<T> = None | Some(value: T)

  type String = seq<char>

  /** The characters `str.isspace()` (and the regex class `\s`) accept. */
  predicate IsSpace(c: char) {
    c == ' ' || ('\t' <= c <= '\r') || ('\U{1C}' <= c <= '\U{1F}') ||
    c == '\U{85}' || c == '\U{A0}' || c == '\U{1680}' ||
    ('\U{2000}' <= c <= '\U{200A}') || c == '\U{2028}' || c == '\U{2029}' ||
    c == '\U{202F}' || c == '\U{205F}' || c == '\U{3000}'
  }

  predicate IsDigit(c: char) { '0' <= c <= '9' }

  predicate AllDigits(s: String) { forall i :: 0 <= i < |s| ==> IsDigit(s[i]) }

  predicate IsBlank(s: String) { forall i :: 0 <= i < |s| ==> IsSpace(s[i]) }

  // ---------------------------------------------------------------- strip

  function TrimLeft(s: String): (r: String)
    ensures |r| <= |s| && r == s[|s| - |r|..]
    ensures r == [] || !IsSpace(r[0])
    ensures IsBlank(s[..|s| - |r|])
  {
    if |s| > 0 && IsSpace(s[0]) then TrimLeft(s[1..]) else s
  }

  function TrimRight(s: String): (r: String)
    ensures |r| <= |s| && r == s[..|r|]
    ensures r == [] || !IsSpace(r[|r| - 1])
    ensures IsBlank(s[|r|..])
  {
    if |s| > 0 && IsSpace(s[|s| - 1]) then
      var r := TrimRight(s[..|s| - 1]);
      assert s[|r|..] == s[..|s| - 1][|r|..] + [s[|s| - 1]];
      r
    else s
  }

  /** Python's `s.strip()`. */
  function Strip(s: String): (r: String)
    ensures |r| <= |s|
    ensures r == [] || (!IsSpace(r[0]) && !IsSpace(r[|r| - 1]))
  {
    var t := TrimLeft(s);
    assert t != [] ==> t[0] == s[|s| - |t|];
    TrimRight(t)
  }

  /** Strip leaves nothing exactly when the text is all whitespace. */
  lemma StripEmpty(s: String)
    ensures Strip(s) == [] <==> IsBlank(s)
  {
    var t := TrimLeft(s);
    assert t != [] ==> t[0] == s[|s| - |t|];
  }

  /** A text that does not strip to nothing has a non-space character. */
  lemma NonBlankChar(s: String) returns (i: nat)
    requires Strip(s) != []
    ensures i < |s| && !IsSpace(s[i])
  {
    StripEmpty(s);
    i :| 0 <= i < |s| && !IsSpace(s[i]);
  }

  lemma {:induction false} StripOfStripped(s: String)
    requires s == [] || (!IsSpace(s[0]) && !IsSpace(s[|s| - 1]))
    ensures Strip(s) == s
  {
  }

  lemma {:induction false} StripIdempotent(s: String)
    ensures Strip(Strip(s)) == Strip(s)
  {
    StripOfStripped(Strip(s));
  }

  /** A prefix that neither starts nor ends with whitespace survives `strip`. */
  lemma StripKeepsPrefix(s: String, p: String)
    requires StartsWith(s, p) && |p| > 0
    requires !IsSpace(p[0]) && !IsSpace(p[|p| - 1])
    ensures StartsWith(Strip(s), p)
  {
    assert s[0] == p[0];
    assert TrimLeft(s) == s;
    var t := TrimRight(s);
    assert t[..|p|] == s[..|p|];
  }

  /** Strip keeps a middle slice of the input. */
  lemma {:induction false} StripIsSlice(s: String)
    ensures exists i, j :: 0 <= i <= j <= |s| && Strip(s) == s[i..j]
  {
    var t := TrimLeft(s);
    PrefixOfSuffix(s, t, TrimRight(t));
  }

  /** A prefix of a suffix of `s` is a slice of `s`. */
  lemma PrefixOfSuffix<T>(s: seq<T>, t: seq<T>, r: seq<T>)
    requires |t| <= |s| && t == s[|s| - |t|..]
    requires |r| <= |t| && r == t[..|r|]
    ensures exists i, j :: 0 <= i <= j <= |s| && r == s[i..j]
  {
    var i := |s| - |t|;
    assert r == s[i..i + |r|];
  }

  // ------------------------------------------------------- prefix / search

  predicate StartsWith(s: String, p: String) { |p| <= |s| && s[..|p|] == p }

  predicate EndsWith(s: String, p: String) { |p| <= |s| && s[|s| - |p|..] == p }

  /** Python's `p in s` for strings. */
  predicate Contains(s: String, p: String)
    decreases |s|
  {
    StartsWith(s, p) || (|s| > 0 && Contains(s[1..], p))
  }

  /** Python's `s.find(p)`, with None for -1. */
  function Find(s: String, p: String): (r: Option<nat>)
    ensures r.Some? ==> r.value + |p| <= |s| && s[r.value..r.value + |p|] == p
    ensures r.Some? ==> forall k :: 0 <= k < r.value ==> !StartsWith(s[k..], p)
    ensures r.Some? <==> Contains(s, p)
    decreases |s|
  {
    if StartsWith(s, p) then Some(0)
    else if |s| == 0 then None
    else match Find(s[1..], p)
      case None => None
      case Some(k) =>
        FindStep(s, p, k);
        Some(k + 1)
  }

  /** A first match in `s[1..]` at `k` is a first match in `s` at `k + 1` when `s` does not start with `p`. */
  lemma FindStep(s: String, p: String, k: nat)
    requires |s| > 0 && !StartsWith(s, p)
    requires k + |p| <= |s| - 1 && s[1..][k..k + |p|] == p
    requires forall j :: 0 <= j < k ==> !StartsWith(s[1..][j..], p)
    ensures s[k + 1..k + 1 + |p|] == p
    ensures forall j :: 0 <= j < k + 1 ==> !StartsWith(s[j..], p)
  {
    assert s[k + 1..k + 1 + |p|] == s[1..][k..k + |p|];
    forall j | 0 <= j < k + 1
      ensures !StartsWith(s[j..], p)
    {
      if j > 0 {
        assert s[j..] == s[1..][j - 1..];
      }
    }
  }

  lemma {:induction false} ContainsAt(s: String, p: String, k: nat)
    requires k + |p| <= |s| && s[k..k + |p|] == p
    ensures Contains(s, p)
    decreases k
  {
    if k > 0 {
      assert s[1..][k - 1..k - 1 + |p|] == p;
      ContainsAt(s[1..], p, k - 1);
    }
  }

  lemma {:induction false} ContainsPrefixOf(s: String, t: String, p: String)
    requires Contains(s, p)
    ensures Contains(s + t, p)
    decreases |s|
  {
    var k := Find(s, p).value;
    assert (s + t)[k..k + |p|] == s[k..k + |p|];
    ContainsAt(s + t, p, k);
  }

  lemma {:induction false} ContainsSuffixOf(s: String, t: String, p: String)
    requires Contains(t, p)
    ensures Contains(s + t, p)
  {
    var k := Find(t, p).value;
    assert (s + t)[|s| + k..|s| + k + |p|] == t[k..k + |p|];
    ContainsAt(s + t, p, |s| + k);
  }

  /** A text inside a text inside `s` is inside `s`. */
  lemma ContainsTransitive(s: String, p: String, q: String)
    requires Contains(s, p) && Contains(p, q)
    ensures Contains(s, q)
  {
    var k := ContainsWitness(s, p);
    var m := ContainsWitness(p, q);
    SliceOfSlice(s, p, k, m, |q|);
    ContainsAt(s, q, k + m);
  }

  /** A position where `p` occurs in `s`. */
  lemma {:induction false} ContainsWitness(s: String, p: String) returns (k: nat)
    requires Contains(s, p)
    ensures k + |p| <= |s| && s[k..k + |p|] == p
    decreases |s|
  {
    if StartsWith(s, p) {
      k := 0;
    } else {
      var j := ContainsWitness(s[1..], p);
      k := j + 1;
      assert s[k..k + |p|] == s[1..][j..j + |p|];
    }
  }

  lemma SliceOfSlice<T>(s: seq<T>, p: seq<T>, k: nat, m: nat, len: nat)
    requires k + |p| <= |s| && s[k..k + |p|] == p && m + len <= |p|
    ensures s[k + m..k + m + len] == p[m..m + len]
  {
    var a := s[k + m..k + m + len];
    var b := s[k..k + |p|];
    forall i | 0 <= i < len
      ensures a[i] == p[m..m + len][i]
    {
      assert a[i] == b[m + i];
    }
  }

  /** Python's `any(k in s for k in ps)`. */
  predicate ContainsAny(s: String, ps: seq<String>) {
    exists i :: 0 <= i < |ps| && Contains(s, ps[i])
  }

  /** Python's `s.startswith(tuple)`. */
  predicate StartsWithAny(s: String, ps: seq<String>) {
    exists i :: 0 <= i < |ps| && StartsWith(s, ps[i])
  }

  // ------------------------------------------------------------ split/join

  /** The index of the first occurrence of `c` in `s`. */
  function IndexOf(s: String, c: char): (r: Option<nat>)
    ensures r.None? <==> c !in s
    ensures r.Some? ==> r.value < |s| && s[r.value] == c && c !in s[..r.value]
  {
    if |s| == 0 then None
    else if s[0] == c then Some(0)
    else match IndexOf(s[1..], c)
      case None => None
      case Some(k) => assert s[..k + 1] == [s[0]] + s[1..][..k]; Some(k + 1)
  }

  /** The index of the last occurrence of `c` in `s`. */
  function LastIndexOf(s: String, c: char): (r: Option<nat>)
    ensures r.None? <==> c !in s
    ensures r.Some? ==> r.value < |s| && s[r.value] == c && c !in s[r.value + 1..]
  {
    if |s| == 0 then None
    else if s[|s| - 1] == c then Some(|s| - 1)
    else LastIndexOf(s[..|s| - 1], c)
  }

  /** Python's `s.split(c)` for a one-character separator. */
  function Split(s: String, c: char): (r: seq<String>)
    ensures |r| >= 1
    ensures forall k :: 0 <= k < |r| ==> c !in r[k]
    decreases |s|
  {
    match IndexOf(s, c)
    case None => [s]
    case Some(i) => [s[..i]] + Split(s[i + 1..], c)
  }

  /** Python's `sep.join(parts)` for a one-character separator. */
  function Join(parts: seq<String>, sep: char): String {
    if |parts| == 0 then []
    else if |parts| == 1 then parts[0]
    else parts[0] + [sep] + Join(parts[1..], sep)
  }

  /** Python's `"".join(parts)`. */
  function Concat(parts: seq<String>): String {
    if |parts| == 0 then [] else parts[0] + Concat(parts[1..])
  }

  lemma {:induction false} ConcatAppend(a: seq<String>, b: seq<String>)
    ensures Concat(a + b) == Concat(a) + Concat(b)
  {
    if |a| > 0 {
      assert (a + b)[1..] == a[1..] + b;
      ConcatAppend(a[1..], b);
    } else {
      assert a + b == b;
    }
  }

  lemma {:induction false} JoinSplit(s: String, c: char)
    ensures Join(Split(s, c), c) == s
    decreases |s|
  {
    match IndexOf(s, c)
    case None =>
    case Some(i) =>
      var parts := Split(s, c);
      assert parts == [s[..i]] + Split(s[i + 1..], c);
      assert parts[1..] == Split(s[i + 1..], c);
      assert Join(parts, c) == s[..i] + [c] + Join(parts[1..], c);
      JoinSplit(s[i + 1..], c);
      assert s == s[..i] + [c] + s[i + 1..];
  }

  /**
   * Python's `s.splitlines()` with '\n' as the only line break: the empty
   * text has no lines, and a final '\n' does not open an empty last line.
   */
  function SplitLines(s: String): (r: seq<String>)
    ensures forall k :: 0 <= k < |r| ==> '\n' !in r[k]
  {
    if |s| == 0 then []
    else
      var parts := Split(s, '\n');
      if parts[|parts| - 1] == [] then parts[..|parts| - 1] else parts
  }

  /**
   * Python's `s.splitlines(keepends=True)` with '\n' as the only line
   * break: every piece but the last ends with '\n', no piece is empty.
   */
  function SplitLinesKeepEnds(s: String): (r: seq<String>)
    ensures Concat(r) == s
    ensures forall k :: 0 <= k < |r| ==> r[k] != []
    ensures r == [] <==> s == []
    decreases |s|
  {
    match IndexOf(s, '\n')
    case None => if |s| == 0 then [] else [s]
    case Some(i) =>
      var rest := SplitLinesKeepEnds(s[i + 1..]);
      assert s == s[..i + 1] + s[i + 1..];
      [s[..i + 1]] + rest
  }

  // --------------------------------------------------------------- numbers

  function DigitValue(c: char): nat
    requires IsDigit(c)
  {
    (c as int) - ('0' as int)
  }

  function DigitChar(d: nat): (c: char)
    requires d < 10
    ensures IsDigit(c) && DigitValue(c) == d
  {
    ((d + '0' as int) as char)
  }

  /** Python's `int(ds)` on a non-empty run of ASCII digits. */
  function ParseNat(ds: String): nat
    requires AllDigits(ds)
  {
    if |ds| == 0 then 0
    else ParseNat(ds[..|ds| - 1]) * 10 + DigitValue(ds[|ds| - 1])
  }

  /** Python's `str(n)` on a natural number. */
  function NatToString(n: nat): (r: String)
    ensures |r| >= 1 && AllDigits(r)
    ensures |r| > 1 ==> r[0] != '0'
  {
    if n < 10 then [DigitChar(n)]
    else
      var r := NatToString(n / 10) + [DigitChar(n % 10)];
      assert r[0] == NatToString(n / 10)[0];
      r
  }

  lemma {:induction false} ParseNatToString(n: nat)
    ensures ParseNat(NatToString(n)) == n
  {
    if n >= 10 {
      var r := NatToString(n);
      assert r[..|r| - 1] == NatToString(n / 10);
      ParseNatToString(n / 10);
    }
  }

  lemma NatToStringInjective(a: nat, b: nat)
    requires NatToString(a) == NatToString(b)
    ensures a == b
  {
    ParseNatToString(a);
    ParseNatToString(b);
  }

  /** Python's `str(i)` on an integer. */
  function IntToString(i: int): (r: String)
    ensures |r| >= 1
  {
    if i < 0 then "-" + NatToString(-i) else NatToString(i)
  }

  /** `f"{n:06d}"`: the decimal digits left-padded with zeros to width six. */
  function ZeroPad6(n: nat): (r: String)
    ensures |r| >= 6 && AllDigits(r)
    ensures ParseNat(r) == n
  {
    var ds := NatToString(n);
    var z := if |ds| >= 6 then 0 else 6 - |ds|;
    ParseNatToString(n);
    ParseNatLeadingZeros(z, ds);
    seq(z, _ => '0') + ds
  }

  lemma {:induction false} ParseNatLeadingZeros(z: nat, ds: String)
    requires AllDigits(ds)
    ensures AllDigits(seq(z, _ => '0') + ds)
    ensures ParseNat(seq(z, _ => '0') + ds) == ParseNat(ds)
    decreases |ds|
  {
    var zs: String := seq(z, _ => '0');
    if |ds| == 0 {
      assert zs + ds == zs;
      ParseNatZeros(z);
    } else {
      var s := zs + ds;
      assert s[..|s| - 1] == zs + ds[..|ds| - 1];
      ParseNatLeadingZeros(z, ds[..|ds| - 1]);
    }
  }

  lemma {:induction false} ParseNatZeros(z: nat)
    ensures AllDigits(seq(z, _ => '0')) && ParseNat(seq(z, _ => '0')) == 0
  {
    if z > 0 {
      var s: String := seq(z, _ => '0');
      assert s[..z - 1] == seq(z - 1, _ => '0');
      ParseNatZeros(z - 1);
    }
  }

  /** The number of ASCII digits at the start of `s`. */
  function DigitRun(s: String): (n: nat)
    ensures n <= |s| && AllDigits(s[..n])
    ensures n < |s| ==> !IsDigit(s[n])
  {
    if |s| > 0 && IsDigit(s[0]) then
      var n := 1 + DigitRun(s[1..]);
      assert s[..n] == [s[0]] + s[1..][..n - 1];
      n
    else 0
  }

  lemma {:induction false} DigitRunOfDigitsThen(ds: String, t: String)
    requires AllDigits(ds)
    requires t == [] || !IsDigit(t[0])
    ensures DigitRun(ds + t) == |ds|
    decreases |ds|
  {
    if |ds| > 0 {
      assert (ds + t)[1..] == ds[1..] + t;
      DigitRunOfDigitsThen(ds[1..], t);
    }
  }

  /** The number of whitespace characters at the start of `s`. */
  function SpaceRun(s: String): (n: nat)
    ensures n <= |s| && IsBlank(s[..n])
    ensures n < |s| ==> !IsSpace(s[n])
  {
    if |s| > 0 && IsSpace(s[0]) then
      var n := 1 + SpaceRun(s[1..]);
      assert s[..n] == [s[0]] + s[1..][..n - 1];
      n
    else 0
  }

  lemma {:induction false} SpaceRunOfBlankThen(ws: String, t: String)
    requires IsBlank(ws)
    requires t == [] || !IsSpace(t[0])
    ensures SpaceRun(ws + t) == |ws|
    decreases |ws|
  {
    if |ws| > 0 {
      assert (ws + t)[1..] == ws[1..] + t;
      SpaceRunOfBlankThen(ws[1..], t);
    } else {
      assert ws + t == t;
    }
  }

  /** A leading whitespace character makes no difference to `strip`. */
  lemma StripLeadingSpace(c: char, s: String)
    requires IsSpace(c)
    ensures Strip([c] + s) == Strip(s)
  {
    assert ([c] + s)[1..] == s;
    assert TrimLeft([c] + s) == TrimLeft(s);
  }

  /**
   * Python's `int(s)` / `int(float(s))` on a text cell, restricted to what
   * both accept exactly: optional surrounding whitespace, an optional sign
   * and ASCII digits.  Anything else is None (the ValueError path).
   */
  function ParseIntText(s: String): (r: Option<int>)
    ensures r.Some? ==> Strip(s) != []
  {
    var t := Strip(s);
    if |t| > 0 && AllDigits(t) then Some(ParseNat(t))
    else if |t| > 1 && (t[0] == '-' || t[0] == '+') && AllDigits(t[1..]) then
      var v: int := ParseNat(t[1..]);
      Some(if t[0] == '-' then -v else v)
    else None
  }

  // ------------------------------------------------------------------ case

  function LowerChar(c: char): char {
    if 'A' <= c <= 'Z' then ((c as int) + 32) as char else c
  }

  function UpperChar(c: char): char {
    if 'a' <= c <= 'z' then ((c as int) - 32) as char else c
  }

  /** Python's `s.lower()` on ASCII letters (other characters unchanged). */
  function Lower(s: String): (r: String)
    ensures |r| == |s|
    ensures forall i :: 0 <= i < |s| ==> r[i] == LowerChar(s[i])
  {
    seq(|s|, i requires 0 <= i < |s| => LowerChar(s[i]))
  }

  /** Python's `s.upper()` on ASCII letters (other characters unchanged). */
  function Upper(s: String): (r: String)
    ensures |r| == |s|
    ensures forall i :: 0 <= i < |s| ==> r[i] == UpperChar(s[i])
  {
    seq(|s|, i requires 0 <= i < |s| => UpperChar(s[i]))
  }

  lemma LowerIdempotent(s: String)
    ensures Lower(Lower(s)) == Lower(s)
  {
  }

  /**
   * The texts Python's `float()` reads as an infinity: `inf` or `infinity`
   * in any ASCII case, optionally signed, with surrounding whitespace.
   */
  predicate IsInfinityText(s: String) {
    Lower(Strip(s)) in {"inf", "+inf", "-inf", "infinity", "+infinity", "-infinity"}
  }

  /** An infinity is never an integer text, so `int(float(s))` on it is not the ValueError path. */
  lemma InfinityNotInt(s: String)
    requires IsInfinityText(s)
    ensures ParseIntText(s).None?
  {
    var t := Strip(s);
    InfinityStart(Lower(t));
    assert LowerChar(t[0]) == Lower(t)[0];
    if Lower(t)[0] == 'i' {
      assert !IsDigit(t[0]) && t[0] != '-' && t[0] != '+';
    } else {
      assert LowerChar(t[1]) == Lower(t)[1];
      assert !IsDigit(t[0]) && !IsDigit(t[1..][0]);
    }
  }

  /** Every spelling of an infinity starts with `i`, or with a sign and then `i`. */
  lemma InfinityStart(l: String)
    requires l in {"inf", "+inf", "-inf", "infinity", "+infinity", "-infinity"}
    ensures |l| >= 3 && (l[0] == 'i' || ((l[0] == '+' || l[0] == '-') && l[1] == 'i'))
  {
  }

  // -------------------------------------------------------------- ordering

  /** Python's `a < b` on strings: code-point lexicographic order. */
  predicate Less(a: String, b: String)
    decreases |a|
  {
    if |a| == 0 then |b| > 0
    else if |b| == 0 then false
    else if a[0] != b[0] then a[0] < b[0]
    else Less(a[1..], b[1..])
  }

  lemma {:induction false} LessIrreflexive(a: String)
    ensures !Less(a, a)
    decreases |a|
  {
    if |a| > 0 { LessIrreflexive(a[1..]); }
  }

  lemma {:induction false} LessTransitive(a: String, b: String, c: String)
    requires Less(a, b) && Less(b, c)
    ensures Less(a, c)
    decreases |a|
  {
    if |a| > 0 && |b| > 0 && |c| > 0 && a[0] == b[0] && b[0] == c[0] {
      LessTransitive(a[1..], b[1..], c[1..]);
    }
  }

  lemma {:induction false} LessTotal(a: String, b: String)
    ensures a == b || Less(a, b) || Less(b, a)
    decreases |a|
  {
    if |a| > 0 && |b| > 0 && a[0] == b[0] {
      LessTotal(a[1..], b[1..]);
      if a[1..] == b[1..] { assert a == [a[0]] + a[1..] && b == [b[0]] + b[1..]; }
    }
  }

  lemma {:induction false} LessAsymmetric(a: String, b: String)
    requires Less(a, b)
    ensures !Less(b, a)
    decreases |a|
  {
    if |a| > 0 && |b| > 0 && a[0] == b[0] { LessAsymmetric(a[1..], b[1..]); }
  }

  // ------------------------------------------------------------- sequences

  lemma AppendAssoc<T>(a: seq<T>, b: seq<T>, c: seq<T>)
    ensures (a + b) + c == a + (b + c)
  {
  }

  /** The pieces `f` makes of each element, joined in order. */
  function FlatMap<T, U>(xs: seq<T>, f: T -> seq<U>): seq<U> {
    if |xs| == 0 then [] else FlatMap(xs[..|xs| - 1], f) + f(xs[|xs| - 1])
  }

  lemma {:induction false} FlatMapAppend<T, U>(a: seq<T>, b: seq<T>, f: T -> seq<U>)
    ensures FlatMap(a + b, f) == FlatMap(a, f) + FlatMap(b, f)
  {
    if |b| == 0 {
      assert a + b == a;
    } else {
      var ab := a + b;
      var init := b[..|b| - 1];
      assert ab[..|ab| - 1] == a + init;
      assert ab[|ab| - 1] == b[|b| - 1];
      FlatMapAppend(a, init, f);
      AppendAssoc(FlatMap(a, f), FlatMap(init, f), f(b[|b| - 1]));
    }
  }

  lemma AppendEmpty<T>(a: seq<T>, b: seq<T>)
    requires b == []
    ensures a + b == a
  {
  }

  /** A prefix that ends inside the first part of a concatenation. */
  lemma PrefixOfAppend<T>(a: seq<T>, b: seq<T>, k: nat)
    requires k <= |a|
    ensures (a + b)[..k] == a[..k]
  {
  }

  /** A prefix one longer is the prefix and the next element. */
  lemma TakeNext<T>(xs: seq<T>, i: nat)
    requires i < |xs|
    ensures xs[..i + 1] == xs[..i] + [xs[i]]
  {
  }

  lemma InitLast<T>(xs: seq<T>)
    requires |xs| > 0
    ensures xs == xs[..|xs| - 1] + [xs[|xs| - 1]]
  {
  }

  // ------------------------------------------------------------------ sums

  function Sum(xs: seq<int>): int {
    if |xs| == 0 then 0 else xs[0] + Sum(xs[1..])
  }

  lemma {:induction false} SumAppend(a: seq<int>, b: seq<int>)
    ensures Sum(a + b) == Sum(a) + Sum(b)
  {
    if |a| > 0 {
      assert (a + b)[1..] == a[1..] + b;
      SumAppend(a[1..], b);
    } else {
      assert a + b == b;
    }
  }
}
