/**
 * Spreadsheet rows as the readers see them: a row is the sequence of its
 * (column label, cell) pairs in column order.  A cell is empty (pandas
 * NaN), an integer, or a piece of text.
 */
module Table {
  import opened Text

  datatype Cell = Missing | Num(n: int) | Str(s: String)

  type Row = seq<(String, Cell)>

  /** A value, or an exception that the readers' row loop catches, skipping the row. */
  datatype Outcome<T> = Value(value: T) | Raised

  /** The labels of a row, in column order. */
  function Columns(row: Row): (r: seq<String>)
    ensures |r| == |row|
    ensures forall i :: 0 <= i < |row| ==> r[i] == row[i].0
  {
    seq(|row|, i requires 0 <= i < |row| => row[i].0)
  }

  /** `row[col]`: the cell under the first column labelled `col`. */
  function Get(row: Row, col: String): (r: Option<Cell>)
    ensures r.None? <==> col !in Columns(row)
    ensures r.Some? ==> exists i :: 0 <= i < |row| && row[i] == (col, r.value)
  {
    if |row| == 0 then None
    else if row[0].0 == col then Some(row[0].1)
    else
      assert Columns(row) == [row[0].0] + Columns(row[1..]);
      Get(row[1..], col)
  }

  /** `pd.notna(row[col])` for a present column. */
  predicate NotNa(c: Cell) { !c.Missing? }

  /**
   * `int(value)` on a cell: an integer cell is itself, a text cell is parsed
   * (surrounding whitespace, optional sign, ASCII digits), an empty cell
   * raises.
   */
  function CellInt(c: Cell): (r: Option<int>)
    ensures c.Missing? ==> r.None?
    ensures c.Num? ==> r == Some(c.n)
  {
    match c
    case Missing => None
    case Num(n) => Some(n)
    case Str(s) => ParseIntText(s)
  }

  /** `str(value)` on a cell; an empty cell prints as "nan". */
  function CellText(c: Cell): (r: String)
    ensures c.Str? ==> r == c.s
  {
    match c
    case Missing => "nan"
    case Num(n) => IntToString(n)
    case Str(s) => s
  }

  /** `key in row.index and pd.notna(row[key])`. */
  predicate Usable(row: Row, key: String) {
    Get(row, key).Some? && NotNa(Get(row, key).value)
  }

  /**
   * The cell of the first of `keys` that is present and not empty: the
   * `for key in keys: if key in row.index and pd.notna(row[key]): … break`
   * lookups of the readers.
   */
  function FirstPresent(row: Row, keys: seq<String>): (r: Option<Cell>)
    ensures r.None? <==> forall k :: 0 <= k < |keys| ==> !Usable(row, keys[k])
    ensures r.Some? ==> NotNa(r.value) && exists k :: 0 <= k < |keys| && Get(row, keys[k]) == r
  {
    if keys == [] then None
    else if Usable(row, keys[0]) then Get(row, keys[0])
    else
      assert forall k :: 1 <= k < |keys| ==> keys[k] == keys[1..][k - 1];
      FirstPresent(row, keys[1..])
  }

  /** Keys that are missing or empty before the one found are passed over. */
  lemma {:induction false} FirstPresentSkips(row: Row, keys: seq<String>, j: nat)
    requires j < |keys| && Usable(row, keys[j])
    requires forall k :: 0 <= k < j ==> !Usable(row, keys[k])
    ensures FirstPresent(row, keys) == Get(row, keys[j])
  {
    if j > 0 {
      assert forall k :: 0 <= k < j - 1 ==> keys[1..][k] == keys[k + 1];
      FirstPresentSkips(row, keys[1..], j - 1);
    }
  }

  method FindFirst(row: Row, keys: seq<String>) returns (r: Option<Cell>)
    ensures r == FirstPresent(row, keys)
  {
    r := None;
    var i := 0;
    while i < |keys|
      invariant 0 <= i <= |keys|
      invariant FirstPresent(row, keys[i..]) == FirstPresent(row, keys)
    {
      assert keys[i..][0] == keys[i] && keys[i..][1..] == keys[i + 1..];
      var cell := Get(row, keys[i]);
      if cell.Some? && NotNa(cell.value) {
        r := cell;
        return;
      }
      i := i + 1;
    }
  }

  /**
   * The first of `keys` present, not empty and readable as an integer: a
   * key whose cell does not parse is passed over (`except: continue`).
   */
  function FirstInt(row: Row, keys: seq<String>): (r: Option<int>)
    ensures r.Some? ==> exists k :: 0 <= k < |keys| && IntCell(row, keys[k]) == r
    ensures r.None? <==> forall k :: 0 <= k < |keys| ==> IntCell(row, keys[k]).None?
  {
    if keys == [] then None
    else if IntCell(row, keys[0]).Some? then IntCell(row, keys[0])
    else
      var r := FirstInt(row, keys[1..]);
      assert forall k :: 1 <= k < |keys| ==> keys[k] == keys[1..][k - 1];
      r
  }

  /** The integer read from a usable cell under `key`, None when there is none. */
  function IntCell(row: Row, key: String): Option<int> {
    if Usable(row, key) then CellInt(Get(row, key).value) else None
  }

  /** `int(float(value))` raises OverflowError: the cell is a text `float` reads as an infinity. */
  predicate Overflows(c: Cell) { c.Str? && IsInfinityText(c.s) }

  /**
   * Whether the lookup of `FirstInt` raises: it reaches a usable cell that
   * overflows before any cell that reads as an integer.  The lookup passes
   * over ValueError and TypeError only, not OverflowError.
   */
  function FirstIntRaises(row: Row, keys: seq<String>): bool {
    HitFirst(keys, OverflowsUnder(row), ReadsUnder(row))
  }

  /** The keys whose cell is usable and overflows. */
  function OverflowsUnder(row: Row): String -> bool {
    k => Usable(row, k) && Overflows(Get(row, k).value)
  }

  /** The keys whose cell reads as an integer. */
  function ReadsUnder(row: Row): String -> bool {
    k => IntCell(row, k).Some?
  }

  /** Walking the keys in order, one that `hit` holds for comes before any that `stop` holds for. */
  function HitFirst(keys: seq<String>, hit: String -> bool, stop: String -> bool): bool {
    if keys == [] then false
    else if hit(keys[0]) then true
    else if stop(keys[0]) then false
    else HitFirst(keys[1..], hit, stop)
  }

  /** `hit` holds at `keys[j]` and `stop` at no key before it. */
  predicate HitAt(keys: seq<String>, hit: String -> bool, stop: String -> bool, j: nat)
    requires j < |keys|
  {
    hit(keys[j]) && forall k :: 0 <= k < j ==> !stop(keys[k])
  }

  /** A hit with no stop before it is reached. */
  lemma {:induction false} HitAtHits(keys: seq<String>, hit: String -> bool, stop: String -> bool, j: nat)
    requires j < |keys| && HitAt(keys, hit, stop, j)
    ensures HitFirst(keys, hit, stop)
  {
    if j > 0 && !hit(keys[0]) {
      assert !stop(keys[0]);
      forall k | 0 <= k < j - 1
        ensures !stop(keys[1..][k])
      {
        assert keys[1..][k] == keys[k + 1];
      }
      assert keys[1..][j - 1] == keys[j];
      HitAtHits(keys[1..], hit, stop, j - 1);
    }
  }

  /** A walk that reaches a hit reaches it at a key with no stop before it. */
  lemma {:induction false} HitKey(keys: seq<String>, hit: String -> bool, stop: String -> bool) returns (j: nat)
    requires HitFirst(keys, hit, stop)
    ensures j < |keys| && HitAt(keys, hit, stop, j)
  {
    if hit(keys[0]) {
      j := 0;
    } else {
      var j' := HitKey(keys[1..], hit, stop);
      j := j' + 1;
      assert keys[j] == keys[1..][j'];
      forall k | 0 <= k < j
        ensures !stop(keys[k])
      {
        if k > 0 {
          assert keys[k] == keys[1..][k - 1];
        }
      }
    }
  }

  /** The total lookup: the integer found, or the OverflowError met first. */
  method FindFirstInt(row: Row, keys: seq<String>) returns (r: Outcome<Option<int>>)
    ensures r == if FirstIntRaises(row, keys) then Raised else Value(FirstInt(row, keys))
  {
    r := Value(None);
    var i := 0;
    while i < |keys|
      invariant 0 <= i <= |keys|
      invariant FirstInt(row, keys[i..]) == FirstInt(row, keys)
      invariant FirstIntRaises(row, keys[i..]) == FirstIntRaises(row, keys)
    {
      assert keys[i..][0] == keys[i] && keys[i..][1..] == keys[i + 1..];
      var cell := Get(row, keys[i]);
      if cell.Some? && NotNa(cell.value) {
        if Overflows(cell.value) {
          r := Raised;
          return;
        }
        var v := CellInt(cell.value);
        if v.Some? {
          r := Value(v);
          return;
        }
      }
      i := i + 1;
    }
  }
}
