/**
 * `sorted(set(xs))` over integers: the distinct values of a list in
 * increasing order, the one strictly increasing list holding exactly them.
 */
module SortedSet {

  predicate Increasing(xs: seq<int>) {
    forall i, j :: 0 <= i < j < |xs| ==> xs[i] < xs[j]
  }

  function Elements(xs: seq<int>): set<int> {
    set x | x in xs
  }

  /** `x` put in its place in an increasing list, unless already there. */
  function Insert(xs: seq<int>, x: int): (r: seq<int>)
    requires Increasing(xs)
    ensures Increasing(r)
    ensures forall y :: y in r <==> y in xs || y == x
  {
    if xs == [] then [x]
    else if x < xs[0] then [x] + xs
    else if x == xs[0] then xs
    else
      var rest := Insert(xs[1..], x);
      forall k | 0 <= k < |rest|
        ensures xs[0] < rest[k]
      {
        assert rest[k] in rest;
      }
      [xs[0]] + rest
  }

  /** `sorted(set(xs))`. */
  function SortedDistinct(xs: seq<int>): (r: seq<int>)
    ensures Increasing(r)
    ensures forall y :: y in r <==> y in xs
  {
    if xs == [] then []
    else Insert(SortedDistinct(xs[..|xs| - 1]), xs[|xs| - 1])
  }

  lemma NoElements(xs: seq<int>)
    ensures xs == [] <==> Elements(xs) == {}
  {
    if xs != [] {
      assert xs[0] in Elements(xs);
    }
  }

  /** An increasing list is determined by its elements. */
  lemma {:induction false} IncreasingUnique(a: seq<int>, b: seq<int>)
    requires Increasing(a) && Increasing(b)
    requires forall y :: y in a <==> y in b
    ensures a == b
  {
    if a == [] || b == [] {
      NoElements(a);
      NoElements(b);
      assert forall y :: y in Elements(a) <==> y in Elements(b);
    } else {
      assert a[0] in a && b[0] in b;
      var j :| 0 <= j < |b| && b[j] == a[0];
      var i :| 0 <= i < |a| && a[i] == b[0];
      assert b[0] <= a[0] && a[0] <= b[0];
      forall y
        ensures y in a[1..] <==> y in b[1..]
      {
        if y in a[1..] {
          assert a[0] < y;
          assert y in b;
        }
        if y in b[1..] {
          assert b[0] < y;
          assert y in a;
        }
      }
      IncreasingUnique(a[1..], b[1..]);
      assert a == [a[0]] + a[1..] && b == [b[0]] + b[1..];
    }
  }

  /** An increasing list has as many entries as distinct values. */
  lemma {:induction false} IncreasingCard(xs: seq<int>)
    requires Increasing(xs)
    ensures |xs| == |Elements(xs)|
  {
    if xs != [] {
      var init := xs[..|xs| - 1];
      IncreasingCard(init);
      assert Elements(xs) == Elements(init) + {xs[|xs| - 1]};
      assert xs[|xs| - 1] !in Elements(init);
    }
  }

  /** The number of distinct values of `xs` is the length of `sorted(set(xs))`. */
  lemma DistinctCount(xs: seq<int>)
    ensures |SortedDistinct(xs)| == |Elements(xs)|
  {
    var r := SortedDistinct(xs);
    IncreasingCard(r);
    assert Elements(r) == Elements(xs);
  }
}
