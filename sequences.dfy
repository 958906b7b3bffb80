/**
 * Sequence helpers shared by the registries: the position of the first occurrence of an
 * element (what a list search with an iterator finds), erasing that position (std::list::erase),
 * and the sum of per-element counts (an accumulating loop).
 */
module Sequences {

  /** No element occurs twice. */
  ghost predicate NoDuplicates<T>(s: seq<T>)
  {
    forall i, j :: 0 <= i < j < |s| ==> s[i] != s[j]
  }

  /** Index of the first occurrence of x in s, or |s| when x does not occur. */
  function FirstIndex<T(==)>(s: seq<T>, x: T): (i: nat)
    ensures i <= |s|
    ensures i < |s| <==> x in s
    ensures i < |s| ==> s[i] == x
    ensures forall j :: 0 <= j < i ==> s[j] != x
  {
    if s == [] then 0
    else if s[0] == x then 0
    else 1 + FirstIndex(s[1..], x)
  }

  /** s with position i erased. */
  function Without<T>(s: seq<T>, i: nat): seq<T>
    requires i < |s|
  {
    s[..i] + s[i + 1..]
  }

  /** In a + [x] + b where a does not hold x, the first x is the one right after a. */
  lemma FirstIndexPastPrefix<T>(a: seq<T>, x: T, b: seq<T>)
    requires x !in a
    ensures FirstIndex(a + [x] + b, x) == |a|
  {
    var s := a + [x] + b;
    assert s[|a|] == x;
    assert forall j :: 0 <= j < |a| ==> s[j] == a[j];
  }

  /** Erasing the only occurrence of x leaves exactly the other elements, still without duplicates. */
  lemma WithoutOnlyOccurrence<T>(s: seq<T>, x: T)
    requires NoDuplicates(s) && x in s
    ensures |Without(s, FirstIndex(s, x))| == |s| - 1
    ensures NoDuplicates(Without(s, FirstIndex(s, x)))
    ensures forall y :: y in Without(s, FirstIndex(s, x)) <==> y in s && y != x
  {
    var i := FirstIndex(s, x);
    var r := Without(s, i);
    assert forall k :: 0 <= k < |r| ==> r[k] == s[if k < i then k else k + 1];
    forall a, b | 0 <= a < b < |r|
      ensures r[a] != r[b]
    {
      assert r[a] == s[if a < i then a else a + 1];
      assert r[b] == s[if b < i then b else b + 1];
    }
    forall y | y in r
      ensures y in s && y != x
    {
      var k :| 0 <= k < |r| && r[k] == y;
      assert r[k] == s[if k < i then k else k + 1];
    }
    forall y | y in s && y != x
      ensures y in r
    {
      var k :| 0 <= k < |s| && s[k] == y;
      assert k != i;
      var j := if k < i then k else k - 1;
      assert r[j] == s[k];
    }
  }

  /**
   * Searches s from the front for x and erases the first position holding it, as the removal
   * loops of the component do with an iterator; removed tells whether x was found.
   */
  method EraseFirst<T(==)>(s: seq<T>, x: T) returns (r: seq<T>, removed: bool)
    ensures removed <==> x in s
    ensures removed ==> r == Without(s, FirstIndex(s, x))
    ensures !removed ==> r == s
  {
    var i := 0;
    while i < |s|
      invariant 0 <= i <= |s|
      invariant forall j :: 0 <= j < i ==> s[j] != x
    {
      if s[i] == x {
        return s[..i] + s[i + 1..], true;
      }
      i := i + 1;
    }
    return s, false;
  }

  /** Sum of count over the elements of s, front to back. */
  function Total<T>(s: seq<T>, count: T -> nat): nat
  {
    if s == [] then 0 else count(s[0]) + Total(s[1..], count)
  }

  /** Totals add up over concatenation, so one more element adds exactly its own count. */
  lemma {:induction false} TotalConcat<T>(a: seq<T>, b: seq<T>, count: T -> nat)
    ensures Total(a + b, count) == Total(a, count) + Total(b, count)
  {
    if a == [] {
      assert a + b == b;
    } else {
      assert (a + b)[1..] == a[1..] + b;
      TotalConcat(a[1..], b, count);
    }
  }

  /** A list without duplicates has as many elements as the set of its elements. */
  lemma {:induction false} DistinctCard<T>(s: seq<T>)
    requires NoDuplicates(s)
    ensures |set x | x in s| == |s|
  {
    if s != [] {
      DistinctCard(s[1..]);
      assert (set x | x in s) == (set x | x in s[1..]) + {s[0]};
      assert s[0] !in (set x | x in s[1..]);
    }
  }
}
