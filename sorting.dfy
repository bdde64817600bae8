/**
 * The listing handler orders stored arrays with Array.prototype.sort and a
 * comparator that subtracts timestamps (newest first). The model stands in for
 * that library sort with an insertion sort on sequences and proves what the
 * handler relies on: the result is ordered by the key, newest first, and is a
 * permutation of the input.
 */
module Sorting {

  /** Every element's key is at least the key of every element after it. */
  predicate SortedDesc<T>(s: seq<T>, key: T -> int)
  {
    forall i, j :: 0 <= i < j < |s| ==> key(s[i]) >= key(s[j])
  }

  /** Puts x in front of the first element whose key is smaller than x's. */
  function Insert<T(==)>(x: T, s: seq<T>, key: T -> int): (r: seq<T>)
    requires SortedDesc(s, key)
    ensures multiset(r) == multiset(s) + multiset{x}
    ensures SortedDesc(r, key)
  {
    if s == [] || key(x) >= key(s[0]) then
      PrependSorted(x, s, key);
      [x] + s
    else
      var rest := Insert(x, s[1..], key);
      assert s == [s[0]] + s[1..];
      assert forall y :: y in rest ==> key(s[0]) >= key(y) by {
        forall y | y in rest ensures key(s[0]) >= key(y) {
          assert y in multiset(rest);
          assert y == x || y in s[1..];
        }
      }
      PrependSorted(s[0], rest, key);
      [s[0]] + rest
  }

  /** Putting in front an element whose key bounds the rest keeps the order. */
  lemma PrependSorted<T>(h: T, s: seq<T>, key: T -> int)
    requires SortedDesc(s, key)
    requires forall y :: y in s ==> key(h) >= key(y)
    ensures SortedDesc([h] + s, key)
  {
    var r := [h] + s;
    forall i, j | 0 <= i < j < |r| ensures key(r[i]) >= key(r[j]) {
      if i == 0 {
        assert r[j] == s[j - 1];
      }
    }
  }

  /** Orders s by key, largest key first; equal keys keep their input order. */
  function SortDesc<T(==)>(s: seq<T>, key: T -> int): (r: seq<T>)
    ensures multiset(r) == multiset(s)
    ensures |r| == |s|
    ensures SortedDesc(r, key)
  {
    if s == [] then []
    else
      assert s == [s[0]] + s[1..];
      Insert(s[0], SortDesc(s[1..], key), key)
  }
}
