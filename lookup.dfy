/**
 * `Array.prototype.find` and `findIndex` with a strict-equality test on an id:
 * the FIRST element whose id matches is the one found, so when ids collide the
 * later elements with that id are never reached.
 */
module Lookup {

  /** The index of the first element of s whose key is target, or -1. */
  function FindIndex<T>(s: seq<T>, key: T -> string, target: string): (r: int)
    ensures -1 <= r < |s|
    ensures r == -1 <==> forall j :: 0 <= j < |s| ==> key(s[j]) != target
    ensures 0 <= r ==> key(s[r]) == target
    ensures 0 <= r ==> forall j :: 0 <= j < r ==> key(s[j]) != target
  {
    if s == [] then -1
    else if key(s[0]) == target then 0
    else
      var k := FindIndex(s[1..], key, target);
      if k == -1 then -1 else k + 1
  }

  /** The search sees only the keys: sequences with the same keys, position by
      position, give the same answer. */
  lemma {:induction false} FindIndexSeesOnlyKeys<T>(a: seq<T>, b: seq<T>, key: T -> string, target: string)
    requires |a| == |b|
    requires forall i :: 0 <= i < |a| ==> key(a[i]) == key(b[i])
    ensures FindIndex(a, key, target) == FindIndex(b, key, target)
  {
    if a != [] && key(a[0]) != target {
      FindIndexSeesOnlyKeys(a[1..], b[1..], key, target);
    }
  }
}
