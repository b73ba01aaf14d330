/** Generic facts about sequences used by the company index and the series projection. */
module Sequences {

  /** No element occurs twice in `s`. */
  predicate NoDuplicates<T(==)>(s: seq<T>) {
    forall i, j :: 0 <= i < j < |s| ==> s[i] != s[j]
  }

  /** Every element of `s` is smaller than the one after it. */
  predicate StrictlyIncreasing(s: seq<int>) {
    forall i, j :: 0 <= i < j < |s| ==> s[i] < s[j]
  }

  /** The position of the first occurrence of `x` in `s`. */
  function FirstIndex<T(==)>(s: seq<T>, x: T): (i: nat)
    requires x in s
    ensures i < |s| && s[i] == x
    ensures forall j :: 0 <= j < i ==> s[j] != x
  {
    if s[0] == x then 0 else 1 + FirstIndex(s[1..], x)
  }

  /** Appending an element does not move the first occurrence of an element already present. */
  lemma FirstIndexSnocOld<T>(s: seq<T>, y: T, x: T)
    requires x in s
    ensures FirstIndex(s + [y], x) == FirstIndex(s, x)
  {
    var i, k := FirstIndex(s + [y], x), FirstIndex(s, x);
    assert (s + [y])[k] == x;
    assert (s + [y])[i] == s[i];
  }

  /** An element that is new to `s` first occurs at the appended position. */
  lemma FirstIndexSnocNew<T>(s: seq<T>, y: T)
    requires y !in s
    ensures FirstIndex(s + [y], y) == |s|
  {
  }

  /** The first element of a non-empty sequence is one of its members. */
  lemma HeadIsMember<T>(s: seq<T>)
    ensures |s| > 0 ==> s[0] in s
  {
  }
}
