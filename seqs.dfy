/** Positions of an element in a sequence: its first and its last occurrence. */
module Seqs {

  /** Index of the first occurrence of `x` in `s`. */
  function FirstIndex<T(==)>(s: seq<T>, x: T): (r: nat)
    requires x in s
    ensures r < |s| && s[r] == x
    ensures forall i :: 0 <= i < r ==> s[i] != x
  {
    if s[0] == x then 0 else 1 + FirstIndex(s[1..], x)
  }

  /** Index of the last occurrence of `x` in `s`. */
  function LastIndex<T(==)>(s: seq<T>, x: T): (r: nat)
    requires x in s
    ensures r < |s| && s[r] == x
    ensures forall i :: r < i < |s| ==> s[i] != x
  {
    if s[|s| - 1] == x then |s| - 1 else LastIndex(s[..|s| - 1], x)
  }

  lemma FirstIndexAppend<T>(s: seq<T>, x: T, y: T)
    requires y in s
    ensures y in s + [x] && FirstIndex(s + [x], y) == FirstIndex(s, y)
  {
    var a, b := FirstIndex(s + [x], y), FirstIndex(s, y);
    assert (s + [x])[b] == y;
  }

  lemma LastIndexAppend<T>(s: seq<T>, x: T, y: T)
    requires y in s + [x]
    ensures x == y ==> LastIndex(s + [x], y) == |s|
    ensures x != y ==> y in s && LastIndex(s + [x], y) == LastIndex(s, y)
  {
    if x != y {
      assert (s + [x])[|s|] != y;
      var a := LastIndex(s + [x], y);
      assert a < |s| && s[a] == y;
      var b := LastIndex(s, y);
      assert (s + [x])[b] == y;
    }
  }

  lemma LastIndexPrepend<T>(pre: seq<T>, s: seq<T>, y: T)
    requires y in s
    ensures y in pre + s && LastIndex(pre + s, y) == |pre| + LastIndex(s, y)
  {
    var a, b := LastIndex(pre + s, y), LastIndex(s, y);
    assert (pre + s)[|pre| + b] == y;
    assert |pre| <= a && s[a - |pre|] == y;
  }

  /** A non-empty sequence holds its first element. */
  lemma HeadIsMember<T>(s: seq<T>)
    ensures s != [] ==> s[0] in s
  {
  }
}
