/** The stable sort behind every list view (`Array.prototype.sort` with a
    comparator), over a three-part lexicographic key. */
module Sorting {

  /** A sort key compared lexicographically: `major`, then `middle`, then `minor`. */
  datatype Key = Key(major: int, middle: int, minor: int)

  predicate KeyLe(a: Key, b: Key)
  {
    || a.major < b.major
    || (a.major == b.major && a.middle < b.middle)
    || (a.major == b.major && a.middle == b.middle && a.minor <= b.minor)
  }

  /** Every element's key is at most every later element's key. */
  ghost predicate SortedBy<T>(s: seq<T>, key: T -> Key)
  {
    forall i, j :: 0 <= i < j < |s| ==> KeyLe(key(s[i]), key(s[j]))
  }

  /** `x` inserted into `s` before the first element whose key is not smaller,
      so that equal keys keep their input order. */
  function Insert<T>(x: T, s: seq<T>, key: T -> Key): (r: seq<T>)
    requires SortedBy(s, key)
    ensures SortedBy(r, key)
    ensures multiset(r) == multiset(s) + multiset{x}
    ensures |r| == |s| + 1
  {
    if |s| == 0 || KeyLe(key(x), key(s[0])) then [x] + s
    else
      var rest := Insert(x, s[1..], key);
      assert s == [s[0]] + s[1..];
      LowerBoundKept(key(s[0]), x, s[1..], rest, key);
      [s[0]] + rest
  }

  /** A key below `x` and below every element of `s` is below every element
      of any rearrangement of `s` plus `x`. */
  lemma LowerBoundKept<T>(b: Key, x: T, s: seq<T>, r: seq<T>, key: T -> Key)
    requires KeyLe(b, key(x))
    requires forall i :: 0 <= i < |s| ==> KeyLe(b, key(s[i]))
    requires multiset(r) == multiset(s) + multiset{x}
    ensures forall k :: 0 <= k < |r| ==> KeyLe(b, key(r[k]))
  {
    forall k | 0 <= k < |r|
      ensures KeyLe(b, key(r[k]))
    {
      assert r[k] in multiset(r);
      if r[k] != x {
        assert r[k] in multiset(s);
        var i :| 0 <= i < |s| && s[i] == r[k];
      }
    }
  }

  /** Insertion sort by `key`: a sorted permutation of `s`. */
  function SortByKey<T>(s: seq<T>, key: T -> Key): (r: seq<T>)
    ensures SortedBy(r, key)
    ensures multiset(r) == multiset(s)
    ensures |r| == |s|
  {
    if |s| == 0 then []
    else
      assert s == [s[0]] + s[1..];
      Insert(s[0], SortByKey(s[1..], key), key)
  }
}
