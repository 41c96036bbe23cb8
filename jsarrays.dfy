/** The two JavaScript array operations that `destroyPlatform` and
    `destroyPlayer` combine: `indexOf` (identity search, -1 when absent) and
    `splice(start, 1)` (a negative start counts from the end). */
module JsArrays {
  /** No element occurs twice. */
  predicate Distinct<T(==)>(s: seq<T>) {
    forall i, j :: 0 <= i < j < |s| ==> s[i] != s[j]
  }

  /** `Array.prototype.indexOf`: the first index holding `x`, or -1. */
  function IndexOf<T(==)>(s: seq<T>, x: T): (i: int)
    ensures -1 <= i < |s|
    ensures i == -1 <==> x !in s
    ensures 0 <= i ==> s[i] == x
    ensures forall j :: 0 <= j < i ==> s[j] != x
  {
    if s == [] then -1
    else if s[0] == x then 0
    else
      var j := IndexOf(s[1..], x);
      if j == -1 then -1 else j + 1
  }

  /** Where `splice(start, ...)` starts removing, for an array of length `len`. */
  function SpliceStart(len: nat, start: int): (a: nat)
    ensures a <= len
    ensures 0 <= start <= len ==> a == start
    ensures start < 0 && len + start >= 0 ==> a == len + start
  {
    if start < 0 then (if len + start < 0 then 0 else len + start)
    else if start > len then len
    else start
  }

  /** `s.splice(start, 1)`, returning the array that is left. */
  function SpliceOne<T>(s: seq<T>, start: int): seq<T> {
    var a := SpliceStart(|s|, start);
    if a < |s| then s[..a] + s[a + 1..] else s
  }

  /** `s.splice(s.indexOf(x), 1)`: removes the first `x`; when `x` is absent it
      removes the LAST element (`indexOf` gives -1), and leaves an empty array
      empty. */
  function RemoveByIdentity<T(==)>(s: seq<T>, x: T): (r: seq<T>)
    ensures x in s ==> r == s[..IndexOf(s, x)] + s[IndexOf(s, x) + 1..]
    ensures x in s ==> |r| == |s| - 1
    ensures x !in s && s != [] ==> r == s[..|s| - 1]
    ensures s == [] ==> r == []
    ensures multiset(r) <= multiset(s)
  {
    var r := SpliceOne(s, IndexOf(s, x));
    var a := SpliceStart(|s|, IndexOf(s, x));
    assert a < |s| ==> s == s[..a] + [s[a]] + s[a + 1..];
    r
  }

  /** Dropping index `a` from a distinct sequence keeps it distinct and drops
      the only occurrence of `s[a]`. */
  lemma DistinctWithout<T>(s: seq<T>, a: nat)
    requires Distinct(s) && a < |s|
    ensures Distinct(s[..a] + s[a + 1..])
    ensures s[a] !in s[..a] + s[a + 1..]
  {
    var r := s[..a] + s[a + 1..];
    // each element of r sits at its own index of s
    assert forall i | 0 <= i < |r| :: r[i] == s[if i < a then i else i + 1];
  }

  /** Removing preserves distinctness, and a removed element that was present
      is gone afterwards. */
  lemma RemovePreservesDistinct<T>(s: seq<T>, x: T)
    requires Distinct(s)
    ensures Distinct(RemoveByIdentity(s, x))
    ensures x in s ==> x !in RemoveByIdentity(s, x)
  {
    if s != [] {
      var a := SpliceStart(|s|, IndexOf(s, x));
      assert RemoveByIdentity(s, x) == s[..a] + s[a + 1..];
      DistinctWithout(s, a);
    }
  }
}
