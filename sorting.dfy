/** `Array.prototype.sort(compare)`, which ECMAScript requires to be stable:
    modelled as a stable insertion sort under the caller's comparator.
    A comparator says `a` may come before `b` when `compare(a, b) <= 0`. */
module Sorting {

  /** Every adjacent and non-adjacent pair is in comparator order. */
  ghost predicate SortedBy<T>(s: seq<T>, compare: (T, T) -> int) {
    forall i, j :: 0 <= i < j < |s| ==> compare(s[i], s[j]) <= 0
  }

  /** The comparator behaves like a consistent total preorder (what `Intl.Collator.compare` and a
      length comparison provide). */
  ghost predicate TotalPreorder<T(!new)>(compare: (T, T) -> int) {
    && (forall a, b :: compare(a, b) <= 0 || compare(b, a) <= 0)
    && (forall a, b, c :: compare(a, b) <= 0 && compare(b, c) <= 0 ==> compare(a, c) <= 0)
  }

  /** Puts `x` in front of the first element it may precede; earlier equal elements stay in front. */
  function Insert<T>(x: T, s: seq<T>, compare: (T, T) -> int): (r: seq<T>)
    ensures multiset(r) == multiset(s) + multiset{x}
    ensures |r| == |s| + 1
  {
    if s == [] then [x]
    else if compare(x, s[0]) <= 0 then [x] + s
    else
      var rest := Insert(x, s[1..], compare);
      assert s == [s[0]] + s[1..];
      [s[0]] + rest
  }

  /** Stable sort: the first element is inserted into the sorted rest ahead of every element equal to it. */
  function Sort<T>(s: seq<T>, compare: (T, T) -> int): (r: seq<T>)
    ensures multiset(r) == multiset(s)
    ensures |r| == |s|
  {
    if s == [] then []
    else
      var rest := Sort(s[1..], compare);
      assert s == [s[0]] + s[1..];
      Insert(s[0], rest, compare)
  }

  /** `y` may precede every element of `s`. */
  ghost predicate LowerBound<T>(y: T, s: seq<T>, compare: (T, T) -> int) {
    forall k :: 0 <= k < |s| ==> compare(y, s[k]) <= 0
  }

  lemma {:induction false} InsertKeepsBound<T>(y: T, x: T, s: seq<T>, compare: (T, T) -> int)
    requires LowerBound(y, s, compare) && compare(y, x) <= 0
    ensures LowerBound(y, Insert(x, s, compare), compare)
  {
    if s != [] && compare(x, s[0]) > 0 {
      InsertKeepsBound(y, x, s[1..], compare);
    }
  }

  lemma {:induction false} InsertSorted<T(!new)>(x: T, s: seq<T>, compare: (T, T) -> int)
    requires TotalPreorder(compare)
    requires SortedBy(s, compare)
    ensures SortedBy(Insert(x, s, compare), compare)
  {
    if s != [] {
      SortedSplit(s, compare);
      if compare(x, s[0]) <= 0 {
        BoundThroughFirst(x, s, compare);
        SortedCons(x, s, compare);
      } else {
        InsertSorted(x, s[1..], compare);
        assert compare(s[0], x) <= 0;
        InsertKeepsBound(s[0], x, s[1..], compare);
        SortedCons(s[0], Insert(x, s[1..], compare), compare);
      }
    }
  }

  /** A sorted sequence is its first element, a lower bound, in front of a sorted rest. */
  lemma SortedSplit<T>(s: seq<T>, compare: (T, T) -> int)
    requires s != [] && SortedBy(s, compare)
    ensures LowerBound(s[0], s[1..], compare) && SortedBy(s[1..], compare)
  {
    assert forall k :: 0 <= k < |s[1..]| ==> s[1..][k] == s[k + 1];
  }

  /** What may precede the first element of a sorted sequence may precede all of it. */
  lemma BoundThroughFirst<T(!new)>(x: T, s: seq<T>, compare: (T, T) -> int)
    requires TotalPreorder(compare) && s != [] && compare(x, s[0]) <= 0
    requires LowerBound(s[0], s[1..], compare)
    ensures LowerBound(x, s, compare)
  {
    forall k | 0 <= k < |s| ensures compare(x, s[k]) <= 0 {
      if k > 0 { assert s[k] == s[1..][k - 1]; }
    }
  }

  /** A lower bound in front of a sorted sequence keeps it sorted. */
  lemma SortedCons<T>(h: T, t: seq<T>, compare: (T, T) -> int)
    requires LowerBound(h, t, compare) && SortedBy(t, compare)
    ensures SortedBy([h] + t, compare)
  {
    var r := [h] + t;
    forall i, j | 0 <= i < j < |r| ensures compare(r[i], r[j]) <= 0 {
      assert r[j] == t[j - 1];
      if i > 0 { assert r[i] == t[i - 1]; }
    }
  }

  /** Under a consistent comparator the sort puts the elements in order. */
  lemma {:induction false} SortSorted<T(!new)>(s: seq<T>, compare: (T, T) -> int)
    requires TotalPreorder(compare)
    ensures SortedBy(Sort(s, compare), compare)
  {
    if s != [] {
      SortSorted(s[1..], compare);
      InsertSorted(s[0], Sort(s[1..], compare), compare);
    }
  }
}
