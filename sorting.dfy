/**
 * Python's `sorted` (and `list.sort`), which is a stable sort: a sequence is
 * ordered by a comparison `le` that is a total preorder, and elements that
 * compare equal keep their relative order.  With `reverse=True` Python still
 * keeps equal elements in their original order, which is the same stable
 * sort under the reversed comparison.
 */
module Sorting {

  ghost predicate Transitive<T(!new)>(le: (T, T) -> bool) {
    forall a, b, c :: le(a, b) && le(b, c) ==> le(a, c)
  }

  ghost predicate Total<T(!new)>(le: (T, T) -> bool) {
    forall a, b :: le(a, b) || le(b, a)
  }

  predicate Sorted<T>(s: seq<T>, le: (T, T) -> bool) {
    forall i, j :: 0 <= i < j < |s| ==> le(s[i], s[j])
  }

  predicate Equiv<T>(le: (T, T) -> bool, a: T, b: T) {
    le(a, b) && le(b, a)
  }

  /** Inserts `x` after every element of `t` that is not greater than it. */
  function Insert<T>(t: seq<T>, x: T, le: (T, T) -> bool): (r: seq<T>)
    ensures multiset(r) == multiset(t) + multiset{x}
    ensures |r| == |t| + 1
  {
    if t == [] then [x]
    else if le(t[|t| - 1], x) then t + [x]
    else
      assert t == t[..|t| - 1] + [t[|t| - 1]];
      Insert(t[..|t| - 1], x, le) + [t[|t| - 1]]
  }

  /** Stable insertion sort. */
  function Sort<T>(s: seq<T>, le: (T, T) -> bool): (r: seq<T>)
    ensures multiset(r) == multiset(s)
    ensures |r| == |s|
  {
    if s == [] then []
    else
      assert s == s[..|s| - 1] + [s[|s| - 1]];
      Insert(Sort(s[..|s| - 1], le), s[|s| - 1], le)
  }

  lemma {:induction false} InsertSorted<T(!new)>(t: seq<T>, x: T, le: (T, T) -> bool)
    requires Total(le) && Transitive(le)
    requires Sorted(t, le)
    ensures Sorted(Insert(t, x, le), le)
  {
    if t == [] || le(t[|t| - 1], x) {
    } else {
      var t' := t[..|t| - 1];
      var last := t[|t| - 1];
      InsertSorted(t', x, le);
      var u := Insert(t', x, le);
      assert multiset(u) == multiset(t') + multiset{x};
      forall i | 0 <= i < |u|
        ensures le(u[i], last)
      {
        assert u[i] in multiset(u);
        if u[i] != x {
          assert u[i] in multiset(t');
          var k :| 0 <= k < |t'| && t'[k] == u[i];
          assert t[k] == u[i];
        }
      }
    }
  }

  lemma {:induction false} SortSorted<T(!new)>(s: seq<T>, le: (T, T) -> bool)
    requires Total(le) && Transitive(le)
    ensures Sorted(Sort(s, le), le)
  {
    if s != [] {
      SortSorted(s[..|s| - 1], le);
      InsertSorted(Sort(s[..|s| - 1], le), s[|s| - 1], le);
    }
  }

  /** The elements of `s` equivalent to `y`, in order. */
  function Class<T>(s: seq<T>, y: T, le: (T, T) -> bool): seq<T> {
    if s == [] then []
    else Class(s[..|s| - 1], y, le) + (if Equiv(le, s[|s| - 1], y) then [s[|s| - 1]] else [])
  }

  lemma {:induction false} ClassAppend<T>(a: seq<T>, b: seq<T>, y: T, le: (T, T) -> bool)
    ensures Class(a + b, y, le) == Class(a, y, le) + Class(b, y, le)
  {
    if b != [] {
      assert (a + b)[..|a + b| - 1] == a + b[..|b| - 1];
      ClassAppend(a, b[..|b| - 1], y, le);
    } else {
      assert a + b == a;
    }
  }

  lemma {:induction false} InsertClass<T(!new)>(t: seq<T>, x: T, y: T, le: (T, T) -> bool)
    requires Transitive(le)
    ensures Class(Insert(t, x, le), y, le) == Class(t, y, le) + (if Equiv(le, x, y) then [x] else [])
  {
    if t == [] {
    } else if le(t[|t| - 1], x) {
      ClassAppend(t, [x], y, le);
    } else {
      var t' := t[..|t| - 1];
      var last := t[|t| - 1];
      InsertClass(t', x, y, le);
      ClassAppend(Insert(t', x, le), [last], y, le);
      if Equiv(le, x, y) {
        assert !Equiv(le, last, y);
      }
    }
  }

  /** Sorting keeps the relative order of every class of equivalent elements. */
  lemma {:induction false} SortStable<T(!new)>(s: seq<T>, y: T, le: (T, T) -> bool)
    requires Transitive(le)
    ensures Class(Sort(s, le), y, le) == Class(s, y, le)
  {
    if s != [] {
      SortStable(s[..|s| - 1], y, le);
      InsertClass(Sort(s[..|s| - 1], le), s[|s| - 1], y, le);
    }
  }
}
