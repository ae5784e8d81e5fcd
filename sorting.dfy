/** Insertion sort, the outcome of JavaScript's stable `Array.prototype.sort`
    for a consistent comparator. `before(x, y)` says that `x` must be placed
    ahead of `y` (the comparator returned a positive number for `(y, x)`);
    elements for which neither holds keep their relative order. */
module Sorting {

  /** No element must come after an element that it should precede. */
  ghost predicate Sorted<T>(s: seq<T>, before: (T, T) -> bool)
  {
    forall i, j :: 0 <= i < j < |s| ==> !before(s[j], s[i])
  }

  /** The conditions under which a comparator defines an ordering. */
  ghost predicate StrictWeakOrder<T(!new)>(before: (T, T) -> bool)
  {
    && (forall x :: !before(x, x))
    && (forall x, y, z :: before(x, y) && before(y, z) ==> before(x, z))
    && (forall x, y, z :: !before(x, y) && !before(y, z) ==> !before(x, z))
  }

  /** A strict weak order under which only equal elements are incomparable. */
  ghost predicate StrictTotalOrder<T(!new)>(before: (T, T) -> bool)
  {
    && StrictWeakOrder(before)
    && (forall x, y :: x != y ==> before(x, y) || before(y, x))
  }

  /** Insert `x` into `s` from the back: it moves ahead of every trailing
      element that it must precede, and stops at the first one it need not. */
  function Insert<T>(s: seq<T>, x: T, before: (T, T) -> bool): (r: seq<T>)
    ensures |r| == |s| + 1
  {
    if s == [] || !before(x, s[|s| - 1]) then s + [x]
    else Insert(s[..|s| - 1], x, before) + [s[|s| - 1]]
  }

  function SortSeq<T>(s: seq<T>, before: (T, T) -> bool): (r: seq<T>)
    ensures |r| == |s|
  {
    if s == [] then [] else Insert(SortSeq(s[..|s| - 1], before), s[|s| - 1], before)
  }

  lemma {:induction false} InsertPermutes<T>(s: seq<T>, x: T, before: (T, T) -> bool)
    ensures multiset(Insert(s, x, before)) == multiset(s) + multiset{x}
  {
    if s != [] && before(x, s[|s| - 1]) {
      InsertPermutes(s[..|s| - 1], x, before);
      assert s == s[..|s| - 1] + [s[|s| - 1]];
    }
  }

  /** Sorting only rearranges: the result is a permutation of the input. */
  lemma {:induction false} SortSeqPermutes<T>(s: seq<T>, before: (T, T) -> bool)
    ensures multiset(SortSeq(s, before)) == multiset(s)
  {
    if s != [] {
      SortSeqPermutes(s[..|s| - 1], before);
      InsertPermutes(SortSeq(s[..|s| - 1], before), s[|s| - 1], before);
      assert s == s[..|s| - 1] + [s[|s| - 1]];
    }
  }

  lemma {:induction false} InsertSorted<T(!new)>(s: seq<T>, x: T, before: (T, T) -> bool)
    requires StrictWeakOrder(before) && Sorted(s, before)
    ensures Sorted(Insert(s, x, before), before)
  {
    if s == [] || !before(x, s[|s| - 1]) {
      var r := s + [x];
      forall i, j | 0 <= i < j < |r| ensures !before(r[j], r[i]) {
        if j == |s| && i < |s| - 1 {
          assert !before(x, s[|s| - 1]) && !before(s[|s| - 1], s[i]);
        }
      }
    } else {
      var last := s[|s| - 1];
      var p := s[..|s| - 1];
      InsertSorted(p, x, before);
      InsertPermutes(p, x, before);
      var q := Insert(p, x, before);
      forall k | 0 <= k < |q| ensures !before(last, q[k]) {
        assert q[k] in multiset(q);
        if q[k] != x {
          assert q[k] in multiset(p);
          var i :| 0 <= i < |p| && p[i] == q[k];
          assert s[i] == q[k];
        }
      }
    }
  }

  /** The result of sorting is sorted, for any comparator that orders. */
  lemma {:induction false} SortSeqSorted<T(!new)>(s: seq<T>, before: (T, T) -> bool)
    requires StrictWeakOrder(before)
    ensures Sorted(SortSeq(s, before), before)
  {
    if s != [] {
      SortSeqSorted(s[..|s| - 1], before);
      InsertSorted(SortSeq(s[..|s| - 1], before), s[|s| - 1], before);
    }
  }

  /** A comparator that never asks to move anything leaves the order alone. */
  lemma {:induction false} SortSeqUnmoved<T>(s: seq<T>, before: (T, T) -> bool)
    requires forall x, y :: !before(x, y)
    ensures SortSeq(s, before) == s
  {
    if s != [] {
      SortSeqUnmoved(s[..|s| - 1], before);
      assert s == s[..|s| - 1] + [s[|s| - 1]];
    }
  }

  /** Under a strict total order, two sorted sequences with the same elements
      are the same sequence. */
  lemma {:induction false} SortedUnique<T(!new)>(s: seq<T>, t: seq<T>, before: (T, T) -> bool)
    requires StrictTotalOrder(before)
    requires Sorted(s, before) && Sorted(t, before)
    requires multiset(s) == multiset(t)
    ensures s == t
  {
    if s != [] {
      assert t != [] by { assert s[0] in multiset(t); }
      SortedHead(s, t, before);
      assert s == [s[0]] + s[1..] && t == [t[0]] + t[1..];
      assert multiset(s) == multiset{s[0]} + multiset(s[1..]);
      assert multiset(t) == multiset{t[0]} + multiset(t[1..]);
      assert multiset(s[1..]) == multiset(s) - multiset{s[0]};
      assert multiset(t[1..]) == multiset(t) - multiset{t[0]};
      SortedTail(s, before);
      SortedTail(t, before);
      SortedUnique(s[1..], t[1..], before);
    }
  }

  /** Two sorted arrangements of the same elements start with the same one. */
  lemma SortedHead<T(!new)>(s: seq<T>, t: seq<T>, before: (T, T) -> bool)
    requires StrictTotalOrder(before)
    requires Sorted(s, before) && Sorted(t, before)
    requires multiset(s) == multiset(t) && s != [] && t != []
    ensures s[0] == t[0]
  {
    assert s[0] in multiset(t) && t[0] in multiset(s);
    var k :| 0 <= k < |t| && t[k] == s[0];
    var m :| 0 <= m < |s| && s[m] == t[0];
  }

  lemma SortedTail<T>(s: seq<T>, before: (T, T) -> bool)
    requires Sorted(s, before) && s != []
    ensures Sorted(s[1..], before)
  {
    forall i, j | 0 <= i < j < |s[1..]|
      ensures !before(s[1..][j], s[1..][i])
    {
      assert s[1..][j] == s[j + 1] && s[1..][i] == s[i + 1];
    }
  }

  /** Sorting under a strict total order depends only on the elements, not
      on the order they came in. */
  lemma SortSeqCanonical<T(!new)>(s: seq<T>, t: seq<T>, before: (T, T) -> bool)
    requires StrictTotalOrder(before)
    requires multiset(s) == multiset(t)
    ensures SortSeq(s, before) == SortSeq(t, before)
  {
    SortSeqSorted(s, before);
    SortSeqSorted(t, before);
    SortSeqPermutes(s, before);
    SortSeqPermutes(t, before);
    SortedUnique(SortSeq(s, before), SortSeq(t, before), before);
  }

  /** No element occurs twice. */
  predicate Distinct<T(==)>(s: seq<T>)
  {
    forall i, j :: 0 <= i < j < |s| ==> s[i] != s[j]
  }

  lemma {:induction false} DistinctCount<T>(s: seq<T>, x: T)
    requires Distinct(s)
    ensures multiset(s)[x] <= 1
  {
    if s != [] {
      assert s == [s[0]] + s[1..];
      assert multiset(s) == multiset{s[0]} + multiset(s[1..]);
      DistinctCount(s[1..], x);
      if s[0] == x {
        assert x !in s[1..];
      }
    }
  }

  lemma RepeatCount<T>(s: seq<T>, i: nat, j: nat)
    requires i < j < |s| && s[i] == s[j]
    ensures multiset(s)[s[i]] >= 2
  {
    assert s == s[..i] + [s[i]] + s[i + 1..j] + [s[j]] + s[j + 1..];
    assert multiset(s) == multiset(s[..i]) + multiset{s[i]} + multiset(s[i + 1..j]) + multiset{s[j]} + multiset(s[j + 1..]);
  }

  /** A rearrangement of a sequence without repeats has no repeats. */
  lemma PermutationDistinct<T>(s: seq<T>, t: seq<T>)
    requires multiset(s) == multiset(t) && Distinct(t)
    ensures Distinct(s)
  {
    forall i, j | 0 <= i < j < |s|
      ensures s[i] != s[j]
    {
      if s[i] == s[j] {
        RepeatCount(s, i, j);
        DistinctCount(t, s[i]);
      }
    }
  }

  /** Moving `x` past one more trailing element of the prefix `p[..j]`. */
  lemma InsertStep<T>(p: seq<T>, j: nat, x: T, before: (T, T) -> bool)
    requires 0 < j <= |p| && before(x, p[j - 1])
    ensures Insert(p[..j], x, before) + p[j..] == Insert(p[..j - 1], x, before) + p[j - 1..]
  {
    assert p[..j][..j - 1] == p[..j - 1];
    assert p[j - 1..] == [p[j - 1]] + p[j..];
  }

  /** `x` stops in front of an element it need not precede. */
  lemma InsertStop<T>(p: seq<T>, j: nat, x: T, before: (T, T) -> bool)
    requires j <= |p| && (j == 0 || !before(x, p[j - 1]))
    ensures Insert(p[..j], x, before) == p[..j] + [x]
  {
  }

  /** Sorting one more element inserts it into the sorted prefix. */
  lemma SortSeqStep<T>(s: seq<T>, i: nat, before: (T, T) -> bool)
    requires i < |s|
    ensures SortSeq(s[..i + 1], before) == Insert(SortSeq(s[..i], before), s[i], before)
  {
    assert s[..i + 1][..i] == s[..i];
  }

  /** One step of the in-place sort: `a[i]` moves left past the elements of
      the sorted prefix `a[..i]` that it must precede. */
  method InsertInPlace<T>(a: array<T>, i: nat, before: (T, T) -> bool)
    requires i < a.Length
    modifies a
    ensures a[..i + 1] == Insert(old(a[..i]), old(a[i]), before)
    ensures a[i + 1..] == old(a[i + 1..])
  {
    var x := a[i];
    ghost var p := a[..i];
    var j := i;
    assert p[..j] == p && p[j..] == [];
    while j > 0 && before(x, a[j - 1])
      invariant 0 <= j <= i
      invariant forall k :: 0 <= k < j ==> a[k] == p[k]
      invariant forall k :: j < k <= i ==> a[k] == p[k - 1]
      invariant forall k :: i < k < a.Length ==> a[k] == old(a[k])
      invariant Insert(p, x, before) == Insert(p[..j], x, before) + p[j..]
    {
      InsertStep(p, j, x, before);
      a[j] := a[j - 1];
      j := j - 1;
    }
    a[j] := x;
    InsertStop(p, j, x, before);
    assert a[..i + 1] == p[..j] + [x] + p[j..];
  }

  /** In-place insertion sort of an array: the prefix `a[..i]` is kept sorted. */
  method SortInPlace<T>(a: array<T>, before: (T, T) -> bool)
    modifies a
    ensures a[..] == SortSeq(old(a[..]), before)
  {
    ghost var s := a[..];
    var i := 0;
    while i < a.Length
      invariant 0 <= i <= a.Length
      invariant a[..i] == SortSeq(s[..i], before)
      invariant forall k :: i <= k < a.Length ==> a[k] == s[k]
    {
      SortSeqStep(s, i, before);
      InsertInPlace(a, i, before);
      i := i + 1;
    }
    assert s[..a.Length] == s && a[..a.Length] == a[..];
  }
}
