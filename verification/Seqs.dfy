/** Filtering and sorting of sequences: what a filter keeps, what the stable insertion sort
    leaves, sequences without repetition, permutations, and when two sorted arrangements of the
    same elements are one and the same sequence. */
module Seqs {

  function Filter<T>(s: seq<T>, p: T -> bool): seq<T> {
    if s == [] then [] else Filter(s[..|s| - 1], p) + if p(s[|s| - 1]) then [s[|s| - 1]] else []
  }

  lemma {:induction false} FilterSnoc<T>(s: seq<T>, x: T, p: T -> bool)
    ensures Filter(s + [x], p) == Filter(s, p) + if p(x) then [x] else []
  {
    assert (s + [x])[..|s|] == s;
  }

  lemma {:induction false} FilterMembers<T>(s: seq<T>, p: T -> bool, x: T)
    ensures x in Filter(s, p) <==> x in s && p(x)
  {
    if s != [] {
      FilterMembers(s[..|s| - 1], p, x);
      assert s == s[..|s| - 1] + [s[|s| - 1]];
    }
  }

  lemma {:induction false} FilterConcat<T>(s: seq<T>, t: seq<T>, p: T -> bool)
    ensures Filter(s + t, p) == Filter(s, p) + Filter(t, p)
  {
    if t == [] {
      assert s + t == s;
    } else {
      var t', x := t[..|t| - 1], t[|t| - 1];
      assert s + t == (s + t') + [x] && t == t' + [x];
      FilterSnoc(s + t', x, p);
      FilterSnoc(t', x, p);
      FilterConcat(s, t', p);
    }
  }

  lemma Regroup<T>(a: seq<T>, b: seq<T>, c: seq<T>)
    ensures (a + b) + c == a + (b + c)
  {
  }

  ghost predicate Distinct<T>(s: seq<T>) {
    forall i, j :: 0 <= i < j < |s| ==> s[i] != s[j]
  }

  lemma {:induction false} DistinctCounts<T>(s: seq<T>, x: T)
    requires Distinct(s)
    ensures multiset(s)[x] <= 1
  {
    if s != [] {
      DistinctCounts(s[..|s| - 1], x);
      assert s == s[..|s| - 1] + [s[|s| - 1]];
    }
  }

  lemma DistinctConcat<T>(a: seq<T>, b: seq<T>)
    requires Distinct(a) && Distinct(b) && forall x :: x in b ==> x !in a
    ensures Distinct(a + b)
  {
    forall i, j | 0 <= i < j < |a + b| ensures (a + b)[i] != (a + b)[j] {
      if i < |a| && j >= |a| { assert b[j - |a|] in b; }
    }
  }

  lemma DistinctSnoc<T>(a: seq<T>, x: T)
    requires Distinct(a) && x !in a
    ensures Distinct(a + [x])
  {
  }

  lemma DistinctPermutation<T>(a: seq<T>, b: seq<T>)
    requires Distinct(a) && multiset(a) == multiset(b)
    ensures Distinct(b)
  {
    forall i, j | 0 <= i < j < |b| ensures b[i] != b[j] {
      DistinctCounts(a, b[i]);
      assert b == b[..i] + [b[i]] + b[i + 1..j] + [b[j]] + b[j + 1..];
    }
  }

  // ---------------------------------------------------------------- stable sorting

  ghost predicate TotalOrder<T(!new)>(le: (T, T) -> bool) {
    && (forall x, y :: le(x, y) || le(y, x))
    && (forall x, y, z :: le(x, y) && le(y, z) ==> le(x, z))
  }

  ghost predicate Sorted<T>(s: seq<T>, le: (T, T) -> bool) {
    forall i, j :: 0 <= i < j < |s| ==> le(s[i], s[j])
  }

  /** Puts `x` after everything not above it. */
  function Insert<T>(x: T, s: seq<T>, le: (T, T) -> bool): seq<T> {
    if s == [] || le(s[|s| - 1], x) then s + [x]
    else Insert(x, s[..|s| - 1], le) + [s[|s| - 1]]
  }

  /** The stable sort of `s`. */
  function SortBy<T>(s: seq<T>, le: (T, T) -> bool): seq<T> {
    if s == [] then [] else Insert(s[|s| - 1], SortBy(s[..|s| - 1], le), le)
  }

  lemma {:induction false} InsertMultiset<T>(x: T, s: seq<T>, le: (T, T) -> bool)
    ensures multiset(Insert(x, s, le)) == multiset(s) + multiset{x}
  {
    if s != [] && !le(s[|s| - 1], x) {
      InsertMultiset(x, s[..|s| - 1], le);
      assert s == s[..|s| - 1] + [s[|s| - 1]];
    }
  }

  lemma {:induction false} SortMultiset<T>(s: seq<T>, le: (T, T) -> bool)
    ensures multiset(SortBy(s, le)) == multiset(s)
  {
    if s != [] {
      SortMultiset(s[..|s| - 1], le);
      InsertMultiset(s[|s| - 1], SortBy(s[..|s| - 1], le), le);
      assert s == s[..|s| - 1] + [s[|s| - 1]];
    }
  }

  lemma {:induction false} SortMembers<T>(s: seq<T>, le: (T, T) -> bool, x: T)
    ensures x in SortBy(s, le) <==> x in s
  {
    SortMultiset(s, le);
    assert x in SortBy(s, le) <==> x in multiset(SortBy(s, le));
    assert x in s <==> x in multiset(s);
  }

  lemma {:induction false} InsertSorted<T(!new)>(x: T, s: seq<T>, le: (T, T) -> bool)
    requires TotalOrder(le) && Sorted(s, le)
    ensures Sorted(Insert(x, s, le), le)
  {
    if s == [] || le(s[|s| - 1], x) {
    } else {
      var init, last := s[..|s| - 1], s[|s| - 1];
      InsertSorted(x, init, le);
      InsertMultiset(x, init, le);
      var t := Insert(x, init, le);
      assert t[|t| - 1] in multiset(t);
      assert le(t[|t| - 1], last);
    }
  }

  lemma {:induction false} SortSorted<T(!new)>(s: seq<T>, le: (T, T) -> bool)
    requires TotalOrder(le)
    ensures Sorted(SortBy(s, le), le)
  {
    if s != [] {
      SortSorted(s[..|s| - 1], le);
      InsertSorted(s[|s| - 1], SortBy(s[..|s| - 1], le), le);
    }
  }

  lemma {:induction false} FilterOfInsert<T(!new)>(x: T, s: seq<T>, p: T -> bool, le: (T, T) -> bool)
    requires TotalOrder(le) && Sorted(s, le)
    ensures Filter(Insert(x, s, le), p) == if p(x) then Insert(x, Filter(s, p), le) else Filter(s, p)
  {
    if s == [] || le(s[|s| - 1], x) {
      FilterSnoc(s, x, p);
      var f := Filter(s, p);
      if f != [] {
        FilterMembers(s, p, f[|f| - 1]);
        assert s != [] && le(f[|f| - 1], x);
      }
    } else {
      var init, last := s[..|s| - 1], s[|s| - 1];
      FilterOfInsert(x, init, p, le);
      FilterSnoc(Insert(x, init, le), last, p);
      var f := Filter(init, p);
      if p(x) && p(last) {
        assert (f + [last])[..|f|] == f;
      } else {
        assert Filter(s, p) == f + if p(last) then [last] else [];
        assert f + [] == f;
      }
    }
  }

  /** A stable sort keeps the order of what a filter keeps. */
  lemma {:induction false} FilterOfSort<T(!new)>(s: seq<T>, p: T -> bool, le: (T, T) -> bool)
    requires TotalOrder(le)
    ensures Filter(SortBy(s, le), p) == SortBy(Filter(s, p), le)
  {
    if s != [] {
      var init, last := s[..|s| - 1], s[|s| - 1];
      FilterOfSort(init, p, le);
      SortSorted(init, le);
      FilterOfInsert(last, SortBy(init, le), p, le);
      var f := Filter(init, p);
      assert Filter(s, p) == if p(last) then f + [last] else f + [];
      assert f + [] == f;
    }
  }

  /** Things `le` puts on one level are one thing. */
  ghost predicate NoTies<T(!new)>(s: multiset<T>, le: (T, T) -> bool) {
    forall x, y :: x in s && y in s && le(x, y) && le(y, x) ==> x == y
  }

  lemma DropLast<T>(a: seq<T>, b: seq<T>, x: T)
    requires multiset(a + [x]) == multiset(b + [x])
    ensures multiset(a) == multiset(b)
  {
    assert multiset(a) == multiset(a + [x]) - multiset{x};
    assert multiset(b) == multiset(b + [x]) - multiset{x};
  }

  lemma SortedInits<T(!new)>(a: seq<T>, b: seq<T>, x: T, le: (T, T) -> bool)
    requires Sorted(a + [x], le) && Sorted(b + [x], le) && NoTies(multiset(a + [x]), le)
    ensures Sorted(a, le) && Sorted(b, le) && NoTies(multiset(a), le)
  {
    var ax, bx := a + [x], b + [x];
    assert forall i :: 0 <= i < |a| ==> a[i] == ax[i];
    assert forall i :: 0 <= i < |b| ==> b[i] == bx[i];
    assert multiset(a) <= multiset(ax);
  }

  lemma SortedLast<T(!new)>(a: seq<T>, b: seq<T>, le: (T, T) -> bool)
    requires a != [] && b != [] && Sorted(a, le) && Sorted(b, le) && multiset(a) == multiset(b)
    requires NoTies(multiset(a), le)
    ensures a[|a| - 1] == b[|b| - 1]
  {
    var x, y := a[|a| - 1], b[|b| - 1];
    assert y in multiset(a) && x in multiset(b);
    var i :| 0 <= i < |a| && a[i] == y;
    var j :| 0 <= j < |b| && b[j] == x;
    assert i < |a| - 1 ==> le(y, x);
    assert j < |b| - 1 ==> le(x, y);
    assert x == y;
  }

  lemma PeelLast<T(!new)>(a: seq<T>, b: seq<T>, le: (T, T) -> bool) returns (a': seq<T>, b': seq<T>, x: T)
    requires Sorted(a, le) && Sorted(b, le) && multiset(a) == multiset(b) && NoTies(multiset(a), le)
    requires a != [] && b != []
    ensures a == a' + [x] && b == b' + [x]
    ensures Sorted(a', le) && Sorted(b', le) && multiset(a') == multiset(b') && NoTies(multiset(a'), le)
  {
    SortedLast(a, b, le);
    a', b', x := a[..|a| - 1], b[..|b| - 1], a[|a| - 1];
    assert a' + [x] == a && b' + [x] == b;
    SortedInits(a', b', x, le);
    DropLast(a', b', x);
  }

  lemma SameLength<T>(a: seq<T>, b: seq<T>)
    requires multiset(a) == multiset(b)
    ensures |a| == |b|
  {
    assert |a| == |multiset(a)| == |multiset(b)| == |b|;
  }

  /** Where ties are equal, every sorted arrangement of the same things is the same. */
  lemma {:induction false} SortedIsUnique<T(!new)>(a: seq<T>, b: seq<T>, le: (T, T) -> bool)
    requires Sorted(a, le) && Sorted(b, le) && multiset(a) == multiset(b)
    requires NoTies(multiset(a), le)
    ensures a == b
    decreases |a|
  {
    SameLength(a, b);
    if a != [] {
      var a', b', x := PeelLast(a, b, le);
      SortedIsUnique(a', b', le);
    }
  }
}
