/** Orders and sorting: Go's string order, and the stable sort (`sort.SliceStable`) that the
    policy engine, the risk engine and the baseline rely on. */
module Ordering {

  /** Go compares strings byte by byte; on UTF-8 that is the order of the code points. */
  predicate StrLess(a: string, b: string) {
    if b == [] then false
    else if a == [] then true
    else a[0] < b[0] || (a[0] == b[0] && StrLess(a[1..], b[1..]))
  }

  lemma {:induction false} StrLessIrreflexive(a: string)
    ensures !StrLess(a, a)
  {
    if a != [] {
      StrLessIrreflexive(a[1..]);
    }
  }

  lemma {:induction false} StrLessTransitive(a: string, b: string, c: string)
    requires StrLess(a, b) && StrLess(b, c)
    ensures StrLess(a, c)
  {
    if a != [] && a[0] == b[0] == c[0] {
      StrLessTransitive(a[1..], b[1..], c[1..]);
    }
  }

  lemma {:induction false} StrLessConnected(a: string, b: string)
    ensures a == b || StrLess(a, b) || StrLess(b, a)
  {
    if a != [] && b != [] && a[0] == b[0] {
      StrLessConnected(a[1..], b[1..]);
      assert a == [a[0]] + a[1..] && b == [b[0]] + b[1..];
    }
  }

  /** The first differing part decides. */
  lemma {:induction false} StrLessPrefix(x: string, y: string, p: string, q: string)
    requires |x| == |y|
    requires StrLess(x, y) || (x == y && StrLess(p, q))
    ensures StrLess(x + p, y + q)
  {
    if x == [] {
      assert x + p == p && y + q == q;
    } else {
      assert (x + p)[1..] == x[1..] + p && (y + q)[1..] == y[1..] + q;
      if x[0] == y[0] {
        StrLessPrefix(x[1..], y[1..], p, q);
      }
    }
  }

  /* ----- stable sorting ----- */

  /** `less` is a strict weak order on everything that satisfies it: what `sort.SliceStable` needs. */
  ghost predicate StrictWeakOrder<T(!new)>(less: (T, T) -> bool) {
    && (forall x :: !less(x, x))
    && (forall x, y, z :: less(x, y) && less(y, z) ==> less(x, z))
    && (forall x, y, z :: less(x, z) ==> less(x, y) || less(y, z))
  }

  ghost predicate Sorted<T>(s: seq<T>, less: (T, T) -> bool) {
    forall i, j :: 0 <= i < j < |s| ==> !less(s[j], s[i])
  }

  function Insert<T>(s: seq<T>, x: T, less: (T, T) -> bool): (r: seq<T>)
    ensures |r| == |s| + 1
  {
    if s != [] && less(x, s[|s| - 1]) then Insert(s[..|s| - 1], x, less) + [s[|s| - 1]] else s + [x]
  }

  /** The stable sort, as left-to-right insertion behind all elements that are not greater. */
  function StableSort<T>(s: seq<T>, less: (T, T) -> bool): (r: seq<T>)
    ensures |r| == |s|
  {
    if s == [] then [] else Insert(StableSort(s[..|s| - 1], less), s[|s| - 1], less)
  }

  lemma {:induction false} InsertPermutes<T>(s: seq<T>, x: T, less: (T, T) -> bool)
    ensures multiset(Insert(s, x, less)) == multiset(s) + multiset{x}
  {
    if s != [] && less(x, s[|s| - 1]) {
      var init, last := s[..|s| - 1], s[|s| - 1];
      InsertPermutes(init, x, less);
      AppendCounts(Insert(init, x, less), last);
      AppendCounts(init, last);
      SplitLast(s);
    } else {
      AppendCounts(s, x);
    }
  }

  lemma {:induction false} SortPermutes<T>(s: seq<T>, less: (T, T) -> bool)
    ensures multiset(StableSort(s, less)) == multiset(s)
  {
    if s != [] {
      var init, last := s[..|s| - 1], s[|s| - 1];
      SortPermutes(init, less);
      InsertPermutes(StableSort(init, less), last, less);
      AppendCounts(init, last);
      SplitLast(s);
    }
  }

  lemma AppendCounts<T>(s: seq<T>, x: T)
    ensures multiset(s + [x]) == multiset(s) + multiset{x}
  {
  }

  lemma {:induction false} InsertSorts<T(!new)>(s: seq<T>, x: T, less: (T, T) -> bool)
    requires StrictWeakOrder(less) && Sorted(s, less)
    ensures Sorted(Insert(s, x, less), less)
  {
    if s != [] && less(x, s[|s| - 1]) {
      var init, last := s[..|s| - 1], s[|s| - 1];
      InsertSorts(init, x, less);
      InsertPermutes(init, x, less);
      var r := Insert(init, x, less);
      forall i | 0 <= i < |r| ensures !less(last, r[i]) {
        assert r[i] in multiset(r);
        if r[i] != x {
          assert r[i] in init;
        }
      }
    } else if s != [] {
      var last := s[|s| - 1];
      forall i | 0 <= i < |s| ensures !less(x, s[i]) {
        assert i < |s| - 1 ==> !less(last, s[i]);
      }
    }
  }

  lemma {:induction false} SortSorts<T(!new)>(s: seq<T>, less: (T, T) -> bool)
    requires StrictWeakOrder(less)
    ensures Sorted(StableSort(s, less), less)
  {
    if s != [] {
      SortSorts(s[..|s| - 1], less);
      InsertSorts(StableSort(s[..|s| - 1], less), s[|s| - 1], less);
    }
  }

  /** The elements of `s` equivalent to `k`, in order. */
  ghost function Class<T>(s: seq<T>, k: T, less: (T, T) -> bool): seq<T> {
    if s == [] then []
    else
      var init, last := s[..|s| - 1], s[|s| - 1];
      if less(last, k) || less(k, last) then Class(init, k, less) else Class(init, k, less) + [last]
  }

  lemma {:induction false} ClassAppend<T>(s: seq<T>, x: T, k: T, less: (T, T) -> bool)
    ensures Class(s + [x], k, less)
         == if less(x, k) || less(k, x) then Class(s, k, less) else Class(s, k, less) + [x]
  {
    assert (s + [x])[..|s|] == s;
  }

  lemma {:induction false} InsertStable<T(!new)>(s: seq<T>, x: T, k: T, less: (T, T) -> bool)
    requires StrictWeakOrder(less)
    ensures Class(Insert(s, x, less), k, less) == Class(s + [x], k, less)
  {
    ClassAppend(s, x, k, less);
    if s != [] && less(x, s[|s| - 1]) {
      var init, last := s[..|s| - 1], s[|s| - 1];
      InsertStable(init, x, k, less);
      ClassAppend(Insert(init, x, less), last, k, less);
      ClassAppend(init, x, k, less);
      ClassAppend(init, last, k, less);
      assert init + [last] == s;
    }
  }

  /** Stability: equivalent elements keep their relative order. */
  lemma {:induction false} SortIsStable<T(!new)>(s: seq<T>, k: T, less: (T, T) -> bool)
    requires StrictWeakOrder(less)
    ensures Class(StableSort(s, less), k, less) == Class(s, k, less)
  {
    if s != [] {
      var init, last := s[..|s| - 1], s[|s| - 1];
      var sorted := StableSort(init, less);
      SortIsStable(init, k, less);
      InsertStable(sorted, last, k, less);
      ClassAppend(sorted, last, k, less);
    }
  }

  /** No two different elements of `s` are equivalent. */
  ghost predicate Separates<T>(s: seq<T>, less: (T, T) -> bool) {
    forall x, y :: x in s && y in s && x != y ==> less(x, y) || less(y, x)
  }

  /** Sorted permutations of separated elements end in the same element. */
  lemma SameLast<T>(a: seq<T>, b: seq<T>, less: (T, T) -> bool)
    requires a != [] && b != []
    requires multiset(a) == multiset(b) && Sorted(a, less) && Sorted(b, less) && Separates(a, less)
    ensures a[|a| - 1] == b[|b| - 1]
  {
    var x, y := a[|a| - 1], b[|b| - 1];
    assert x in multiset(b) && y in multiset(a);
    var i :| 0 <= i < |a| && a[i] == y;
    var j :| 0 <= j < |b| && b[j] == x;
    assert x != y ==> !less(x, y) && !less(y, x);
  }

  lemma SortedPrefix<T>(s: seq<T>, less: (T, T) -> bool)
    requires s != [] && Sorted(s, less)
    ensures Sorted(s[..|s| - 1], less)
    ensures Separates(s, less) ==> Separates(s[..|s| - 1], less)
  {
  }

  lemma SplitLast<T>(s: seq<T>)
    requires s != []
    ensures s == s[..|s| - 1] + [s[|s| - 1]]
  {
  }

  lemma DropLast<T>(s: seq<T>)
    requires s != []
    ensures multiset(s[..|s| - 1]) == multiset(s) - multiset{s[|s| - 1]}
  {
    assert s == s[..|s| - 1] + [s[|s| - 1]];
  }

  /** When the order separates the elements, a sorted permutation is unique, so sorting does not
      depend on the order of the input. */
  lemma {:induction false} SortedPermutationUnique<T>(a: seq<T>, b: seq<T>, less: (T, T) -> bool)
    requires multiset(a) == multiset(b) && Sorted(a, less) && Sorted(b, less) && Separates(a, less)
    ensures a == b
  {
    assert |a| == |multiset(a)| && |b| == |multiset(b)|;
    if a != [] {
      SameLast(a, b, less);
      DropLast(a);
      DropLast(b);
      SortedPrefix(a, less);
      SortedPrefix(b, less);
      SortedPermutationUnique(a[..|a| - 1], b[..|b| - 1], less);
      SplitLast(a);
      SplitLast(b);
    }
  }

  lemma SortIgnoresInputOrder<T(!new)>(s: seq<T>, t: seq<T>, less: (T, T) -> bool)
    requires StrictWeakOrder(less) && multiset(s) == multiset(t) && Separates(s, less)
    ensures StableSort(s, less) == StableSort(t, less)
  {
    var a, b := StableSort(s, less), StableSort(t, less);
    SortPermutes(s, less);
    SortPermutes(t, less);
    SortSorts(s, less);
    SortSorts(t, less);
    forall x, y | x in a && y in a && x != y ensures less(x, y) || less(y, x) {
      assert x in multiset(s) && y in multiset(s);
    }
    SortedPermutationUnique(a, b, less);
  }
}
