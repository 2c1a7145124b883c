/** `Array.prototype.sort` with a comparator, which ECMAScript requires to
    be stable. `before(x, y)` holds when the comparator puts `x` strictly
    ahead of `y` (for `(a, b) => b.weight - a.weight`, when `x.weight >
    y.weight`); elements neither of which comes before the other keep
    their input order. The sort is specified by the insertion sort
    `SortBy` and performed in place on an array by `SortInPlace`. */
module StableSort {
  import opened Seqs

  /** Inserts `x` at the back of `s`, moving it forward past every
      element it comes strictly before, scanning from the back. */
  function InsertBack<T>(s: seq<T>, x: T, before: (T, T) -> bool): (r: seq<T>)
    ensures |r| == |s| + 1
  {
    if s == [] then [x]
    else if before(x, Last(s)) then InsertBack(Init(s), x, before) + [Last(s)]
    else s + [x]
  }

  /** The stable sort of `s`: its elements inserted one at a time, left to right. */
  function SortBy<T>(s: seq<T>, before: (T, T) -> bool): (r: seq<T>)
    ensures |r| == |s|
  {
    if s == [] then [] else InsertBack(SortBy(Init(s), before), Last(s), before)
  }

  /** No element comes strictly before an element ahead of it. */
  ghost predicate Sorted<T>(s: seq<T>, before: (T, T) -> bool) {
    forall i, j :: 0 <= i < j < |s| ==> !before(s[j], s[i])
  }

  /** What a consistent comparator provides: `before` is asymmetric and
      "not before" is transitive. */
  ghost predicate StrictWeakOrder<T(!new)>(before: (T, T) -> bool) {
    && (forall a, b :: before(a, b) ==> !before(b, a))
    && (forall a, b, c :: !before(a, b) && !before(b, c) ==> !before(a, c))
  }

  lemma {:induction false} InsertBackMultiset<T>(s: seq<T>, x: T, before: (T, T) -> bool)
    ensures multiset(InsertBack(s, x, before)) == multiset(s) + multiset{x}
  {
    if s != [] && before(x, Last(s)) {
      InsertBackMultiset(Init(s), x, before);
      assert s == Init(s) + [Last(s)];
    }
  }

  /** Sorting permutes its input. */
  lemma {:induction false} SortPermutation<T>(s: seq<T>, before: (T, T) -> bool)
    ensures multiset(SortBy(s, before)) == multiset(s)
  {
    if s != [] {
      SortPermutation(Init(s), before);
      InsertBackMultiset(SortBy(Init(s), before), Last(s), before);
      assert s == Init(s) + [Last(s)];
    }
  }

  lemma {:induction false} InsertBackSum<T>(s: seq<T>, x: T, before: (T, T) -> bool, f: T -> real)
    ensures SumBy(InsertBack(s, x, before), f) == SumBy(s, f) + f(x)
  {
    if s == [] {
      assert Init([x]) == [];
    } else if before(x, Last(s)) {
      InsertBackSum(Init(s), x, before, f);
    } else {
      assert Init(s + [x]) == s;
    }
  }

  /** Sorting leaves every sum over the elements unchanged. */
  lemma {:induction false} SortSum<T>(s: seq<T>, before: (T, T) -> bool, f: T -> real)
    ensures SumBy(SortBy(s, before), f) == SumBy(s, f)
  {
    if s != [] {
      SortSum(Init(s), before, f);
      InsertBackSum(SortBy(Init(s), before), Last(s), before, f);
    }
  }

  lemma {:induction false} InsertBackStable<T>(s: seq<T>, x: T, before: (T, T) -> bool, p: T -> bool)
    requires forall a, b :: p(a) && p(b) ==> !before(a, b)
    ensures Filter(InsertBack(s, x, before), p) == Filter(s, p) + Filter([x], p)
  {
    if s == [] {
      assert [] + [x] == [x];
    } else if before(x, Last(s)) {
      var t := Init(s);
      var y := Last(s);
      InsertBackStable(t, x, before, p);
      FilterAppend(InsertBack(t, x, before), [y], p);
      FilterAppend(t, [y], p);
      assert s == t + [y];
      assert Init([x]) == [] && Init([y]) == [];
      assert !(p(x) && p(y));
    } else {
      FilterAppend(s, [x], p);
    }
  }

  /** Stability: elements that are never ahead of one another (those
      satisfying `p`) appear in the result in their input order. */
  lemma {:induction false} SortStable<T>(s: seq<T>, before: (T, T) -> bool, p: T -> bool)
    requires forall a, b :: p(a) && p(b) ==> !before(a, b)
    ensures Filter(SortBy(s, before), p) == Filter(s, p)
  {
    if s != [] {
      var t, y := Init(s), Last(s);
      SortStable(t, before, p);
      assert SortBy(s, before) == InsertBack(SortBy(t, before), y, before);
      InsertBackStable(SortBy(t, before), y, before, p);
      assert s == t + [y];
      FilterAppend(t, [y], p);
    }
  }

  lemma {:induction false} InsertBackSorted<T(!new)>(s: seq<T>, x: T, before: (T, T) -> bool)
    requires StrictWeakOrder(before)
    requires Sorted(s, before)
    ensures Sorted(InsertBack(s, x, before), before)
  {
    if s == [] {
    } else if before(x, Last(s)) {
      var t, y := Init(s), Last(s);
      assert Sorted(t, before);
      InsertBackSorted(t, x, before);
      var u := InsertBack(t, x, before);
      InsertBackMultiset(t, x, before);
      forall k | 0 <= k < |u|
        ensures !before(y, u[k])
      {
        assert u[k] in multiset(u);
        if u[k] != x {
          assert u[k] in multiset(t);
          var m :| 0 <= m < |t| && t[m] == u[k];
          assert s[m] == t[m] && s[|s| - 1] == y;
        }
      }
      SortedSnoc(u, y, before);
    } else {
      forall k | 0 <= k < |s|
        ensures !before(x, s[k])
      {
        if k < |s| - 1 {
          assert !before(s[|s| - 1], s[k]);
        }
      }
      SortedSnoc(s, x, before);
    }
  }

  /** Appending an element that comes before none of a sorted sequence
      keeps it sorted. */
  lemma SortedSnoc<T>(u: seq<T>, y: T, before: (T, T) -> bool)
    requires Sorted(u, before)
    requires forall k :: 0 <= k < |u| ==> !before(y, u[k])
    ensures Sorted(u + [y], before)
  {
    var v := u + [y];
    forall i, j | 0 <= i < j < |v|
      ensures !before(v[j], v[i])
    {
      assert v[i] == u[i];
      if j < |u| {
        assert v[j] == u[j];
      }
    }
  }

  /** Under a consistent comparator the sort's result is sorted. */
  lemma {:induction false} SortSorted<T(!new)>(s: seq<T>, before: (T, T) -> bool)
    requires StrictWeakOrder(before)
    ensures Sorted(SortBy(s, before), before)
  {
    if s != [] {
      SortSorted(Init(s), before);
      InsertBackSorted(SortBy(Init(s), before), Last(s), before);
    }
  }

  /** A fresh array holding `s`. */
  method ToArray<T>(s: seq<T>) returns (a: array<T>)
    ensures fresh(a) && a[..] == s
  {
    a := new T[|s|](i requires 0 <= i < |s| => s[i]);
  }

  /** `a.sort(comparator)`: sorts `a` in place by insertion. */
  method SortInPlace<T>(a: array<T>, before: (T, T) -> bool)
    modifies a
    ensures a[..] == SortBy(old(a[..]), before)
  {
    ghost var orig := a[..];
    for i := 0 to a.Length
      invariant a[..i] == SortBy(orig[..i], before)
      invariant a[i..] == orig[i..]
    {
      assert orig[..i + 1][..i] == orig[..i];
      ShiftIntoPlace(a, i, before);
    }
    assert orig[..a.Length] == orig;
  }

  /** One step of the insertion sort: moves `a[i]` left past the elements
      of the prefix `a[..i]` that it comes before. */
  method ShiftIntoPlace<T>(a: array<T>, i: nat, before: (T, T) -> bool)
    requires i < a.Length
    modifies a
    ensures a[..i + 1] == InsertBack(old(a[..i]), old(a[i]), before)
    ensures a[i + 1..] == old(a[i + 1..])
  {
    var x := a[i];
    ghost var sorted := a[..i];
    ghost var rest := a[i + 1..];
    var j := i;
    assert sorted[..i] == sorted && sorted[i..i] == [];
    while j > 0 && before(x, a[j - 1])
      invariant 0 <= j <= i
      invariant forall k {:trigger a[k]} :: 0 <= k < j ==> a[k] == sorted[k]
      invariant forall k :: j < k <= i ==> a[k] == sorted[k - 1]
      invariant a[i + 1..] == rest
      invariant InsertBack(sorted, x, before) == InsertBack(sorted[..j], x, before) + sorted[j..i]
    {
      InsertBackShift(sorted, j, i, x, before);
      a[j] := a[j - 1];
      j := j - 1;
    }
    a[j] := x;
    InsertBackStop(sorted, j, x, before);
    ShiftedSlices(a[..], sorted, j, x);
  }

  /** Where the shifting stops, `x` lands right behind the prefix. */
  lemma InsertBackStop<T>(sorted: seq<T>, j: nat, x: T, before: (T, T) -> bool)
    requires j <= |sorted|
    requires j == 0 || !before(x, sorted[j - 1])
    ensures InsertBack(sorted[..j], x, before) == sorted[..j] + [x]
  {
    if j > 0 {
      assert Last(sorted[..j]) == sorted[j - 1];
    }
  }

  /** The array after the shift: the prefix before `j`, then `x`, then the
      rest of the prefix moved one place right. */
  lemma ShiftedSlices<T>(b: seq<T>, sorted: seq<T>, j: nat, x: T)
    requires j <= |sorted| < |b|
    requires forall k {:trigger b[k]} :: 0 <= k < j ==> b[k] == sorted[k]
    requires b[j] == x
    requires forall k :: j < k <= |sorted| ==> b[k] == sorted[k - 1]
    ensures b[..|sorted| + 1] == sorted[..j] + [x] + sorted[j..|sorted|]
  {
    var n := |sorted|;
    assert b[..j] == sorted[..j];
    forall m | 0 <= m < n - j
      ensures b[j + 1..n + 1][m] == sorted[j..][m]
    {
      assert b[j + 1 + m] == sorted[j + m];
    }
    assert b[..n + 1] == b[..j] + [x] + b[j + 1..n + 1];
  }

  lemma InsertBackShift<T>(sorted: seq<T>, j: nat, i: nat, x: T, before: (T, T) -> bool)
    requires 0 < j <= i == |sorted|
    requires before(x, sorted[j - 1])
    ensures InsertBack(sorted[..j], x, before) + sorted[j..i]
         == InsertBack(sorted[..j - 1], x, before) + sorted[j - 1..i]
  {
    assert sorted[..j][..j - 1] == sorted[..j - 1];
    assert sorted[j - 1..i] == [sorted[j - 1]] + sorted[j..i];
  }
}
