/** Small sequence vocabulary shared by every module of the model: the
    optional-value and error-carrying wrappers, and the array operations
    the TypeScript code uses (`filter`, `map`, `reduce` as a sum, `slice`,
    and de-duplication through a `Set`). Functions that build a sequence
    recurse on its last element, so that a loop over a prefix can keep
    "the result so far is F(s[..i])" as its invariant. */
module Seqs {

  /** `undefined` vs. a present value. */
  datatype Option<T> = None | Some(value: T) {
    /** The `x ?? default` operator. */
    function GetOr(default: T): T {
      if Some? then value else default
    }
  }

  /** A thrown `Error(message)` vs. a returned value. */
  datatype Result<T> = Success(value: T) | Failure(error: string)

  function Last<T>(s: seq<T>): T
    requires |s| > 0
  {
    s[|s| - 1]
  }

  function Init<T>(s: seq<T>): seq<T>
    requires |s| > 0
  {
    s[..|s| - 1]
  }

  /** `s.filter(p)`: the elements of `s` that satisfy `p`, in order. */
  function Filter<T>(s: seq<T>, p: T -> bool): (r: seq<T>)
    ensures |r| <= |s|
    ensures forall i :: 0 <= i < |r| ==> r[i] in s && p(r[i])
    ensures forall i :: 0 <= i < |s| && p(s[i]) ==> s[i] in r
  {
    if s == [] then [] else Filter(Init(s), p) + (if p(Last(s)) then [Last(s)] else [])
  }

  lemma {:induction false} FilterAppend<T>(a: seq<T>, b: seq<T>, p: T -> bool)
    ensures Filter(a + b, p) == Filter(a, p) + Filter(b, p)
  {
    if b != [] {
      assert Init(a + b) == a + Init(b);
      assert Last(a + b) == Last(b);
      FilterAppend(a, Init(b), p);
    } else {
      assert a + b == a;
    }
  }

  /** Filtering keeps the multiset of the elements that pass. */
  lemma {:induction false} FilterMultiset<T>(s: seq<T>, p: T -> bool, x: T)
    ensures multiset(Filter(s, p))[x] == if p(x) then multiset(s)[x] else 0
  {
    if s != [] {
      FilterMultiset(Init(s), p, x);
      assert s == Init(s) + [Last(s)];
    }
  }

  /** An element is kept by the filter iff it is in `s` and satisfies `p`. */
  lemma FilterMember<T>(s: seq<T>, p: T -> bool, x: T)
    ensures x in Filter(s, p) <==> x in s && p(x)
  {
    FilterMultiset(s, p, x);
    assert x in Filter(s, p) <==> x in multiset(Filter(s, p));
    assert x in s <==> x in multiset(s);
  }

  /** The positions in `s` of the elements that pass `p`, in increasing order. */
  function FilterIndices<T>(s: seq<T>, p: T -> bool): seq<int> {
    if s == [] then [] else FilterIndices(Init(s), p) + (if p(Last(s)) then [|s| - 1] else [])
  }

  /** The filter keeps its elements in their order in `s`: the `k`-th kept
      element sits at a position of `s` that grows strictly with `k`. */
  lemma {:induction false} FilterInOrder<T>(s: seq<T>, p: T -> bool)
    ensures var r, idx := Filter(s, p), FilterIndices(s, p);
      && |idx| == |r|
      && (forall k :: 0 <= k < |idx| ==> 0 <= idx[k] < |s| && r[k] == s[idx[k]])
      && (forall k, l :: 0 <= k < l < |idx| ==> idx[k] < idx[l])
  {
    if s != [] {
      var t := Init(s);
      FilterInOrder(t, p);
      var r0, idx0 := Filter(t, p), FilterIndices(t, p);
      assert forall k :: 0 <= k < |t| ==> t[k] == s[k];
      if p(Last(s)) {
        assert Filter(s, p) == r0 + [Last(s)];
        assert FilterIndices(s, p) == idx0 + [|s| - 1];
      } else {
        assert Filter(s, p) == r0;
        assert FilterIndices(s, p) == idx0;
      }
    }
  }

  /** `s.map(f)`. */
  function MapSeq<T, U>(s: seq<T>, f: T -> U): (r: seq<U>)
    ensures |r| == |s|
    ensures forall i :: 0 <= i < |s| ==> r[i] == f(s[i])
  {
    if s == [] then [] else MapSeq(Init(s), f) + [f(Last(s))]
  }

  /** Mapping distributes over concatenation. */
  lemma MapSeqAppend<T, U>(a: seq<T>, b: seq<T>, f: T -> U)
    ensures MapSeq(a + b, f) == MapSeq(a, f) + MapSeq(b, f)
  {
  }

  lemma ConcatParts<T>(a: seq<T>, b: seq<T>)
    ensures a <= a + b && (a + b)[|a|..] == b && |a + b| == |a| + |b|
  {
  }

  lemma AppendAssoc<T>(a: seq<T>, b: seq<T>, c: seq<T>)
    ensures (a + b) + c == a + (b + c)
  {
  }

  /** `for (const x of s) out.push(f(x))`, starting from `prefix`. */
  method PushAll<T, U>(prefix: seq<U>, s: seq<T>, f: T -> U) returns (out: seq<U>)
    ensures out == prefix + MapSeq(s, f)
  {
    out := prefix;
    for i := 0 to |s|
      invariant out == prefix + MapSeq(s[..i], f)
    {
      assert Init(s[..i + 1]) == s[..i];
      out := out + [f(s[i])];
    }
    assert s[..|s|] == s;
  }

  /** `s.reduce((acc, x) => acc + f(x), 0)` over reals. */
  function SumBy<T>(s: seq<T>, f: T -> real): real
  {
    if s == [] then 0.0 else SumBy(Init(s), f) + f(Last(s))
  }

  lemma {:induction false} SumByAppend<T>(a: seq<T>, b: seq<T>, f: T -> real)
    ensures SumBy(a + b, f) == SumBy(a, f) + SumBy(b, f)
  {
    if b != [] {
      assert Init(a + b) == a + Init(b);
      assert Last(a + b) == Last(b);
      SumByAppend(a, Init(b), f);
    } else {
      assert a + b == a;
    }
  }

  /** Replacing one element changes the sum by the difference. */
  lemma {:induction false} SumByUpdate<T>(s: seq<T>, i: nat, x: T, f: T -> real)
    requires i < |s|
    ensures SumBy(s[i := x], f) == SumBy(s, f) - f(s[i]) + f(x)
  {
    assert s == s[..i] + [s[i]] + s[i + 1..];
    assert s[i := x] == s[..i] + [x] + s[i + 1..];
    SumByAppend(s[..i] + [s[i]], s[i + 1..], f);
    SumByAppend(s[..i], [s[i]], f);
    SumByAppend(s[..i] + [x], s[i + 1..], f);
    SumByAppend(s[..i], [x], f);
    assert SumBy([s[i]], f) == f(s[i]) by { assert Init([s[i]]) == []; }
    assert SumBy([x], f) == f(x) by { assert Init([x]) == []; }
  }

  /** Sums over a mapped sequence are sums of the composed function. */
  lemma {:induction false} SumByMap<T, U>(s: seq<T>, g: T -> U, f: U -> real, h: T -> real)
    requires forall x :: h(x) == f(g(x))
    ensures SumBy(MapSeq(s, g), f) == SumBy(s, h)
  {
    if s != [] {
      SumByMap(Init(s), g, f, h);
      assert Init(MapSeq(s, g)) == MapSeq(Init(s), g);
    }
  }

  /** Two functions that agree on the elements give the same sum. */
  lemma {:induction false} SumByCongruent<T>(s: seq<T>, f: T -> real, g: T -> real)
    requires forall i :: 0 <= i < |s| ==> f(s[i]) == g(s[i])
    ensures SumBy(s, f) == SumBy(s, g)
  {
    if s != [] {
      SumByCongruent(Init(s), f, g);
    }
  }

  /** Splitting a sum into the elements that pass a test and those that do not. */
  lemma {:induction false} SumBySplit<T>(s: seq<T>, p: T -> bool, f: T -> real)
    ensures SumBy(Filter(s, p), f) + SumBy(Filter(s, x => !p(x)), f) == SumBy(s, f)
  {
    if s != [] {
      SumBySplit(Init(s), p, f);
      var a := Filter(Init(s), p);
      var b := Filter(Init(s), x => !p(x));
      if p(Last(s)) {
        SumByAppend(a, [Last(s)], f);
        assert Filter(s, x => !p(x)) == b + [];
        assert b + [] == b;
      } else {
        SumByAppend(b, [Last(s)], f);
        assert Filter(s, p) == a + [];
        assert a + [] == a;
      }
      assert Init([Last(s)]) == [];
    }
  }

  /** The same split, with the complementary test given by name. */
  lemma {:induction false} SumBySplitBy<T>(s: seq<T>, p: T -> bool, q: T -> bool, f: T -> real)
    requires forall x :: q(x) == !p(x)
    ensures SumBy(Filter(s, p), f) + SumBy(Filter(s, q), f) == SumBy(s, f)
  {
    if s != [] {
      SumBySplitBy(Init(s), p, q, f);
      assert Init([Last(s)]) == [];
      if p(Last(s)) {
        assert !q(Last(s));
        SumByAppend(Filter(Init(s), p), [Last(s)], f);
        assert Filter(s, q) == Filter(Init(s), q) + [] == Filter(Init(s), q);
      } else {
        assert q(Last(s));
        SumByAppend(Filter(Init(s), q), [Last(s)], f);
        assert Filter(s, p) == Filter(Init(s), p) + [] == Filter(Init(s), p);
      }
    }
  }

  /** With no negative terms, a filtered sum is at most the whole sum. */
  lemma {:induction false} FilterSumBound<T>(s: seq<T>, p: T -> bool, f: T -> real)
    requires forall i :: 0 <= i < |s| ==> f(s[i]) >= 0.0
    ensures SumBy(Filter(s, p), f) <= SumBy(s, f)
  {
    if s != [] {
      FilterSumBound(Init(s), p, f);
      if p(Last(s)) {
        SumByAppend(Filter(Init(s), p), [Last(s)], f);
        assert Init([Last(s)]) == [];
      } else {
        assert Filter(s, p) == Filter(Init(s), p) + [] == Filter(Init(s), p);
      }
      assert f(Last(s)) >= 0.0;
    }
  }

  /** `s.reduce((acc, x) => acc + f(x), 0)` over natural numbers. */
  function CountBy<T>(s: seq<T>, f: T -> nat): nat
  {
    if s == [] then 0 else CountBy(Init(s), f) + f(Last(s))
  }

  /** Every term is at most the count, and the count is 0 exactly when
      every term is. */
  lemma {:induction false} CountByBounds<T>(s: seq<T>, f: T -> nat)
    ensures forall i :: 0 <= i < |s| ==> f(s[i]) <= CountBy(s, f)
    ensures CountBy(s, f) == 0 <==> forall i :: 0 <= i < |s| ==> f(s[i]) == 0
  {
    if s != [] {
      var t := Init(s);
      CountByBounds(t, f);
      assert forall i :: 0 <= i < |t| ==> t[i] == s[i];
      assert CountBy(s, f) == CountBy(t, f) + f(Last(s));
    }
  }

  lemma {:induction false} CountByAppend<T>(a: seq<T>, b: seq<T>, f: T -> nat)
    ensures CountBy(a + b, f) == CountBy(a, f) + CountBy(b, f)
  {
    if b != [] {
      assert Init(a + b) == a + Init(b);
      assert Last(a + b) == Last(b);
      CountByAppend(a, Init(b), f);
    } else {
      assert a + b == a;
    }
  }

  /** Counts over a mapped sequence are counts of the composed function. */
  lemma {:induction false} CountByMap<T, U>(s: seq<T>, g: T -> U, f: U -> nat, h: T -> nat)
    requires forall x :: h(x) == f(g(x))
    ensures CountBy(MapSeq(s, g), f) == CountBy(s, h)
  {
    if s != [] {
      CountByMap(Init(s), g, f, h);
      assert Init(MapSeq(s, g)) == MapSeq(Init(s), g);
    }
  }

  /** `s.slice(0, n)` for an integer `n`: a negative end counts from the back. */
  function SliceTo<T>(s: seq<T>, n: int): (r: seq<T>)
    ensures r <= s
    ensures n >= 0 ==> |r| == if n < |s| then n else |s|
    ensures n < 0 ==> |r| == if |s| + n > 0 then |s| + n else 0
  {
    if n >= 0 then s[..if n < |s| then n else |s|]
    else s[..if |s| + n > 0 then |s| + n else 0]
  }

  /** Cutting after mapping is mapping after cutting. */
  lemma SliceOfMapped<T, U>(s: seq<T>, f: T -> U, n: nat)
    ensures SliceTo(MapSeq(s, f), n) == MapSeq(SliceTo(s, n), f)
  {
  }

  ghost predicate NoDups<T>(s: seq<T>) {
    forall i, j :: 0 <= i < j < |s| ==> s[i] != s[j]
  }

  /** Index of the first occurrence of `x` in `s`. */
  function FirstIndex<T(==)>(s: seq<T>, x: T): (i: nat)
    requires x in s
    ensures i < |s| && s[i] == x && x !in s[..i]
  {
    if s[0] == x then 0 else 1 + FirstIndex(s[1..], x)
  }

  /** `Array.from(new Set(s))`: each element once, at its first occurrence. */
  function Uniq<T(==)>(s: seq<T>): (r: seq<T>)
    ensures NoDups(r)
    ensures forall i :: 0 <= i < |r| ==> r[i] in s
    ensures forall i :: 0 <= i < |s| ==> s[i] in r
  {
    if s == [] then []
    else
      var u := Uniq(Init(s));
      if Last(s) in u then u else u + [Last(s)]
  }

  /** `Uniq` keeps exactly the elements of its input. */
  lemma UniqSameElements<T>(s: seq<T>)
    ensures forall x :: x in Uniq(s) <==> x in s
  {
    var u := Uniq(s);
    forall x ensures x in u <==> x in s {
      if x in u {
        var k :| 0 <= k < |u| && u[k] == x;
      }
      if x in s {
        var k :| 0 <= k < |s| && s[k] == x;
      }
    }
  }

  /** The elements of `Uniq(s)` come in the order of their first occurrence in `s`. */
  lemma {:induction false} UniqFirstOccurrenceOrder<T>(s: seq<T>)
    ensures forall i, j :: 0 <= i < j < |Uniq(s)| ==> FirstIndex(s, Uniq(s)[i]) < FirstIndex(s, Uniq(s)[j])
  {
    if s != [] {
      UniqFirstOccurrenceOrder(Init(s));
      FirstIndexInit(s);
      var u := Uniq(Init(s));
      forall i, j | 0 <= i < j < |Uniq(s)|
        ensures FirstIndex(s, Uniq(s)[i]) < FirstIndex(s, Uniq(s)[j])
      {
        assert u[i] in Init(s);
        if j < |u| {
          assert u[j] in Init(s);
        } else {
          assert Uniq(s)[j] == Last(s) && Last(s) !in u;
          assert Last(s) !in Init(s);
        }
      }
    }
  }

  lemma FirstIndexInit<T>(s: seq<T>)
    requires |s| > 0
    ensures forall x :: x in Init(s) ==> FirstIndex(s, x) == FirstIndex(Init(s), x)
    ensures Last(s) !in Init(s) ==> FirstIndex(s, Last(s)) == |s| - 1
  {
    forall x | x in Init(s)
      ensures FirstIndex(s, x) == FirstIndex(Init(s), x)
    {
      FirstIndexOfEarlier(s, x);
    }
    if Last(s) !in Init(s) {
      FirstIndexOfNewLast(s);
    }
  }

  lemma FirstIndexOfEarlier<T>(s: seq<T>, x: T)
    requires |s| > 0 && x in Init(s)
    ensures x in s && FirstIndex(s, x) == FirstIndex(Init(s), x)
  {
    FirstIndexPrefix(Init(s), s, x);
  }

  lemma FirstIndexOfNewLast<T>(s: seq<T>)
    requires |s| > 0 && Last(s) !in Init(s)
    ensures FirstIndex(s, Last(s)) == |s| - 1
  {
    assert forall i :: 0 <= i < |s| - 1 ==> s[i] == Init(s)[i];
  }

  lemma {:induction false} FirstIndexPrefix<T>(a: seq<T>, s: seq<T>, x: T)
    requires x in a && a <= s
    ensures x in s && FirstIndex(s, x) == FirstIndex(a, x)
  {
    assert s[0] == a[0];
    if a[0] != x {
      assert a == [a[0]] + a[1..];
      FirstIndexPrefix(a[1..], s[1..], x);
    }
  }
}
