/** Small generic building blocks shared by every component model:
    an optional value (the source's `null` / `undefined`), filtering,
    first-occurrence de-duplication (`Array.from(new Set(xs))`) and
    integer sums (`reduce((sum, x) => sum + f(x), 0)`). */
module Base {

  /** A value that may be absent: `null` and `undefined` in the source. */
  datatype Option<+T> = None | Some(value: T) {
    /** The value, or `d` when absent. */
    function GetOr(d: T): T {
      match this
      case Some(v) => v
      case None => d
    }
  }

  /** `xs.filter(p)`: the elements satisfying `p`, in their original order. */
  function Filter<T(!new)>(xs: seq<T>, p: T -> bool): (r: seq<T>)
    ensures |r| <= |xs|
    ensures forall x :: x in r <==> x in xs && p(x)
  {
    if xs == [] then []
    else
      assert xs == [xs[0]] + xs[1..];
      (if p(xs[0]) then [xs[0]] else []) + Filter(xs[1..], p)
  }

  /** `idx` sends each position of `r` to a position of `xs` holding the same
      element, and keeps positions in increasing order. */
  ghost predicate IncreasingIndexMap<T>(r: seq<T>, xs: seq<T>, idx: seq<int>) {
    && |idx| == |r|
    && (forall k :: 0 <= k < |idx| ==> 0 <= idx[k] < |xs| && r[k] == xs[idx[k]])
    && (forall i, j :: 0 <= i < j < |idx| ==> idx[i] < idx[j])
  }

  /** `r` is `xs` with some elements left out and the rest in their order. */
  ghost predicate OrderedSubsequence<T>(r: seq<T>, xs: seq<T>) {
    exists idx :: IncreasingIndexMap(r, xs, idx)
  }

  /** `r` keeps the elements of `xs` satisfying `p`, each as often as in
      `xs`, in their order in `xs`, and nothing else: what a filter
      promises, stated without computing one. */
  ghost predicate KeepsInOrder<T(!new)>(r: seq<T>, xs: seq<T>, p: T -> bool) {
    && OrderedSubsequence(r, xs)
    && forall x :: multiset(r)[x] == if p(x) then multiset(xs)[x] else 0
  }

  /** A filter keeps exactly the elements satisfying `p`, each as often as
      in its input, and in their input order. */
  lemma FilterInOrder<T(!new)>(xs: seq<T>, p: T -> bool)
    ensures KeepsInOrder(Filter(xs, p), xs, p)
  {
    FilterMultiplicity(xs, p);
    FilterSubsequence(xs, p);
  }

  lemma {:induction false} FilterMultiplicity<T(!new)>(xs: seq<T>, p: T -> bool)
    ensures forall x :: multiset(Filter(xs, p))[x] == if p(x) then multiset(xs)[x] else 0
  {
    if xs != [] {
      FilterMultiplicity(xs[1..], p);
      assert xs == [xs[0]] + xs[1..];
      assert multiset(xs) == multiset{xs[0]} + multiset(xs[1..]);
      assert multiset(Filter(xs, p)) == multiset(if p(xs[0]) then [xs[0]] else []) + multiset(Filter(xs[1..], p));
    }
  }

  lemma {:induction false} FilterSubsequence<T(!new)>(xs: seq<T>, p: T -> bool)
    ensures OrderedSubsequence(Filter(xs, p), xs)
  {
    if xs == [] {
      assert IncreasingIndexMap(Filter(xs, p), xs, []);
    } else {
      var rest := Filter(xs[1..], p);
      FilterSubsequence(xs[1..], p);
      var j :| IncreasingIndexMap(rest, xs[1..], j);
      var sh := seq(|j|, k requires 0 <= k < |j| => j[k] + 1);
      assert IncreasingIndexMap(rest, xs, sh);
      if p(xs[0]) {
        ConsIndexMap(xs[0], rest, xs, sh);
      } else {
        assert Filter(xs, p) == rest;
      }
    }
  }

  /** Putting the first element of `xs` in front keeps an index map that
      avoids position 0. */
  lemma ConsIndexMap<T>(x: T, r: seq<T>, xs: seq<T>, idx: seq<int>)
    requires xs != [] && xs[0] == x && IncreasingIndexMap(r, xs, idx)
    requires forall k :: 0 <= k < |idx| ==> idx[k] > 0
    ensures IncreasingIndexMap([x] + r, xs, [0] + idx)
  {
  }

  /** A non-empty sequence is its prefix followed by its last element. */
  lemma LastSplit<T>(xs: seq<T>)
    requires xs != []
    ensures xs == xs[..|xs| - 1] + [xs[|xs| - 1]]
  {
  }

  lemma {:induction false} FilterAppend<T(!new)>(a: seq<T>, b: seq<T>, p: T -> bool)
    ensures Filter(a + b, p) == Filter(a, p) + Filter(b, p)
  {
    if a == [] {
      assert a + b == b;
    } else {
      assert (a + b)[1..] == a[1..] + b;
      FilterAppend(a[1..], b, p);
    }
  }

  /** Nothing passes a filter no element satisfies. */
  lemma FilterNone<T(!new)>(xs: seq<T>, p: T -> bool)
    requires forall k :: 0 <= k < |xs| ==> !p(xs[k])
    ensures Filter(xs, p) == []
  {
  }

  /** The number of elements satisfying `p` (`xs.filter(p).length`). */
  function Count<T(!new)>(xs: seq<T>, p: T -> bool): nat {
    |Filter(xs, p)|
  }

  /** Counts agree on sequences whose elements pass their predicates index by index. */
  lemma {:induction false} CountIndexwise<A(!new), B(!new)>(a: seq<A>, b: seq<B>, p: A -> bool, q: B -> bool)
    requires |a| == |b|
    requires forall k :: 0 <= k < |a| ==> p(a[k]) == q(b[k])
    ensures Count(a, p) == Count(b, q)
  {
    if a != [] {
      CountIndexwise(a[1..], b[1..], p, q);
    }
  }

  /** `xs.map(x => p(x) ? v : x)`: every element satisfying `p` replaced by `v`. */
  function ReplaceWhere<T>(xs: seq<T>, p: T -> bool, v: T): (r: seq<T>)
    ensures |r| == |xs|
    ensures forall k :: 0 <= k < |xs| ==> r[k] == (if p(xs[k]) then v else xs[k])
  {
    if xs == [] then [] else [if p(xs[0]) then v else xs[0]] + ReplaceWhere(xs[1..], p, v)
  }

  /** `xs.reduce((sum, x) => sum + f(x), 0)`. */
  function Sum<T>(xs: seq<T>, f: T -> int): int {
    if xs == [] then 0 else f(xs[0]) + Sum(xs[1..], f)
  }

  lemma {:induction false} SumAppend<T>(a: seq<T>, b: seq<T>, f: T -> int)
    ensures Sum(a + b, f) == Sum(a, f) + Sum(b, f)
  {
    if a == [] {
      assert a + b == b;
    } else {
      assert (a + b)[1..] == a[1..] + b;
      SumAppend(a[1..], b, f);
    }
  }

  /** Taking out the term at `k` takes its value out of the sum. */
  lemma SumRemove<T>(b: seq<T>, k: nat, f: T -> int)
    requires k < |b|
    ensures Sum(b, f) == f(b[k]) + Sum(b[..k] + b[k + 1..], f)
  {
    assert b == b[..k] + [b[k]] + b[k + 1..];
    SumAppend(b[..k] + [b[k]], b[k + 1..], f);
    SumAppend(b[..k], [b[k]], f);
    SumAppend(b[..k], b[k + 1..], f);
  }

  /** Taking out the element at `k` takes one copy out of the multiset. */
  lemma MultisetRemove<T>(b: seq<T>, k: nat)
    requires k < |b|
    ensures multiset(b[..k] + b[k + 1..]) == multiset(b) - multiset{b[k]}
  {
    assert b == b[..k] + [b[k]] + b[k + 1..];
    assert multiset(b) == multiset(b[..k]) + multiset{b[k]} + multiset(b[k + 1..]);
  }

  /** In a permutation of a non-empty `a`, some position holds `a[0]` and the
      rest of `b` is a permutation of the rest of `a`. */
  lemma PermutationHead<T>(a: seq<T>, b: seq<T>) returns (k: nat)
    requires multiset(a) == multiset(b) && a != []
    ensures k < |b| && b[k] == a[0] && multiset(a[1..]) == multiset(b[..k] + b[k + 1..])
  {
    assert a[0] in multiset(b);
    k :| 0 <= k < |b| && b[k] == a[0];
    MultisetRemove(b, k);
    assert a == [a[0]] + a[1..];
    assert multiset(a) == multiset{a[0]} + multiset(a[1..]);
  }

  /** A sum does not depend on the order of its terms. */
  lemma {:induction false} SumPermutation<T>(a: seq<T>, b: seq<T>, f: T -> int)
    requires multiset(a) == multiset(b)
    ensures Sum(a, f) == Sum(b, f)
  {
    if a == [] {
      assert b == [] by { assert |multiset(b)| == 0; }
    } else {
      var k := PermutationHead(a, b);
      SumPermutation(a[1..], b[..k] + b[k + 1..], f);
      SumRemove(b, k, f);
    }
  }

  /** Sums of pointwise-equal terms are equal. */
  lemma {:induction false} SumPointwise<T>(xs: seq<T>, f: T -> int, g: T -> int)
    requires forall k :: 0 <= k < |xs| ==> f(xs[k]) == g(xs[k])
    ensures Sum(xs, f) == Sum(xs, g)
  {
    if xs != [] {
      SumPointwise(xs[1..], f, g);
    }
  }

  /** Sums over two equally long sequences whose terms agree index by index are equal. */
  lemma {:induction false} SumIndexwise<A, B>(a: seq<A>, b: seq<B>, f: A -> int, g: B -> int)
    requires |a| == |b|
    requires forall k :: 0 <= k < |a| ==> f(a[k]) == g(b[k])
    ensures Sum(a, f) == Sum(b, g)
  {
    if a != [] {
      SumIndexwise(a[1..], b[1..], f, g);
    }
  }

  /** `f` on the elements satisfying `p`, zero elsewhere. */
  function Masked<T>(p: T -> bool, f: T -> int): T -> int {
    x => if p(x) then f(x) else 0
  }

  /** Summing over a filtered sequence is summing the masked terms over all of it. */
  lemma {:induction false} SumFilter<T(!new)>(xs: seq<T>, p: T -> bool, f: T -> int)
    ensures Sum(Filter(xs, p), f) == Sum(xs, Masked(p, f))
  {
    if xs != [] {
      SumFilter(xs[1..], p, f);
      SumAppend(if p(xs[0]) then [xs[0]] else [], Filter(xs[1..], p), f);
    }
  }

  /** A sum of non-negative terms over a filtered sequence is at most the full sum. */
  lemma {:induction false} SumFilterBound<T(!new)>(xs: seq<T>, p: T -> bool, f: T -> int)
    requires forall x :: x in xs ==> f(x) >= 0
    ensures 0 <= Sum(Filter(xs, p), f) <= Sum(xs, f)
  {
    if xs != [] {
      SumFilterBound(xs[1..], p, f);
      SumAppend(if p(xs[0]) then [xs[0]] else [], Filter(xs[1..], p), f);
    }
  }

  /** `xs.findIndex(p)`, with `None` for -1. */
  function FindIndex<T>(xs: seq<T>, p: T -> bool): (r: Option<nat>)
    ensures r.Some? ==> r.value < |xs| && p(xs[r.value])
    ensures r.Some? ==> forall j :: 0 <= j < r.value ==> !p(xs[j])
    ensures r.None? ==> forall j :: 0 <= j < |xs| ==> !p(xs[j])
  {
    if xs == [] then None
    else if p(xs[0]) then Some(0)
    else match FindIndex(xs[1..], p)
      case None => None
      case Some(k) => Some(k + 1)
  }

  /** `xs.find(p)`: the first element satisfying `p`, if any. */
  function Find<T>(xs: seq<T>, p: T -> bool): Option<T> {
    match FindIndex(xs, p)
    case None => None
    case Some(k) => Some(xs[k])
  }

  /** The present values of a sequence of options, in order. */
  function Somes<T(!new)>(os: seq<Option<T>>): (r: seq<T>)
    ensures forall x :: x in r <==> Some(x) in os
  {
    if os == [] then []
    else
      assert os == [os[0]] + os[1..];
      (if os[0].Some? then [os[0].value] else []) + Somes(os[1..])
  }

  predicate IsSome<T>(o: Option<T>) {
    o.Some?
  }

  /** One present value per present option. */
  lemma {:induction false} SomesLength<T(!new)>(os: seq<Option<T>>)
    ensures |Somes(os)| == Count(os, IsSome)
  {
    if os != [] {
      SomesLength(os[1..]);
      assert os == [os[0]] + os[1..];
    }
  }

  /** Reordering does not change a count. */
  lemma CountPermutation<T(!new)>(a: seq<T>, b: seq<T>, p: T -> bool)
    requires multiset(a) == multiset(b)
    ensures Count(a, p) == Count(b, p)
  {
    FilterMultiplicity(a, p);
    FilterMultiplicity(b, p);
    assert multiset(Filter(a, p)) == multiset(Filter(b, p));
    assert |Filter(a, p)| == |multiset(Filter(a, p))|;
    assert |Filter(b, p)| == |multiset(Filter(b, p))|;
  }

  /** No element occurs twice. */
  predicate NoDuplicates<T(==)>(xs: seq<T>) {
    forall i, j :: 0 <= i < j < |xs| ==> xs[i] != xs[j]
  }

  /** Index of the first occurrence of `x` in `xs`. */
  function FirstIndex<T(==)>(xs: seq<T>, x: T): (k: nat)
    requires x in xs
    ensures k < |xs| && xs[k] == x
    ensures forall j :: 0 <= j < k ==> xs[j] != x
  {
    if xs[0] == x then 0 else 1 + FirstIndex(xs[1..], x)
  }

  /** `Array.from(new Set(xs))`: the distinct elements of `xs` in the order of
      their first occurrence (a JavaScript `Set` iterates in insertion order). */
  function Distinct<T(==,!new)>(xs: seq<T>): (r: seq<T>)
    ensures NoDuplicates(r)
    ensures forall x :: x in r <==> x in xs
    ensures |r| <= |xs|
    ensures xs != [] ==> r != [] && r[0] == xs[0]
  {
    if xs == [] then []
    else
      var prefix := Distinct(xs[..|xs| - 1]);
      var last := xs[|xs| - 1];
      assert forall x :: x in xs <==> x in xs[..|xs| - 1] || x == last by {
        assert xs == xs[..|xs| - 1] + [last];
      }
      if last in prefix then prefix else prefix + [last]
  }

  lemma FirstIndexPrefix<T>(xs: seq<T>, n: nat, x: T)
    requires n <= |xs| && x in xs[..n]
    ensures x in xs && FirstIndex(xs, x) == FirstIndex(xs[..n], x)
  {
    var k := FirstIndex(xs[..n], x);
    assert xs[k] == x;
    var m := FirstIndex(xs, x);
    assert m <= k;
    assert xs[..n][m] == x;
  }

  /** The distinct elements appear in the order of their first occurrence in `xs`. */
  lemma {:induction false} DistinctFirstOccurrenceOrder<T(!new)>(xs: seq<T>)
    ensures forall i, j :: 0 <= i < j < |Distinct(xs)| ==>
              FirstIndex(xs, Distinct(xs)[i]) < FirstIndex(xs, Distinct(xs)[j])
  {
    if xs != [] {
      var n := |xs| - 1;
      var init := xs[..n];
      var last := xs[n];
      var prefix := Distinct(init);
      DistinctFirstOccurrenceOrder(init);
      var r := Distinct(xs);
      assert r == prefix || (r == prefix + [last] && last !in init);
      forall i, j | 0 <= i < j < |r|
        ensures FirstIndex(xs, r[i]) < FirstIndex(xs, r[j])
      {
        assert r[i] == prefix[i];
        FirstIndexPrefix(xs, n, r[i]);
        if j < |prefix| {
          assert r[j] == prefix[j];
          FirstIndexPrefix(xs, n, r[j]);
        } else {
          assert r[j] == last && last !in init;
          assert FirstIndex(xs, last) == n;
        }
      }
    }
  }

  /** Filtering twice is filtering once by the conjunction. */
  lemma {:induction false} FilterFilter<T(!new)>(xs: seq<T>, p: T -> bool, q: T -> bool, pq: T -> bool)
    requires forall k :: 0 <= k < |xs| ==> pq(xs[k]) == (p(xs[k]) && q(xs[k]))
    ensures Filter(Filter(xs, p), q) == Filter(xs, pq)
  {
    if xs != [] {
      FilterFilter(xs[1..], p, q, pq);
      FilterAppend(if p(xs[0]) then [xs[0]] else [], Filter(xs[1..], p), q);
    }
  }

  /** Filters by pointwise-equal predicates agree. */
  lemma {:induction false} FilterPointwise<T(!new)>(xs: seq<T>, p: T -> bool, q: T -> bool)
    requires forall k :: 0 <= k < |xs| ==> p(xs[k]) == q(xs[k])
    ensures Filter(xs, p) == Filter(xs, q)
  {
    if xs != [] {
      FilterPointwise(xs[1..], p, q);
    }
  }

  /** Every element's key, in order: `xs.map(key)`. */
  function Keys<T, K>(xs: seq<T>, key: T -> K): (r: seq<K>)
    ensures |r| == |xs| && forall k :: 0 <= k < |xs| ==> r[k] == key(xs[k])
  {
    seq(|xs|, k requires 0 <= k < |xs| => key(xs[k]))
  }

  /** The predicate "has key `k`". */
  function KeyIs<T, K(==)>(key: T -> K, k: K): T -> bool {
    x => key(x) == k
  }

  /** For each key `k`, the sum of `f` over the elements of `xs` with key `k`. */
  function KeyTotal<T(!new), K(==)>(xs: seq<T>, key: T -> K, f: T -> int): K -> int {
    k => Sum(Filter(xs, KeyIs(key, k)), f)
  }

  /** `v` at key `kx`, zero at every other key. */
  function Hit<K(==)>(kx: K, v: int): K -> int {
    k => if k == kx then v else 0
  }

  lemma {:induction false} SumHit<K>(ks: seq<K>, kx: K, v: int)
    requires NoDuplicates(ks)
    ensures Sum(ks, Hit(kx, v)) == if kx in ks then v else 0
  {
    if ks != [] {
      SumHit(ks[1..], kx, v);
      assert kx in ks <==> ks[0] == kx || kx in ks[1..];
    }
  }

  lemma {:induction false} SumZero<T>(xs: seq<T>, g: T -> int)
    requires forall k :: 0 <= k < |xs| ==> g(xs[k]) == 0
    ensures Sum(xs, g) == 0
  {
    if xs != [] {
      SumZero(xs[1..], g);
    }
  }

  lemma {:induction false} SumPlus<T>(xs: seq<T>, g: T -> int, h: T -> int, gh: T -> int)
    requires forall k :: 0 <= k < |xs| ==> gh(xs[k]) == g(xs[k]) + h(xs[k])
    ensures Sum(xs, gh) == Sum(xs, g) + Sum(xs, h)
  {
    if xs != [] {
      SumPlus(xs[1..], g, h, gh);
    }
  }

  /** Grouping by key loses and duplicates nothing: when every element's key
      occurs exactly once in `ks`, the per-key sums add up to the whole sum. */
  lemma {:induction false} SumByKeys<T(!new), K(!new)>(ks: seq<K>, xs: seq<T>, key: T -> K, f: T -> int)
    requires NoDuplicates(ks)
    requires forall k :: 0 <= k < |xs| ==> key(xs[k]) in ks
    ensures Sum(ks, KeyTotal(xs, key, f)) == Sum(xs, f)
  {
    if xs == [] {
      SumZero(ks, KeyTotal(xs, key, f));
    } else {
      var x := xs[0];
      var rest := xs[1..];
      SumByKeys(ks, rest, key, f);
      forall k | 0 <= k < |ks|
        ensures KeyTotal(xs, key, f)(ks[k]) == Hit(key(x), f(x))(ks[k]) + KeyTotal(rest, key, f)(ks[k])
      {
        var p := KeyIs(key, ks[k]);
        assert Filter(xs, p) == (if p(x) then [x] else []) + Filter(rest, p);
        SumAppend(if p(x) then [x] else [], Filter(rest, p), f);
      }
      SumPlus(ks, Hit(key(x), f(x)), KeyTotal(rest, key, f), KeyTotal(xs, key, f));
      SumHit(ks, key(x), f(x));
    }
  }

  /** In a duplicate-free sequence every element occurs at most once. */
  lemma {:induction false} NoDuplicatesMultiplicity<T>(a: seq<T>, x: T)
    requires NoDuplicates(a)
    ensures multiset(a)[x] <= 1
  {
    if a != [] {
      NoDuplicatesMultiplicity(a[1..], x);
      assert a == [a[0]] + a[1..];
      assert a[0] !in a[1..];
    }
  }

  /** Reordering keeps a sequence duplicate-free. */
  lemma NoDuplicatesPermutation<T>(a: seq<T>, b: seq<T>)
    requires multiset(a) == multiset(b) && NoDuplicates(a)
    ensures NoDuplicates(b)
  {
    forall i, j | 0 <= i < j < |b|
      ensures b[i] != b[j]
    {
      if b[i] == b[j] {
        var x := b[i];
        assert b == b[..i] + [x] + b[i + 1..j] + [x] + b[j + 1..];
        assert multiset(b)[x] >= 2;
        NoDuplicatesMultiplicity(a, x);
        assert false;
      }
    }
  }
}
