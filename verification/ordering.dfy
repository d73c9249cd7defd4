/** Ordering of display names and the stable sort the reports and the
    district chart use. `String.prototype.localeCompare` is locale-dependent;
    it is represented here by a fixed total order on strings, the
    lexicographic order on characters. */
module Ordering {
  import opened Base

  /** `a` sorts no later than `b`: lexicographic order on characters. */
  predicate NameLeq(a: string, b: string) {
    |a| == 0 || (|b| > 0 && (a[0] < b[0] || (a[0] == b[0] && NameLeq(a[1..], b[1..]))))
  }

  lemma {:induction false} NameLeqTotal(a: string, b: string)
    ensures NameLeq(a, b) || NameLeq(b, a)
  {
    if |a| > 0 && |b| > 0 && a[0] == b[0] {
      NameLeqTotal(a[1..], b[1..]);
    }
  }

  lemma {:induction false} NameLeqTransitive(a: string, b: string, c: string)
    requires NameLeq(a, b) && NameLeq(b, c)
    ensures NameLeq(a, c)
  {
    if |a| > 0 && a[0] == b[0] && b[0] == c[0] {
      NameLeqTransitive(a[1..], b[1..], c[1..]);
    }
  }

  lemma {:induction false} NameLeqAntisymmetric(a: string, b: string)
    requires NameLeq(a, b) && NameLeq(b, a)
    ensures a == b
  {
    if |a| > 0 {
      NameLeqAntisymmetric(a[1..], b[1..]);
      assert a == [a[0]] + a[1..] && b == [b[0]] + b[1..];
    }
  }

  /** The keys of `s` are in non-decreasing order. */
  predicate SortedBy<T>(s: seq<T>, key: T -> string) {
    forall i, j :: 0 <= i < j < |s| ==> NameLeq(key(s[i]), key(s[j]))
  }

  /** Inserts `x` before the first element whose key is not smaller than its own. */
  function InsertBy<T>(x: T, s: seq<T>, key: T -> string): (r: seq<T>)
    ensures multiset(r) == multiset(s) + multiset{x}
    ensures |r| == |s| + 1
  {
    if s == [] then [x]
    else if NameLeq(key(x), key(s[0])) then [x] + s
    else
      assert s == [s[0]] + s[1..];
      [s[0]] + InsertBy(x, s[1..], key)
  }

  /** In a sorted sequence the head is no larger than any element. */
  lemma HeadIsLeast<T>(s: seq<T>, key: T -> string, y: T)
    requires SortedBy(s, key) && y in s
    ensures NameLeq(key(s[0]), key(y))
  {
    var m :| 0 <= m < |s| && s[m] == y;
    if m == 0 {
      NameLeqTotal(key(y), key(y));
    }
  }

  lemma {:induction false} InsertBySorted<T>(x: T, s: seq<T>, key: T -> string)
    requires SortedBy(s, key)
    ensures SortedBy(InsertBy(x, s, key), key)
  {
    var r := InsertBy(x, s, key);
    if s == [] {
    } else if NameLeq(key(x), key(s[0])) {
      forall i, j | 0 <= i < j < |r|
        ensures NameLeq(key(r[i]), key(r[j]))
      {
        if i == 0 {
          HeadIsLeast(s, key, r[j]);
          NameLeqTransitive(key(x), key(s[0]), key(r[j]));
        } else {
          assert r[i] == s[i - 1] && r[j] == s[j - 1];
        }
      }
    } else {
      var t := InsertBy(x, s[1..], key);
      assert SortedBy(s[1..], key);
      InsertBySorted(x, s[1..], key);
      NameLeqTotal(key(x), key(s[0]));
      ConsSorted(s, x, t, key);
      assert r == [s[0]] + t;
    }
  }

  /** Putting the head of a sorted `s` in front of a sorted `t` that holds
      the rest of `s` and an `x` above the head keeps the order. */
  lemma ConsSorted<T>(s: seq<T>, x: T, t: seq<T>, key: T -> string)
    requires s != [] && SortedBy(s, key) && SortedBy(t, key)
    requires multiset(t) == multiset(s[1..]) + multiset{x}
    requires NameLeq(key(s[0]), key(x))
    ensures SortedBy([s[0]] + t, key)
  {
    var r := [s[0]] + t;
    forall i, j | 0 <= i < j < |r|
      ensures NameLeq(key(r[i]), key(r[j]))
    {
      if i == 0 {
        assert r[j] in multiset(t);
        if r[j] != x {
          assert r[j] in multiset(s[1..]);
          assert r[j] in s;
          HeadIsLeast(s, key, r[j]);
        }
      } else {
        assert r[i] == t[i - 1] && r[j] == t[j - 1];
      }
    }
  }

  lemma MultisetCons<T>(s: seq<T>)
    requires s != []
    ensures multiset(s) == multiset(s[1..]) + multiset{s[0]}
  {
    assert s == [s[0]] + s[1..];
  }

  /** Stable insertion sort by `key`, the result of `[...s].sort((a, b) =>
      key(a).localeCompare(key(b)))` under the fixed order `NameLeq`. */
  function SortBy<T>(s: seq<T>, key: T -> string): (r: seq<T>)
    ensures multiset(r) == multiset(s)
    ensures |r| == |s|
    ensures SortedBy(r, key)
  {
    if s == [] then []
    else
      var rest := SortBy(s[1..], key);
      InsertBySorted(s[0], rest, key);
      MultisetCons(s);
      InsertBy(s[0], rest, key)
  }

  /** Inserting `x` puts it ahead of every element with the same key, so the
      elements of each key keep their relative order. */
  lemma {:induction false} InsertByKeepsKeyOrder<T(!new)>(x: T, s: seq<T>, key: T -> string, k: string)
    ensures Filter(InsertBy(x, s, key), KeyIs(key, k))
            == (if key(x) == k then [x] else []) + Filter(s, KeyIs(key, k))
  {
    var p := KeyIs(key, k);
    if s == [] {
    } else if NameLeq(key(x), key(s[0])) {
      FilterCons(x, s, p);
    } else {
      var rest := InsertBy(x, s[1..], key);
      InsertByKeepsKeyOrder(x, s[1..], key, k);
      NameLeqTotal(key(x), key(x));
      assert InsertBy(x, s, key) == [s[0]] + rest;
      FilterCons(s[0], rest, p);
      FilterCons(s[0], s[1..], p);
      assert [s[0]] + s[1..] == s;
      SwapDisjoint(if p(s[0]) then [s[0]] else [], if p(x) then [x] else [], Filter(s[1..], p));
    }
  }

  /** Filtering a sequence with a given head. */
  lemma FilterCons<T(!new)>(x: T, s: seq<T>, p: T -> bool)
    ensures Filter([x] + s, p) == (if p(x) then [x] else []) + Filter(s, p)
  {
    FilterAppend([x], s, p);
    assert Filter([x], p) == (if p(x) then [x] else []) + Filter([x][1..], p);
  }

  /** Two pieces of which at least one is empty can change places. */
  lemma SwapDisjoint<T>(a: seq<T>, b: seq<T>, c: seq<T>)
    requires a == [] || b == []
    ensures a + (b + c) == b + (a + c)
  {
  }

  /** `SortBy` is stable: the elements sharing a key appear in the result in
      the order they have in the input. */
  lemma {:induction false} SortByStable<T(!new)>(s: seq<T>, key: T -> string, k: string)
    ensures Filter(SortBy(s, key), KeyIs(key, k)) == Filter(s, KeyIs(key, k))
  {
    if s != [] {
      SortByStable(s[1..], key, k);
      InsertByKeepsKeyOrder(s[0], SortBy(s[1..], key), key, k);
      assert s == [s[0]] + s[1..];
    }
  }

  /** Integers in non-decreasing order. */
  predicate SortedInts(s: seq<int>) {
    forall i, j :: 0 <= i < j < |s| ==> s[i] <= s[j]
  }

  /** Inserts `x` before the first element not smaller than it. */
  function InsertInt(x: int, s: seq<int>): (r: seq<int>)
    ensures multiset(r) == multiset(s) + multiset{x}
    ensures |r| == |s| + 1
  {
    if s == [] then [x]
    else if x <= s[0] then [x] + s
    else
      assert s == [s[0]] + s[1..];
      [s[0]] + InsertInt(x, s[1..])
  }

  lemma {:induction false} InsertIntSorted(x: int, s: seq<int>)
    requires SortedInts(s)
    ensures SortedInts(InsertInt(x, s))
  {
    var r := InsertInt(x, s);
    if s != [] && x > s[0] {
      var t := InsertInt(x, s[1..]);
      InsertIntSorted(x, s[1..]);
      ConsSortedInts(s, x, t);
      assert r == [s[0]] + t;
    }
  }

  /** The integer counterpart of `ConsSorted`. */
  lemma ConsSortedInts(s: seq<int>, x: int, t: seq<int>)
    requires s != [] && SortedInts(s) && SortedInts(t)
    requires multiset(t) == multiset(s[1..]) + multiset{x}
    requires s[0] < x
    ensures SortedInts([s[0]] + t)
  {
    var r := [s[0]] + t;
    forall i, j | 0 <= i < j < |r|
      ensures r[i] <= r[j]
    {
      if i == 0 {
        assert r[j] in multiset(t);
        if r[j] != x {
          assert r[j] in multiset(s[1..]);
          var m :| 0 <= m < |s[1..]| && s[1..][m] == r[j];
          assert s[m + 1] == r[j];
        }
      } else {
        assert r[i] == t[i - 1] && r[j] == t[j - 1];
      }
    }
  }

  /** Insertion sort on integers: the order of a JavaScript object's
      integer-like keys. */
  function SortInts(s: seq<int>): (r: seq<int>)
    ensures multiset(r) == multiset(s)
    ensures SortedInts(r)
  {
    if s == [] then []
    else
      var rest := SortInts(s[1..]);
      InsertIntSorted(s[0], rest);
      MultisetCons(s);
      InsertInt(s[0], rest)
  }
}
