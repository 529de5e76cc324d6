/** A stable sort by an integer key, as the standard library's `sort_by_key`. */
module Sorting {
  import opened Sequences

  function Insert<T>(s: seq<T>, x: T, key: T -> int): seq<T> {
    if s == [] || key(s[|s| - 1]) <= key(x) then s + [x]
    else Insert(s[..|s| - 1], x, key) + [s[|s| - 1]]
  }

  function SortBy<T>(s: seq<T>, key: T -> int): seq<T> {
    if s == [] then [] else Insert(SortBy(s[..|s| - 1], key), s[|s| - 1], key)
  }

  ghost predicate Sorted<T>(s: seq<T>, key: T -> int) {
    forall i, j | 0 <= i < j < |s| :: key(s[i]) <= key(s[j])
  }

  /** No two positions agree on `f`. */
  ghost predicate DistinctBy<T, K>(s: seq<T>, f: T -> K) {
    forall i, j | 0 <= i < j < |s| :: f(s[i]) != f(s[j])
  }

  lemma {:induction false} InsertElements<T>(s: seq<T>, x: T, key: T -> int, y: T)
    ensures y in Insert(s, x, key) <==> y == x || y in s
    decreases |s|
  {
    if s != [] && key(s[|s| - 1]) > key(x) {
      InsertElements(s[..|s| - 1], x, key, y);
      assert s == s[..|s| - 1] + [s[|s| - 1]];
    }
  }

  lemma {:induction false} InsertSorts<T>(s: seq<T>, x: T, key: T -> int)
    requires Sorted(s, key)
    ensures Sorted(Insert(s, x, key), key)
    decreases |s|
  {
    if s != [] && key(s[|s| - 1]) > key(x) {
      var init, last := s[..|s| - 1], s[|s| - 1];
      InsertSorts(init, x, key);
      forall y | y in Insert(init, x, key) ensures key(y) <= key(last) {
        InsertElements(init, x, key, y);
      }
    }
  }

  lemma {:induction false} InsertCounts<T>(s: seq<T>, x: T, key: T -> int)
    ensures multiset(Insert(s, x, key)) == multiset(s) + multiset{x}
    decreases |s|
  {
    if s != [] && key(s[|s| - 1]) > key(x) {
      InsertCounts(s[..|s| - 1], x, key);
      assert s == s[..|s| - 1] + [s[|s| - 1]];
    }
  }

  /** The result is in order and holds exactly what came in. */
  lemma {:induction false} SortBySorts<T>(s: seq<T>, key: T -> int)
    ensures Sorted(SortBy(s, key), key)
    ensures multiset(SortBy(s, key)) == multiset(s)
    decreases |s|
  {
    if s != [] {
      SortBySorts(s[..|s| - 1], key);
      InsertSorts(SortBy(s[..|s| - 1], key), s[|s| - 1], key);
      InsertCounts(SortBy(s[..|s| - 1], key), s[|s| - 1], key);
      assert s == s[..|s| - 1] + [s[|s| - 1]];
    }
  }

  /** The elements with this key, in their order. */
  function WithKey<T>(s: seq<T>, key: T -> int, k: int): seq<T> {
    if s == [] then []
    else WithKey(s[..|s| - 1], key, k) + if key(s[|s| - 1]) == k then [s[|s| - 1]] else []
  }

  lemma {:induction false} InsertIsStable<T>(s: seq<T>, x: T, key: T -> int, k: int)
    requires Sorted(s, key)
    ensures WithKey(Insert(s, x, key), key, k) == WithKey(s, key, k) + if key(x) == k then [x] else []
    decreases |s|
  {
    if s == [] || key(s[|s| - 1]) <= key(x) {
      assert (s + [x])[..|s|] == s;
    } else {
      var init, last := s[..|s| - 1], s[|s| - 1];
      InsertIsStable(init, x, key, k);
      assert Insert(s, x, key)[..|Insert(s, x, key)| - 1] == Insert(init, x, key);
      if key(last) == k && key(x) != k {
        assert WithKey(init, key, k) + [] == WithKey(init, key, k);
      }
    }
  }

  /** Elements with equal keys keep the order they came in. */
  lemma {:induction false} SortByIsStable<T>(s: seq<T>, key: T -> int, k: int)
    ensures WithKey(SortBy(s, key), key, k) == WithKey(s, key, k)
    decreases |s|
  {
    if s != [] {
      SortByIsStable(s[..|s| - 1], key, k);
      SortBySorts(s[..|s| - 1], key);
      InsertIsStable(SortBy(s[..|s| - 1], key), s[|s| - 1], key, k);
    }
  }

  lemma SortByKeepsElements<T>(s: seq<T>, key: T -> int, x: T)
    ensures x in SortBy(s, key) <==> x in s
  {
    SortBySorts(s, key);
    assert x in SortBy(s, key) <==> x in multiset(SortBy(s, key));
  }

  lemma {:induction false} InsertKeepsDistinct<T, K>(s: seq<T>, x: T, key: T -> int, f: T -> K)
    requires DistinctBy(s, f)
    requires forall y | y in s :: f(y) != f(x)
    ensures DistinctBy(Insert(s, x, key), f)
    decreases |s|
  {
    if s != [] && key(s[|s| - 1]) > key(x) {
      var init, last := s[..|s| - 1], s[|s| - 1];
      InsertKeepsDistinct(init, x, key, f);
      forall y | y in Insert(init, x, key) ensures f(y) != f(last) {
        InsertElements(init, x, key, y);
      }
    }
  }

  lemma {:induction false} SortByKeepsDistinct<T, K>(s: seq<T>, key: T -> int, f: T -> K)
    requires DistinctBy(s, f)
    ensures DistinctBy(SortBy(s, key), f)
    decreases |s|
  {
    if s != [] {
      var init := s[..|s| - 1];
      SortByKeepsDistinct(init, key, f);
      forall y | y in SortBy(init, key) ensures f(y) != f(s[|s| - 1]) {
        SortByKeepsElements(init, key, y);
      }
      InsertKeepsDistinct(SortBy(init, key), s[|s| - 1], key, f);
    }
  }

  lemma {:induction false} FilterKeepsDistinct<T(!new), K>(s: seq<T>, p: T -> bool, f: T -> K)
    requires DistinctBy(s, f)
    ensures DistinctBy(Filter(s, p), f)
    decreases |s|
  {
    if s != [] {
      var init, last := s[..|s| - 1], s[|s| - 1];
      FilterKeepsDistinct(init, p, f);
      FilterElements(init, p);
      forall x | x in Filter(init, p) ensures f(x) != f(last) {
        assert x in init;
      }
    }
  }

  /** Two sequences of one length whose keys agree position by position. */
  ghost predicate SameKeys<T>(a: seq<T>, b: seq<T>, key: T -> int) {
    |a| == |b| && forall i | 0 <= i < |a| :: key(a[i]) == key(b[i])
  }

  lemma AppendIsInjective<T>(a: seq<T>, b: seq<T>, x: T, y: T)
    requires |a| == |b|
    ensures a + [x] == b + [y] <==> a == b && x == y
  {
    assert (a + [x])[..|a|] == a && (b + [y])[..|b|] == b && (a + [x])[|a|] == x && (b + [y])[|b|] == y;
  }

  lemma SameKeysAppend<T>(a: seq<T>, b: seq<T>, x: T, y: T, key: T -> int)
    requires SameKeys(a, b, key) && key(x) == key(y)
    ensures SameKeys(a + [x], b + [y], key)
  {
  }

  lemma {:induction false} InsertIsInjective<T>(a: seq<T>, b: seq<T>, x: T, y: T, key: T -> int)
    requires SameKeys(a, b, key) && key(x) == key(y)
    ensures SameKeys(Insert(a, x, key), Insert(b, y, key), key)
    ensures Insert(a, x, key) == Insert(b, y, key) ==> a == b && x == y
    decreases |a|
  {
    if a == [] || key(a[|a| - 1]) <= key(x) {
      AppendIsInjective(a, b, x, y);
      SameKeysAppend(a, b, x, y, key);
    } else {
      var a', b', last, last' := a[..|a| - 1], b[..|b| - 1], a[|a| - 1], b[|b| - 1];
      InsertIsInjective(a', b', x, y, key);
      AppendIsInjective(Insert(a', x, key), Insert(b', y, key), last, last');
      SameKeysAppend(Insert(a', x, key), Insert(b', y, key), last, last', key);
      SplitLast(a);
      SplitLast(b);
    }
  }

  /** Sequences whose keys agree are moved alike, so they are equal if and only if they are equal when sorted. */
  lemma {:induction false} SortIsInjective<T>(a: seq<T>, b: seq<T>, key: T -> int)
    requires SameKeys(a, b, key)
    ensures SameKeys(SortBy(a, key), SortBy(b, key), key)
    ensures SortBy(a, key) == SortBy(b, key) ==> a == b
    decreases |a|
  {
    if a != [] {
      var a', b' := a[..|a| - 1], b[..|b| - 1];
      SortIsInjective(a', b', key);
      InsertIsInjective(SortBy(a', key), SortBy(b', key), a[|a| - 1], b[|b| - 1], key);
      SplitLast(a);
      SplitLast(b);
    }
  }

  lemma InitElements<T>(s: seq<T>, key: T -> int, x: T)
    requires s != [] && DistinctBy(s, key)
    ensures x in s[..|s| - 1] <==> x in s && x != s[|s| - 1]
  {
  }

  lemma LastsAgree<T>(a: seq<T>, b: seq<T>, key: T -> int)
    requires Sorted(a, key) && Sorted(b, key) && DistinctBy(b, key)
    requires a != [] && b != [] && a[|a| - 1] in b && b[|b| - 1] in a
    ensures a[|a| - 1] == b[|b| - 1]
  {
  }

  lemma EmptyAlike<T>(a: seq<T>, b: seq<T>)
    requires forall x :: x in a <==> x in b
    ensures a == [] <==> b == []
  {
    if a != [] {
      assert a[0] in b;
    }
    if b != [] {
      assert b[0] in a;
    }
  }

  /** With distinct keys, what is in a sorted sequence fixes the sequence. */
  lemma {:induction false} SortedIsUnique<T>(a: seq<T>, b: seq<T>, key: T -> int)
    requires Sorted(a, key) && Sorted(b, key) && DistinctBy(a, key) && DistinctBy(b, key)
    requires forall x :: x in a <==> x in b
    ensures a == b
    decreases |a|
  {
    EmptyAlike(a, b);
    if a != [] {
      LastsAgree(a, b, key);
      var a', b' := a[..|a| - 1], b[..|b| - 1];
      forall x ensures x in a' <==> x in b' {
        InitElements(a, key, x);
        InitElements(b, key, x);
      }
      SortedIsUnique(a', b', key);
      assert a == a' + [a[|a| - 1]] && b == b' + [b[|b| - 1]];
    }
  }
}
