/** Sequence operations that the handlers and pages use over and over:
    Array.prototype.filter, the distinct elements of a list in the order a
    JavaScript Set iterates them, and counting. Recursion runs over the
    last element, the way a left-to-right reduce or loop grows its prefix. */
module Lists {

  /** ys keeps the elements xs keeps, in the same order, possibly with more
      in between. */
  predicate Subsequence<T(==)>(xs: seq<T>, ys: seq<T>)
    decreases |ys|
  {
    if ys == [] then xs == []
    else
      (xs != [] && xs[|xs| - 1] == ys[|ys| - 1] && Subsequence(xs[..|xs| - 1], ys[..|ys| - 1]))
      || Subsequence(xs, ys[..|ys| - 1])
  }

  /** The elements of xs that satisfy p, in their original order. */
  function Filter<T(==, !new)>(xs: seq<T>, p: T -> bool): (r: seq<T>)
    ensures |r| <= |xs|
    ensures forall x :: x in r <==> x in xs && p(x)
    ensures Subsequence(r, xs)
  {
    if xs == [] then []
    else
      var init := Filter(xs[..|xs| - 1], p);
      var last := xs[|xs| - 1];
      assert xs == xs[..|xs| - 1] + [last];
      if p(last) then
        var r := init + [last];
        assert r[..|r| - 1] == init;
        r
      else init
  }

  lemma {:induction false} FilterKeepsAll<T(!new)>(xs: seq<T>, p: T -> bool)
    requires forall x :: x in xs ==> p(x)
    ensures Filter(xs, p) == xs
  {
    if xs != [] {
      FilterKeepsAll(xs[..|xs| - 1], p);
      assert xs == xs[..|xs| - 1] + [xs[|xs| - 1]];
    }
  }

  /** Two filters in a row keep what one filter by the conjunction keeps. */
  lemma {:induction false} FilterFilter<T(!new)>(xs: seq<T>, p: T -> bool, q: T -> bool, pq: T -> bool)
    requires forall x :: pq(x) == (p(x) && q(x))
    ensures Filter(Filter(xs, p), q) == Filter(xs, pq)
  {
    if xs != [] {
      var init, last := xs[..|xs| - 1], xs[|xs| - 1];
      FilterFilter(init, p, q, pq);
      var fp := Filter(xs, p);
      if p(last) {
        assert fp == Filter(init, p) + [last];
        assert fp[..|fp| - 1] == Filter(init, p);
      }
    }
  }

  /** Filters by two conditions that agree everywhere keep the same. */
  lemma FilterSame<T(!new)>(xs: seq<T>, p: T -> bool, q: T -> bool)
    requires forall x :: p(x) == q(x)
    ensures Filter(xs, p) == Filter(xs, q)
  {
    FilterFilter(xs, p, x => true, q);
    FilterKeepsAll(Filter(xs, p), x => true);
  }

  lemma FilterSnoc<T(!new)>(init: seq<T>, last: T, p: T -> bool)
    ensures Filter(init + [last], p) == Filter(init, p) + (if p(last) then [last] else [])
  {
    assert (init + [last])[..|init|] == init;
  }

  /** A filter and the filter by the opposite condition split a list. */
  lemma {:induction false} FilterPartition<T(!new)>(xs: seq<T>, p: T -> bool, q: T -> bool)
    requires forall x :: q(x) == !p(x)
    ensures |Filter(xs, p)| + |Filter(xs, q)| == |xs|
    ensures multiset(Filter(xs, p)) + multiset(Filter(xs, q)) == multiset(xs)
  {
    if xs != [] {
      var init, last := xs[..|xs| - 1], xs[|xs| - 1];
      FilterPartition(init, p, q);
      assert xs == init + [last];
      FilterSnoc(init, last, p);
      FilterSnoc(init, last, q);
      assert q(last) == !p(last);
    }
  }

  predicate NoDup<T(==)>(xs: seq<T>)
  {
    forall i, j :: 0 <= i < j < |xs| ==> xs[i] != xs[j]
  }

  /** The position of the first occurrence of x in xs. */
  function FirstIndex<T(==)>(xs: seq<T>, x: T): (i: nat)
    requires x in xs
    ensures i < |xs| && xs[i] == x
    ensures forall j :: 0 <= j < i ==> xs[j] != x
  {
    if xs[0] == x then 0 else 1 + FirstIndex(xs[1..], x)
  }

  /** The distinct elements of xs in first-occurrence order, as
      `[...new Set(xs)]` gives them. */
  function Distinct<T(==, !new)>(xs: seq<T>): (r: seq<T>)
    ensures NoDup(r)
    ensures forall x :: x in r <==> x in xs
    ensures |r| <= |xs|
  {
    if xs == [] then []
    else
      var d := Distinct(xs[..|xs| - 1]);
      var last := xs[|xs| - 1];
      assert xs == xs[..|xs| - 1] + [last];
      if last in d then d else d + [last]
  }

  lemma FirstIndexInPrefix<T(!new)>(xs: seq<T>, n: nat, x: T)
    requires n <= |xs| && x in xs[..n]
    ensures FirstIndex(xs, x) == FirstIndex(xs[..n], x)
  {
    var i, k := FirstIndex(xs, x), FirstIndex(xs[..n], x);
    assert xs[k] == x;
    assert i < n ==> xs[..n][i] == xs[i];
  }

  /** Each distinct element comes before every element whose first
      occurrence is later. */
  lemma {:induction false} DistinctKeepsFirstOccurrenceOrder<T(!new)>(xs: seq<T>)
    ensures forall i, j :: 0 <= i < j < |Distinct(xs)| ==>
      FirstIndex(xs, Distinct(xs)[i]) < FirstIndex(xs, Distinct(xs)[j])
  {
    if xs != [] {
      var init, last := xs[..|xs| - 1], xs[|xs| - 1];
      DistinctKeepsFirstOccurrenceOrder(init);
      var d, r := Distinct(init), Distinct(xs);
      assert xs[..|xs| - 1] == init;
      forall i, j | 0 <= i < j < |r|
        ensures FirstIndex(xs, r[i]) < FirstIndex(xs, r[j])
      {
        FirstIndexInPrefix(xs, |init|, r[i]);
        if j < |d| {
          FirstIndexInPrefix(xs, |init|, r[j]);
        } else {
          assert r[j] == last && last !in init;
        }
      }
    }
  }

  /** The sum, over the keys, of how often each key occurs in m. */
  function SumCounts<T(!new)>(keys: seq<T>, m: multiset<T>): nat
  {
    if keys == [] then 0 else m[keys[0]] + SumCounts(keys[1..], m)
  }

  lemma {:induction false} SumCountsAdd<T(!new)>(keys: seq<T>, m: multiset<T>, y: T)
    ensures SumCounts(keys, m + multiset{y}) == SumCounts(keys, m) + multiset(keys)[y]
  {
    if keys != [] {
      SumCountsAdd(keys[1..], m, y);
      assert keys == [keys[0]] + keys[1..];
    }
  }

  lemma {:induction false} NoDupCountsOnce<T(!new)>(keys: seq<T>, y: T)
    requires NoDup(keys) && y in keys
    ensures multiset(keys)[y] == 1
  {
    var init, last := keys[..|keys| - 1], keys[|keys| - 1];
    assert keys == init + [last];
    if y == last {
      assert y !in init;
    } else {
      NoDupCountsOnce(init, y);
    }
  }

  /** Counting every element of m once per key, over keys without
      duplicates that cover m, counts all of m. */
  lemma {:induction false} SumCountsCoversAll<T(!new)>(keys: seq<T>, m: multiset<T>)
    requires NoDup(keys)
    requires forall x :: x in m ==> x in keys
    ensures SumCounts(keys, m) == |m|
    decreases |m|
  {
    if m == multiset{} {
      ZeroCounts(keys, m);
    } else {
      var y :| y in m;
      var rest := m - multiset{y};
      assert m == rest + multiset{y};
      SumCountsCoversAll(keys, rest);
      SumCountsAdd(keys, rest, y);
      NoDupCountsOnce(keys, y);
    }
  }

  lemma {:induction false} ZeroCounts<T(!new)>(keys: seq<T>, m: multiset<T>)
    requires m == multiset{}
    ensures SumCounts(keys, m) == 0
  {
    if keys != [] {
      ZeroCounts(keys[1..], m);
    }
  }

  /** The sum of the map's values at the given keys. */
  function SumValues<T(!new)>(keys: seq<T>, m: map<T, nat>): nat
    requires forall k :: k in keys ==> k in m
  {
    if keys == [] then 0 else m[keys[0]] + SumValues(keys[1..], m)
  }

  lemma {:induction false} SumValuesOfCounts<T(!new)>(keys: seq<T>, m: map<T, nat>, c: multiset<T>)
    requires forall k :: k in keys ==> k in m && m[k] == c[k]
    ensures SumValues(keys, m) == SumCounts(keys, c)
  {
    if keys != [] {
      SumValuesOfCounts(keys[1..], m, c);
    }
  }

  /** A rearrangement of a list without duplicates has none either. */
  lemma NoDupPermutation<T(!new)>(xs: seq<T>, ys: seq<T>)
    requires NoDup(xs) && multiset(xs) == multiset(ys)
    ensures NoDup(ys)
  {
    forall i, j | 0 <= i < j < |ys| ensures ys[i] != ys[j] {
      if ys[i] == ys[j] {
        var x := ys[i];
        assert ys == ys[..j] + ys[j..];
        assert x in ys[..j] && x in ys[j..];
        assert multiset(ys)[x] >= 2;
        NoDupCountsOnce(xs, x);
        assert false;
      }
    }
  }

  /** The elements of xs have pairwise different f-values. */
  predicate DistinctBy<T, K(==)>(xs: seq<T>, f: T -> K)
  {
    forall i, j :: 0 <= i < j < |xs| ==> f(xs[i]) != f(xs[j])
  }

  /** A rearrangement keeps the f-values pairwise different. */
  lemma DistinctByPermutation<T(!new), K>(xs: seq<T>, ys: seq<T>, f: T -> K)
    requires DistinctBy(xs, f) && multiset(xs) == multiset(ys)
    ensures DistinctBy(ys, f)
  {
    NoDupPermutation(xs, ys);
    forall i, j | 0 <= i < j < |ys| ensures f(ys[i]) != f(ys[j]) {
      assert ys[i] in multiset(xs) && ys[j] in multiset(xs);
      var a :| 0 <= a < |xs| && xs[a] == ys[i];
      var b :| 0 <= b < |xs| && xs[b] == ys[j];
    }
  }

  lemma DistinctSnoc<T(!new)>(xs: seq<T>, x: T)
    ensures Distinct(xs + [x]) == if x in xs then Distinct(xs) else Distinct(xs) + [x]
  {
    assert (xs + [x])[..|xs|] == xs;
  }

  lemma PrefixSnoc<T>(xs: seq<T>, i: int)
    requires 0 <= i < |xs|
    ensures xs[..i + 1] == xs[..i] + [xs[i]]
  {
  }
}
