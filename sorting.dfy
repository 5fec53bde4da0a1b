/** Array.prototype.sort with a comparator of the form
    `(a, b) => key(b) - key(a)`: ECMAScript requires the sort to be stable,
    so the result is ordered by key, highest first, and elements with equal
    keys keep their input order. */
module Sorting {
  import opened Lists

  predicate SortedDesc<T>(xs: seq<T>, key: T -> real)
  {
    forall i, j :: 0 <= i < j < |xs| ==> key(xs[i]) >= key(xs[j])
  }

  /** Places x in front of the first element whose key is not larger. */
  function Insert<T(!new)>(x: T, ys: seq<T>, key: T -> real): (r: seq<T>)
    ensures |r| == |ys| + 1
    ensures multiset(r) == multiset(ys) + multiset{x}
  {
    if ys == [] || key(ys[0]) <= key(x) then [x] + ys
    else
      assert ys == [ys[0]] + ys[1..];
      [ys[0]] + Insert(x, ys[1..], key)
  }

  lemma {:induction false} InsertKeepsSorted<T(!new)>(x: T, ys: seq<T>, key: T -> real)
    requires SortedDesc(ys, key)
    ensures SortedDesc(Insert(x, ys, key), key)
  {
    if ys != [] && key(ys[0]) > key(x) {
      var rest := Insert(x, ys[1..], key);
      InsertKeepsSorted(x, ys[1..], key);
      forall j | 0 <= j < |rest|
        ensures key(rest[j]) <= key(ys[0])
      {
        assert rest[j] in multiset(rest);
        if rest[j] != x {
          assert rest[j] in multiset(ys[1..]);
          var i :| 0 <= i < |ys[1..]| && ys[1..][i] == rest[j];
          assert ys[i + 1] == rest[j];
        }
      }
      var r := Insert(x, ys, key);
      assert r == [ys[0]] + rest;
    }
  }

  function SortByDesc<T(!new)>(xs: seq<T>, key: T -> real): (r: seq<T>)
    ensures |r| == |xs|
    ensures multiset(r) == multiset(xs)
    ensures SortedDesc(r, key)
  {
    if xs == [] then []
    else
      assert xs == [xs[0]] + xs[1..];
      InsertKeepsSorted(xs[0], SortByDesc(xs[1..], key), key);
      Insert(xs[0], SortByDesc(xs[1..], key), key)
  }

  /** The elements of xs whose key is k, in order. */
  function WithKey<T>(xs: seq<T>, key: T -> real, k: real): seq<T>
  {
    if xs == [] then [] else (if key(xs[0]) == k then [xs[0]] else []) + WithKey(xs[1..], key, k)
  }

  lemma {:induction false} InsertWithKey<T(!new)>(x: T, ys: seq<T>, key: T -> real, k: real)
    ensures WithKey(Insert(x, ys, key), key, k) == (if key(x) == k then [x] else []) + WithKey(ys, key, k)
  {
    if ys != [] && key(ys[0]) > key(x) {
      InsertWithKey(x, ys[1..], key, k);
      var r := Insert(x, ys, key);
      assert r[0] == ys[0] && r[1..] == Insert(x, ys[1..], key);
    }
  }

  /** Elements with equal keys come out in the order they went in. */
  lemma {:induction false} SortByDescIsStable<T(!new)>(xs: seq<T>, key: T -> real, k: real)
    ensures WithKey(SortByDesc(xs, key), key, k) == WithKey(xs, key, k)
  {
    if xs != [] {
      SortByDescIsStable(xs[1..], key, k);
      InsertWithKey(xs[0], SortByDesc(xs[1..], key), key, k);
    }
  }

  function SumBy<T>(xs: seq<T>, f: T -> int): int
  {
    if xs == [] then 0 else f(xs[0]) + SumBy(xs[1..], f)
  }

  lemma {:induction false} InsertKeepsSum<T(!new)>(x: T, ys: seq<T>, key: T -> real, f: T -> int)
    ensures SumBy(Insert(x, ys, key), f) == f(x) + SumBy(ys, f)
  {
    if ys != [] && key(ys[0]) > key(x) {
      InsertKeepsSum(x, ys[1..], key, f);
      var r := Insert(x, ys, key);
      assert r[0] == ys[0] && r[1..] == Insert(x, ys[1..], key);
    }
  }

  /** Sorting does not change a sum over the elements. */
  lemma {:induction false} SortKeepsSum<T(!new)>(xs: seq<T>, key: T -> real, f: T -> int)
    ensures SumBy(SortByDesc(xs, key), f) == SumBy(xs, f)
  {
    if xs != [] {
      SortKeepsSum(xs[1..], key, f);
      InsertKeepsSum(xs[0], SortByDesc(xs[1..], key), key, f);
    }
  }

  /** Where Insert puts x: behind every element whose key is larger. */
  function InsertPos<T>(x: T, ys: seq<T>, key: T -> real): (p: nat)
    ensures p <= |ys|
    ensures forall k :: 0 <= k < p ==> key(ys[k]) > key(x)
  {
    if ys == [] || key(ys[0]) <= key(x) then 0 else InsertPos(x, ys[1..], key) + 1
  }

  lemma {:induction false} InsertAtPos<T(!new)>(x: T, ys: seq<T>, key: T -> real)
    ensures Insert(x, ys, key) == ys[..InsertPos(x, ys, key)] + [x] + ys[InsertPos(x, ys, key)..]
  {
    if ys != [] && key(ys[0]) > key(x) {
      var q := InsertPos(x, ys[1..], key);
      InsertAtPos(x, ys[1..], key);
      assert ys[..q + 1] == [ys[0]] + ys[1..][..q];
      assert ys[q + 1..] == ys[1..][q..];
    }
  }

  lemma FirstIndexOfTail<T>(xs: seq<T>, y: T)
    requires xs != [] && y in xs[1..] && y != xs[0]
    ensures y in xs && FirstIndex(xs, y) == FirstIndex(xs[1..], y) + 1
  {
  }

  /** One pair of positions in r, which is s with x placed at p behind
      every larger key: the induction step of SortByDescKeepsTieOrder. */
  lemma TieOrderStep<T>(x: T, rest: seq<T>, s: seq<T>, p: nat, r: seq<T>, key: T -> real, i: int, j: int)
    requires x !in rest && multiset(s) == multiset(rest)
    requires p <= |s| && r == s[..p] + [x] + s[p..]
    requires forall k :: 0 <= k < p ==> key(s[k]) > key(x)
    requires forall i, j :: 0 <= i < j < |s| && key(s[i]) == key(s[j]) ==>
      s[i] in rest && s[j] in rest && FirstIndex(rest, s[i]) < FirstIndex(rest, s[j])
    requires 0 <= i < j < |r| && key(r[i]) == key(r[j])
    ensures r[i] in [x] + rest && r[j] in [x] + rest
    ensures FirstIndex([x] + rest, r[i]) < FirstIndex([x] + rest, r[j])
  {
    var xs := [x] + rest;
    assert xs[1..] == rest;
    if i == p {
      assert r[j] == s[j - 1];
      assert r[j] in multiset(s);
      FirstIndexOfTail(xs, r[j]);
    } else {
      var i', j' := if i < p then i else i - 1, if j < p then j else j - 1;
      assert r[i] == s[i'] && r[j] == s[j'] && i' < j';
      assert s[i'] in multiset(s) && s[j'] in multiset(s);
      FirstIndexOfTail(xs, r[i]);
      FirstIndexOfTail(xs, r[j]);
    }
  }

  /** For a list without repeated elements: of two elements with equal keys,
      the one that came first in the input comes first in the output. */
  lemma {:induction false} SortByDescKeepsTieOrder<T(!new)>(xs: seq<T>, key: T -> real)
    requires NoDup(xs)
    ensures forall i, j :: 0 <= i < j < |SortByDesc(xs, key)| && key(SortByDesc(xs, key)[i]) == key(SortByDesc(xs, key)[j]) ==>
      SortByDesc(xs, key)[i] in xs && SortByDesc(xs, key)[j] in xs &&
      FirstIndex(xs, SortByDesc(xs, key)[i]) < FirstIndex(xs, SortByDesc(xs, key)[j])
  {
    if xs != [] {
      var x, rest := xs[0], xs[1..];
      assert xs == [x] + rest;
      assert NoDup(rest) by {
        forall i, j | 0 <= i < j < |rest| ensures rest[i] != rest[j] {
          assert rest[i] == xs[i + 1] && rest[j] == xs[j + 1];
        }
      }
      assert x !in rest by {
        forall k | 0 <= k < |rest| ensures rest[k] != x {
          assert rest[k] == xs[k + 1];
        }
      }
      SortByDescKeepsTieOrder(rest, key);
      var s := SortByDesc(rest, key);
      var p := InsertPos(x, s, key);
      InsertAtPos(x, s, key);
      forall i, j | 0 <= i < j < |Insert(x, s, key)| && key(Insert(x, s, key)[i]) == key(Insert(x, s, key)[j])
        ensures Insert(x, s, key)[i] in xs && Insert(x, s, key)[j] in xs
        ensures FirstIndex(xs, Insert(x, s, key)[i]) < FirstIndex(xs, Insert(x, s, key)[j])
      {
        TieOrderStep(x, rest, s, p, Insert(x, s, key), key, i, j);
      }
    }
  }

  /** In a list sorted highest first, whatever made the first n places
      has a key at least that of anything left out. */
  lemma PrefixDominates<T>(r: seq<T>, n: nat, key: T -> real, x: T, t: T)
    requires SortedDesc(r, key) && n <= |r|
    requires x in r && x !in r[..n] && t in r[..n]
    ensures key(t) >= key(x)
  {
    var i :| 0 <= i < n && r[..n][i] == t;
    var m :| 0 <= m < |r| && r[m] == x;
    assert forall j :: 0 <= j < n ==> r[..n][j] == r[j];
    assert r[i] == t && i < m;
  }
}
