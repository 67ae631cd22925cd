/** `Array.prototype.sort` with a descending comparator
    `(a, b) => key(b) - key(a)`, followed by `slice(0, n)`. The sort that
    JavaScript engines use is stable: elements with equal keys keep the order
    they had before sorting. */
module Sorting {

  /** Keys never increase from left to right. */
  ghost predicate NonIncreasing<T>(s: seq<T>, key: T -> int)
  {
    forall i, j :: 0 <= i < j < |s| ==> key(s[i]) >= key(s[j])
  }

  /** The elements of `s` whose key is `k`, in their order in `s`. */
  function WithKey<T>(s: seq<T>, key: T -> int, k: int): seq<T>
  {
    if s == [] then [] else (if key(s[0]) == k then [s[0]] else []) + WithKey(s[1..], key, k)
  }

  /** Places `x` before the first element whose key is not larger than its own. */
  function Insert<T>(x: T, s: seq<T>, key: T -> int): seq<T>
  {
    if s == [] || key(x) >= key(s[0]) then [x] + s
    else [s[0]] + Insert(x, s[1..], key)
  }

  /** Stable insertion sort, largest key first: a non-increasing
      rearrangement of its input. */
  function SortDesc<T>(s: seq<T>, key: T -> int): (r: seq<T>)
    ensures NonIncreasing(r, key)
    ensures multiset(r) == multiset(s)
    ensures |r| == |s|
  {
    if s == [] then []
    else
      var rest := SortDesc(s[1..], key);
      InsertKeepsOrder(s[0], rest, key);
      InsertKeepsElements(s[0], rest, key);
      assert s == [s[0]] + s[1..];
      Insert(s[0], rest, key)
  }

  /** `slice(0, n)`: the first `n` elements, or all of them when there are fewer. */
  function Take<T>(s: seq<T>, n: nat): (r: seq<T>)
    ensures |r| <= n && |r| <= |s|
    ensures |s| <= n ==> r == s
    ensures |s| > n ==> |r| == n
    ensures r == s[..|r|]
  {
    if |s| <= n then s else s[..n]
  }

  lemma {:induction false} InsertKeepsElements<T>(x: T, s: seq<T>, key: T -> int)
    ensures multiset(Insert(x, s, key)) == multiset(s) + multiset{x}
  {
    if s != [] && key(x) < key(s[0]) {
      assert s == [s[0]] + s[1..];
      InsertKeepsElements(x, s[1..], key);
    }
  }

  lemma {:induction false} InsertKeepsOrder<T>(x: T, s: seq<T>, key: T -> int)
    requires NonIncreasing(s, key)
    ensures NonIncreasing(Insert(x, s, key), key)
  {
    if s != [] && key(x) < key(s[0]) {
      var rest := Insert(x, s[1..], key);
      InsertKeepsOrder(x, s[1..], key);
      InsertKeepsElements(x, s[1..], key);
      forall j | 0 <= j < |rest|
        ensures key(s[0]) >= key(rest[j])
      {
        assert rest[j] in multiset(rest);
        if rest[j] != x {
          assert rest[j] in multiset(s[1..]);
        }
      }
    }
  }

  lemma WithKeyCons<T>(x: T, s: seq<T>, key: T -> int, k: int)
    ensures WithKey([x] + s, key, k) == (if key(x) == k then [x] else []) + WithKey(s, key, k)
  {
  }

  lemma {:induction false} InsertKeepsTies<T>(x: T, s: seq<T>, key: T -> int, k: int)
    ensures WithKey(Insert(x, s, key), key, k) == (if key(x) == k then [x] else []) + WithKey(s, key, k)
  {
    if s == [] || key(x) >= key(s[0]) {
      WithKeyCons(x, s, key, k);
    } else {
      var rest := Insert(x, s[1..], key);
      InsertKeepsTies(x, s[1..], key, k);
      WithKeyCons(s[0], rest, key, k);
      WithKeyCons(s[0], s[1..], key, k);
      assert [s[0]] + s[1..] == s;
    }
  }

  /** The sort is stable: elements with equal keys keep their input order. */
  lemma {:induction false} SortDescCorrect<T>(s: seq<T>, key: T -> int)
    ensures forall k :: WithKey(SortDesc(s, key), key, k) == WithKey(s, key, k)
  {
    if s != [] {
      var rest := SortDesc(s[1..], key);
      SortDescCorrect(s[1..], key);
      assert s == [s[0]] + s[1..];
      forall k
        ensures WithKey(SortDesc(s, key), key, k) == WithKey(s, key, k)
      {
        InsertKeepsTies(s[0], rest, key, k);
      }
    }
  }

  /** The first `n` elements of a sorted sequence are at least as large as
      every element left out. */
  lemma {:induction false} TakeKeepsLargest<T>(s: seq<T>, key: T -> int, n: nat)
    requires NonIncreasing(s, key)
    ensures forall i, j :: 0 <= i < |Take(s, n)| <= j < |s| ==> key(Take(s, n)[i]) >= key(s[j])
  {
  }

  /** An element the first `n` of the sort leave out shows that `n` were
      kept, and its key is no larger than any kept key. */
  lemma SortedTopIsLargest<T>(s: seq<T>, key: T -> int, n: nat, e: T)
    requires e in s
    requires e !in Take(SortDesc(s, key), n)
    ensures |Take(SortDesc(s, key), n)| == n
    ensures forall t :: t in Take(SortDesc(s, key), n) ==> key(e) <= key(t)
  {
    var sorted := SortDesc(s, key);
    var top := Take(sorted, n);
    TakeKeepsLargest(sorted, key, n);
    assert e in multiset(sorted);
    var j :| 0 <= j < |sorted| && sorted[j] == e;
    assert j >= |top| by {
      assert forall i :: 0 <= i < |top| ==> top[i] == sorted[i];
    }
    forall t | t in top
      ensures key(e) <= key(t)
    {
      var i :| 0 <= i < |top| && top[i] == t;
      assert key(top[i]) >= key(sorted[j]);
    }
  }

  lemma OccursTwice<T>(a: seq<T>, i: nat, j: nat)
    requires i < j < |a| && a[i] == a[j]
    ensures multiset(a)[a[i]] >= 2
  {
    assert a == a[..i] + [a[i]] + a[i + 1..j] + [a[j]] + a[j + 1..];
  }

  lemma OccursOnce<T, K>(b: seq<T>, p: nat, id: T -> K)
    requires p < |b|
    requires forall i, j :: 0 <= i < j < |b| ==> id(b[i]) != id(b[j])
    ensures multiset(b)[b[p]] == 1
  {
    assert b == b[..p] + [b[p]] + b[p + 1..];
    assert b[p] !in b[..p];
    assert b[p] !in b[p + 1..];
  }

  /** Reordering elements neither creates nor removes a shared `id`. */
  lemma PermutationKeepsDistinctIds<T, K>(a: seq<T>, b: seq<T>, id: T -> K)
    requires multiset(a) == multiset(b)
    requires forall i, j :: 0 <= i < j < |b| ==> id(b[i]) != id(b[j])
    ensures forall i, j :: 0 <= i < j < |a| ==> id(a[i]) != id(a[j])
  {
    forall i, j | 0 <= i < j < |a|
      ensures id(a[i]) != id(a[j])
    {
      if id(a[i]) == id(a[j]) {
        assert a[i] in multiset(b) && a[j] in multiset(b);
        var p :| 0 <= p < |b| && b[p] == a[i];
        var q :| 0 <= q < |b| && b[q] == a[j];
        assert p == q;
        OccursTwice(a, i, j);
        OccursOnce(b, p, id);
      }
    }
  }
}
