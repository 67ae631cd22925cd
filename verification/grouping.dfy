/** Grouping rows by a key, as the dashboard does with a JavaScript `Map` or a
    plain object used as a dictionary. A `Map` enumerates its keys in the
    order in which each key was first inserted; so does a plain object whose
    keys are not integer-like, such as the month labels it is used with. */
module Grouping {

  /** No element occurs twice. */
  ghost predicate NoDuplicates<K>(s: seq<K>)
  {
    forall i, j :: 0 <= i < j < |s| ==> s[i] != s[j]
  }

  /** The index of the first occurrence of `k` in `ks`. */
  function FirstIndex<K(==)>(ks: seq<K>, k: K): (i: nat)
    requires k in ks
    ensures i < |ks| && ks[i] == k && k !in ks[..i]
  {
    if ks[0] == k then 0 else 1 + FirstIndex(ks[1..], k)
  }

  /** The distinct keys of `ks`, in the order of their first occurrence:
      the key list a `Map` holds after inserting `ks` one by one. */
  function Distinct<K(==)>(ks: seq<K>): (d: seq<K>)
    ensures forall i :: 0 <= i < |d| ==> d[i] in ks
    ensures forall i :: 0 <= i < |ks| ==> ks[i] in d
    ensures NoDuplicates(d)
    ensures |d| <= |ks|
  {
    if ks == [] then []
    else
      var d := Distinct(ks[..|ks| - 1]);
      var k := ks[|ks| - 1];
      assert ks == ks[..|ks| - 1] + [k];
      if k in d then d else d + [k]
  }

  lemma FirstIndexAppend<K>(ks: seq<K>, x: K, k: K)
    requires k in ks
    ensures FirstIndex(ks + [x], k) == FirstIndex(ks, k)
  {
    var i, j := FirstIndex(ks + [x], k), FirstIndex(ks, k);
    assert (ks + [x])[j] == k;
  }

  /** Keys are listed in the order in which they first occur. */
  lemma {:induction false} DistinctInFirstOccurrenceOrder<K>(ks: seq<K>)
    ensures forall i, j :: 0 <= i < j < |Distinct(ks)| ==>
      FirstIndex(ks, Distinct(ks)[i]) < FirstIndex(ks, Distinct(ks)[j])
  {
    if ks != [] {
      var p, x := ks[..|ks| - 1], ks[|ks| - 1];
      assert ks == p + [x];
      DistinctInFirstOccurrenceOrder(p);
      var d := Distinct(p);
      forall k | k in d
        ensures FirstIndex(ks, k) == FirstIndex(p, k)
      {
        FirstIndexAppend(p, x, k);
      }
      var dk := Distinct(ks);
      assert dk == if x in d then d else d + [x];
      forall i, j | 0 <= i < j < |dk|
        ensures FirstIndex(ks, dk[i]) < FirstIndex(ks, dk[j])
      {
        if j < |d| {
          assert dk[i] == d[i] && dk[j] == d[j];
        } else {
          assert dk[i] == d[i] && dk[j] == x;
          assert FirstIndex(ks, x) == |p|;
        }
      }
    }
  }

  /** The first key listed is the first key inserted. */
  lemma {:induction false} DistinctStartsWithFirst<K>(ks: seq<K>)
    requires ks != []
    ensures Distinct(ks) != [] && Distinct(ks)[0] == ks[0]
  {
    if |ks| > 1 {
      var p := ks[..|ks| - 1];
      DistinctStartsWithFirst(p);
    }
  }

  /** How often `k` occurs in `ks`. */
  function Occurrences<K(==)>(ks: seq<K>, k: K): nat
  {
    if ks == [] then 0
    else Occurrences(ks[..|ks| - 1], k) + (if ks[|ks| - 1] == k then 1 else 0)
  }

  /** The count is the key's multiplicity in the multiset of keys; in
      particular a key that occurs is counted at least once. */
  lemma {:induction false} OccurrencesIsMultiplicity<K>(ks: seq<K>, k: K)
    ensures Occurrences(ks, k) == multiset(ks)[k]
    ensures k in ks ==> Occurrences(ks, k) >= 1
  {
    if ks != [] {
      var p := ks[..|ks| - 1];
      assert ks == p + [ks[|ks| - 1]];
      OccurrencesIsMultiplicity(p, k);
    }
  }

  /** The sum, over the keys of `keys`, of how often each occurs in `ks`. */
  function SumOccurrences<K(==)>(keys: seq<K>, ks: seq<K>): int
  {
    if keys == [] then 0 else Occurrences(ks, keys[0]) + SumOccurrences(keys[1..], ks)
  }

  lemma {:induction false} SumOccurrencesAppendKey<K>(keys: seq<K>, x: K, ks: seq<K>)
    ensures SumOccurrences(keys + [x], ks) == SumOccurrences(keys, ks) + Occurrences(ks, x)
  {
    if keys != [] {
      assert (keys + [x])[1..] == keys[1..] + [x];
      SumOccurrencesAppendKey(keys[1..], x, ks);
    }
  }

  lemma {:induction false} SumOccurrencesAppendRow<K>(keys: seq<K>, ks: seq<K>, x: K)
    requires NoDuplicates(keys)
    ensures SumOccurrences(keys, ks + [x]) == SumOccurrences(keys, ks) + (if x in keys then 1 else 0)
  {
    if keys != [] {
      assert (ks + [x])[..|ks|] == ks;
      assert x in keys[1..] ==> keys[0] != x;
      assert keys == [keys[0]] + keys[1..];
      SumOccurrencesAppendRow(keys[1..], ks, x);
    }
  }

  lemma {:induction false} OccurrencesAbsentKey<K>(ks: seq<K>, k: K)
    requires k !in ks
    ensures Occurrences(ks, k) == 0
  {
    if ks != [] {
      OccurrencesAbsentKey(ks[..|ks| - 1], k);
    }
  }

  /** Counting every occurrence under its distinct key accounts for every row once. */
  lemma {:induction false} CountPartition<K>(ks: seq<K>)
    ensures SumOccurrences(Distinct(ks), ks) == |ks|
  {
    if ks != [] {
      var p, x := ks[..|ks| - 1], ks[|ks| - 1];
      assert ks == p + [x];
      var d := Distinct(p);
      CountPartition(p);
      SumOccurrencesAppendRow(d, p, x);
      if x !in d {
        SumOccurrencesAppendKey(d, x, ks);
        OccurrencesAbsentKey(p, x);
      }
    }
  }

  /** Inserting one more key: a new key goes to the end of the key list. */
  lemma DistinctAppend<K>(ks: seq<K>, x: K)
    ensures Distinct(ks + [x]) == if x in Distinct(ks) then Distinct(ks) else Distinct(ks) + [x]
  {
  }

  lemma OccurrencesAppend<K>(ks: seq<K>, x: K, k: K)
    ensures Occurrences(ks + [x], k) == Occurrences(ks, k) + (if x == k then 1 else 0)
  {
  }

  /** The keys of a sequence of (key, amount) pairs. */
  function KeysOf<K>(ps: seq<(K, int)>): (ks: seq<K>)
    ensures |ks| == |ps|
    ensures forall i :: 0 <= i < |ps| ==> ks[i] == ps[i].0
  {
    if ps == [] then [] else KeysOf(ps[..|ps| - 1]) + [ps[|ps| - 1].0]
  }

  /** The sum of all amounts. */
  function Total<K>(ps: seq<(K, int)>): int
  {
    if ps == [] then 0 else Total(ps[..|ps| - 1]) + ps[|ps| - 1].1
  }

  /** The sum of the amounts filed under key `k`. */
  function TotalFor<K(==)>(ps: seq<(K, int)>, k: K): int
  {
    if ps == [] then 0
    else TotalFor(ps[..|ps| - 1], k) + (if ps[|ps| - 1].0 == k then ps[|ps| - 1].1 else 0)
  }

  lemma {:induction false} TotalForAbsentKey<K>(ps: seq<(K, int)>, k: K)
    requires k !in KeysOf(ps)
    ensures TotalFor(ps, k) == 0
  {
    if ps != [] {
      assert KeysOf(ps) == KeysOf(ps[..|ps| - 1]) + [ps[|ps| - 1].0];
      TotalForAbsentKey(ps[..|ps| - 1], k);
    }
  }

  /** The sum, over the keys of `keys`, of the amount filed under each. */
  function SumTotals<K(==)>(keys: seq<K>, ps: seq<(K, int)>): int
  {
    if keys == [] then 0 else TotalFor(ps, keys[0]) + SumTotals(keys[1..], ps)
  }

  lemma {:induction false} SumTotalsAppendKey<K>(keys: seq<K>, x: K, ps: seq<(K, int)>)
    ensures SumTotals(keys + [x], ps) == SumTotals(keys, ps) + TotalFor(ps, x)
  {
    if keys != [] {
      assert (keys + [x])[1..] == keys[1..] + [x];
      SumTotalsAppendKey(keys[1..], x, ps);
    }
  }

  lemma {:induction false} SumTotalsAppendRow<K>(keys: seq<K>, ps: seq<(K, int)>, p: (K, int))
    requires NoDuplicates(keys)
    ensures SumTotals(keys, ps + [p]) == SumTotals(keys, ps) + (if p.0 in keys then p.1 else 0)
  {
    if keys != [] {
      assert (ps + [p])[..|ps|] == ps;
      assert p.0 in keys[1..] ==> keys[0] != p.0;
      assert keys == [keys[0]] + keys[1..];
      SumTotalsAppendRow(keys[1..], ps, p);
    }
  }

  /** Filing every amount under its distinct key loses and duplicates nothing. */
  lemma {:induction false} TotalPartition<K>(ps: seq<(K, int)>)
    ensures SumTotals(Distinct(KeysOf(ps)), ps) == Total(ps)
  {
    if ps != [] {
      var q, p := ps[..|ps| - 1], ps[|ps| - 1];
      assert ps == q + [p];
      assert KeysOf(ps) == KeysOf(q) + [p.0];
      assert KeysOf(ps)[..|ps| - 1] == KeysOf(q);
      var d := Distinct(KeysOf(q));
      TotalPartition(q);
      SumTotalsAppendRow(d, q, p);
      if p.0 !in d {
        SumTotalsAppendKey(d, p.0, ps);
        TotalForAbsentKey(q, p.0);
      }
    }
  }

  lemma KeysOfAppend<K>(ps: seq<(K, int)>, p: (K, int))
    ensures KeysOf(ps + [p]) == KeysOf(ps) + [p.0]
  {
  }

  lemma TotalForAppend<K>(ps: seq<(K, int)>, p: (K, int), k: K)
    ensures TotalFor(ps + [p], k) == TotalFor(ps, k) + (if p.0 == k then p.1 else 0)
  {
  }
}
