/** Summing amounts per key, as the controller's `reduce` calls do into a
    `Record<string, number>`. A record is modelled as a list of (key, value)
    entries in insertion order, which is the order `Object.entries` reports
    for non-numeric keys. Amounts are exact reals. */
module Grouping {

  /** Sum of the values of a list of entries. */
  function Sum<K>(xs: seq<(K, real)>): real
  {
    if |xs| == 0 then 0.0 else xs[0].1 + Sum(xs[1..])
  }

  /** Sum of the values whose key is `k`. */
  function SumFor<K(==,!new)>(xs: seq<(K, real)>, k: K): real
  {
    if |xs| == 0 then 0.0
    else (if xs[0].0 == k then xs[0].1 else 0.0) + SumFor(xs[1..], k)
  }

  function KeySet<K>(xs: seq<(K, real)>): set<K>
  {
    set i | 0 <= i < |xs| :: xs[i].0
  }

  predicate DistinctKeys<K(==,!new)>(xs: seq<(K, real)>)
  {
    forall i, j :: 0 <= i < j < |xs| ==> xs[i].0 != xs[j].0
  }

  /** `acc[k]`, reading an absent key as 0. */
  function Lookup<K(==,!new)>(xs: seq<(K, real)>, k: K): real
  {
    if |xs| == 0 then 0.0
    else if xs[0].0 == k then xs[0].1
    else Lookup(xs[1..], k)
  }

  lemma KeySetCons<K>(x: (K, real), xs: seq<(K, real)>)
    ensures KeySet([x] + xs) == {x.0} + KeySet(xs)
  {
    var l := [x] + xs;
    forall k | k in KeySet(l) ensures k in {x.0} + KeySet(xs) {
      var i :| 0 <= i < |l| && l[i].0 == k;
      if i > 0 {
        assert xs[i - 1] == l[i];
      }
    }
    forall k | k in KeySet(xs) ensures k in KeySet(l) {
      var i :| 0 <= i < |xs| && xs[i].0 == k;
      assert l[i + 1] == xs[i];
    }
    assert l[0] == x;
  }

  lemma DistinctCons<K(!new)>(x: (K, real), xs: seq<(K, real)>)
    ensures DistinctKeys([x] + xs) <==> x.0 !in KeySet(xs) && DistinctKeys(xs)
  {
    var l := [x] + xs;
    if x.0 in KeySet(xs) {
      var i :| 0 <= i < |xs| && xs[i].0 == x.0;
      assert l[0] == x && l[i + 1] == xs[i];
    } else if !DistinctKeys(xs) {
      var i, j :| 0 <= i < j < |xs| && xs[i].0 == xs[j].0;
      assert l[i + 1] == xs[i] && l[j + 1] == xs[j];
    } else {
      forall i, j | 0 <= i < j < |l| ensures l[i].0 != l[j].0 {
        assert l[j] == xs[j - 1];
        if i > 0 {
          assert l[i] == xs[i - 1];
        }
      }
    }
  }

  /** With distinct keys, `Lookup` finds the value stored at each entry. */
  lemma {:induction false} LookupAt<K(!new)>(xs: seq<(K, real)>, j: nat)
    requires DistinctKeys(xs) && j < |xs|
    ensures Lookup(xs, xs[j].0) == xs[j].1
  {
    if j > 0 {
      DistinctCons(xs[0], xs[1..]);
      assert [xs[0]] + xs[1..] == xs;
      assert xs[j] == xs[1..][j - 1];
      LookupAt(xs[1..], j - 1);
    }
  }

  /** A key that no entry carries sums to 0. */
  lemma {:induction false} SumForAbsent<K(!new)>(xs: seq<(K, real)>, k: K)
    requires k !in KeySet(xs)
    ensures SumFor(xs, k) == 0.0
  {
    if |xs| > 0 {
      KeySetCons(xs[0], xs[1..]);
      assert [xs[0]] + xs[1..] == xs;
      SumForAbsent(xs[1..], k);
    }
  }

  /** One step of the per-key fold: a key seen before keeps its place and
      gains `v`; a new key starts from 0, so it is appended with value `v`. */
  function AddTo<K(==,!new)>(acc: seq<(K, real)>, k: K, v: real): (r: seq<(K, real)>)
    requires DistinctKeys(acc)
    ensures DistinctKeys(r)
    ensures KeySet(r) == KeySet(acc) + {k}
    ensures forall k' :: Lookup(r, k') == Lookup(acc, k') + (if k' == k then v else 0.0)
    ensures Sum(r) == Sum(acc) + v
  {
    if |acc| == 0 then
      KeySetCons((k, v), []);
      DistinctCons((k, v), []);
      [(k, v)]
    else
      DistinctCons(acc[0], acc[1..]);
      KeySetCons(acc[0], acc[1..]);
      assert [acc[0]] + acc[1..] == acc;
      if acc[0].0 == k then
        KeySetCons((k, acc[0].1 + v), acc[1..]);
        DistinctCons((k, acc[0].1 + v), acc[1..]);
        [(k, acc[0].1 + v)] + acc[1..]
      else
        var rest := AddTo(acc[1..], k, v);
        KeySetCons(acc[0], rest);
        DistinctCons(acc[0], rest);
        [acc[0]] + rest
  }

  /** The left fold of `reduce`: entries of `items` are added to `acc` one
      by one, first to last. */
  function GroupFrom<K(==,!new)>(acc: seq<(K, real)>, items: seq<(K, real)>): (r: seq<(K, real)>)
    requires DistinctKeys(acc)
    ensures DistinctKeys(r)
    ensures KeySet(r) == KeySet(acc) + KeySet(items)
    ensures forall k :: Lookup(r, k) == Lookup(acc, k) + SumFor(items, k)
    ensures Sum(r) == Sum(acc) + Sum(items)
    decreases |items|
  {
    if |items| == 0 then acc
    else
      KeySetCons(items[0], items[1..]);
      assert [items[0]] + items[1..] == items;
      GroupFrom(AddTo(acc, items[0].0, items[0].1), items[1..])
  }

  /** Per-key totals of `items`: one entry per key that occurs. */
  function GroupSums<K(==,!new)>(items: seq<(K, real)>): (r: seq<(K, real)>)
    ensures DistinctKeys(r)
    ensures KeySet(r) == KeySet(items)
    ensures forall j :: 0 <= j < |r| ==> r[j].1 == SumFor(items, r[j].0)
    ensures forall k :: k !in KeySet(items) ==> Lookup(r, k) == 0.0
    ensures Sum(r) == Sum(items)
  {
    var r := GroupFrom([], items);
    forall j | 0 <= j < |r| ensures r[j].1 == SumFor(items, r[j].0) {
      LookupAt(r, j);
    }
    forall k | k !in KeySet(items) ensures Lookup(r, k) == 0.0 {
      SumForAbsent(items, k);
    }
    r
  }
}
