/** Sums by key: each part counted under its key, the parts making up the whole. */
module Partition {
  type Pairs<K> = seq<(K, nat)>

  function SumAt<K(==)>(pairs: Pairs<K>, key: K, n: nat): nat
    requires n <= |pairs|
  {
    if n == 0 then 0 else SumAt(pairs, key, n - 1) + if pairs[n - 1].0 == key then pairs[n - 1].1 else 0
  }

  function Total<K>(pairs: Pairs<K>, n: nat): nat
    requires n <= |pairs|
  {
    if n == 0 then 0 else Total(pairs, n - 1) + pairs[n - 1].1
  }

  predicate Has<K(==)>(keys: seq<K>, key: K, n: nat)
    requires n <= |keys|
  {
    n > 0 && (keys[n - 1] == key || Has(keys, key, n - 1))
  }

  /** The keys in order of first appearance, as a dictionary keeps them. */
  function Keys<K(==)>(pairs: Pairs<K>, n: nat): seq<K>
    requires n <= |pairs|
  {
    if n == 0 then [] else
      var before := Keys(pairs, n - 1);
      if Has(before, pairs[n - 1].0, |before|) then before else before + [pairs[n - 1].0]
  }

  lemma {:induction false} HasAt<K>(keys: seq<K>, key: K, n: nat)
    requires n <= |keys|
    ensures Has(keys, key, n) <==> exists i :: 0 <= i < n && keys[i] == key
  {
    if n > 0 { HasAt(keys, key, n - 1); }
  }

  ghost predicate Distinct<K(!new)>(keys: seq<K>) {
    forall i, j :: 0 <= i < j < |keys| ==> keys[i] != keys[j]
  }

  lemma {:induction false} KeysAreDistinct<K(!new)>(pairs: Pairs<K>, n: nat)
    requires n <= |pairs|
    ensures Distinct(Keys(pairs, n))
    ensures forall i :: 0 <= i < n ==> pairs[i].0 in Keys(pairs, n)
  {
    if n > 0 {
      KeysAreDistinct(pairs, n - 1);
      HasAt(Keys(pairs, n - 1), pairs[n - 1].0, |Keys(pairs, n - 1)|);
    }
  }

  /** The sum, over the first `m` keys, of what belongs to each. */
  function SumOver<K(==)>(keys: seq<K>, m: nat, pairs: Pairs<K>, n: nat): nat
    requires m <= |keys| && n <= |pairs|
  {
    if m == 0 then 0 else SumOver(keys, m - 1, pairs, n) + SumAt(pairs, keys[m - 1], n)
  }

  lemma {:induction false} OneMorePair<K(!new)>(keys: seq<K>, m: nat, pairs: Pairs<K>, n: nat)
    requires m <= |keys| && 0 < n <= |pairs| && Distinct(keys)
    ensures SumOver(keys, m, pairs, n)
         == SumOver(keys, m, pairs, n - 1) + if Has(keys, pairs[n - 1].0, m) then pairs[n - 1].1 else 0
  {
    if m > 0 {
      OneMorePair(keys, m - 1, pairs, n);
      HasAt(keys, pairs[n - 1].0, m - 1);
    }
  }

  lemma {:induction false} OneMoreKey<K(!new)>(keys: seq<K>, key: K, m: nat, pairs: Pairs<K>, n: nat)
    requires m <= |keys| && n <= |pairs|
    ensures SumOver(keys + [key], m, pairs, n) == SumOver(keys, m, pairs, n)
    ensures Has(keys + [key], key, m) == Has(keys, key, m)
  {
    if m > 0 { OneMoreKey(keys, key, m - 1, pairs, n); }
  }

  lemma {:induction false} AbsentKey<K(!new)>(pairs: Pairs<K>, key: K, n: nat)
    requires n <= |pairs| && forall i :: 0 <= i < n ==> pairs[i].0 != key
    ensures SumAt(pairs, key, n) == 0
  {
    if n > 0 { AbsentKey(pairs, key, n - 1); }
  }

  /** The parts make up the whole. */
  lemma {:induction false} PartsMakeWhole<K(!new)>(pairs: Pairs<K>, n: nat)
    requires n <= |pairs|
    ensures SumOver(Keys(pairs, n), |Keys(pairs, n)|, pairs, n) == Total(pairs, n)
  {
    if n > 0 {
      PartsMakeWhole(pairs, n - 1);
      var before, after, key := Keys(pairs, n - 1), Keys(pairs, n), pairs[n - 1].0;
      KeysAreDistinct(pairs, n - 1);
      KeysAreDistinct(pairs, n);
      if after != before {
        HasAt(before, key, |before|);
        AbsentKey(pairs, key, n - 1);
        OneMoreKey(before, key, |before|, pairs, n - 1);
      }
      OneMorePair(after, |after|, pairs, n);
    }
  }
}
