/** Sums over the entries of a map, as SQL's `sum(...)` over rows with distinct keys. */
module Sums {

  ghost function Sum<K>(m: map<K, nat>): nat
    decreases |m|
  {
    if m == map[] then 0
    else
      var k :| k in m;
      m[k] + Sum(m - {k})
  }

  /** The sum may be taken apart at any key. */
  lemma {:induction false} SumTake<K>(m: map<K, nat>, k: K)
    requires k in m
    ensures Sum(m) == m[k] + Sum(m - {k})
    decreases |m|
  {
    var first :| first in m && Sum(m) == m[first] + Sum(m - {first});
    if first != k {
      SumTake(m - {first}, k);
      SumTake(m - {k}, first);
      assert m - {first} - {k} == m - {k} - {first};
    }
  }

  lemma SumPut<K>(m: map<K, nat>, k: K, n: nat)
    requires k !in m
    ensures Sum(m[k := n]) == Sum(m) + n
  {
    SumTake(m[k := n], k);
    assert m[k := n] - {k} == m;
  }

  /** A sum splits along any set of keys. */
  lemma {:induction false} SumSplit<K>(m: map<K, nat>, keys: set<K>)
    ensures Sum(m) == Sum(map k | k in m && k in keys :: m[k]) + Sum(m - keys)
    decreases |m|
  {
    var inside := map k | k in m && k in keys :: m[k];
    if inside == map[] {
      assert forall k | k in m :: k in keys ==> k in inside;
      assert m - keys == m;
    } else {
      var k :| k in inside;
      SumTake(m, k);
      SumTake(inside, k);
      SumSplit(m - {k}, keys);
      assert (map j | j in m - {k} && j in keys :: (m - {k})[j]) == inside - {k};
      assert m - {k} - keys == m - keys;
    }
  }

  lemma SumMonotone<K>(m: map<K, nat>, keys: set<K>)
    ensures Sum(m - keys) <= Sum(m)
  {
    SumSplit(m, keys);
  }

  /** More keys and larger values sum to no less. */
  lemma {:induction false} SumAtMost<K>(m: map<K, nat>, more: map<K, nat>)
    requires forall k :: k in m ==> k in more && m[k] <= more[k]
    ensures Sum(m) <= Sum(more)
    decreases |m|
  {
    if m != map[] {
      var k :| k in m;
      SumTake(m, k);
      SumTake(more, k);
      SumAtMost(m - {k}, more - {k});
    }
  }
}
