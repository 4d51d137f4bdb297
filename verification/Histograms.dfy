/** Counting by key: what a counting loop over a list should end with, and what its counts add up to. */
module Histograms {

  type Counts<K> = map<K, nat>

  /** Each key of the list with the number of its occurrences. */
  function Histogram<K(==)>(keys: seq<K>): Counts<K> {
    map k | k in keys :: multiset(keys)[k]
  }

  /** One count more; the first one if the key is new. */
  function Increment<K>(counts: Counts<K>, key: K): Counts<K> {
    counts[key := (if key in counts then counts[key] else 0) + 1]
  }

  lemma HistogramOneMore<K>(keys: seq<K>, key: K)
    ensures Histogram(keys + [key]) == Increment(Histogram(keys), key)
  {
  }

  /** The sum of all values of a map. */
  ghost function MapSum<K(!new)>(m: Counts<K>): nat {
    if m == map[] then 0
    else
      var k :| k in m;
      m[k] + MapSum(m - {k})
  }

  lemma {:induction false} MapSumWithout<K(!new)>(m: Counts<K>, k: K)
    requires k in m
    ensures MapSum(m) == m[k] + MapSum(m - {k})
    decreases |m|
  {
    var first :| first in m && MapSum(m) == m[first] + MapSum(m - {first});
    if first != k {
      MapSumWithout(m - {first}, k);
      MapSumWithout(m - {k}, first);
      assert m - {first} - {k} == m - {k} - {first};
    }
  }

  lemma MapSumUpdate<K(!new)>(m: Counts<K>, k: K, v: nat)
    ensures MapSum(m[k := v]) == MapSum(m) - (if k in m then m[k] else 0) + v
  {
    MapSumWithout(m[k := v], k);
    assert m[k := v] - {k} == m - {k};
    if k in m {
      MapSumWithout(m, k);
    } else {
      assert m - {k} == m;
    }
  }

  /** The counts of a histogram add up to the number of things counted. */
  lemma {:induction false} HistogramConserves<K(!new)>(keys: seq<K>)
    ensures MapSum(Histogram(keys)) == |keys|
  {
    if keys == [] {
      assert Histogram(keys) == map[];
    } else {
      var last := |keys| - 1;
      assert keys == keys[..last] + [keys[last]];
      HistogramConserves(keys[..last]);
      HistogramOneMore(keys[..last], keys[last]);
      var before := Histogram(keys[..last]);
      MapSumUpdate(before, keys[last], (if keys[last] in before then before[keys[last]] else 0) + 1);
    }
  }

  function SeqSum(values: seq<nat>): nat {
    if values == [] then 0 else SeqSum(values[..|values| - 1]) + values[|values| - 1]
  }

  lemma {:induction false} SeqSumUpdate(values: seq<nat>, i: nat, v: nat)
    requires i < |values|
    ensures SeqSum(values[i := v]) == SeqSum(values) - values[i] + v
  {
    var last := |values| - 1;
    if i == last {
      assert values[i := v][..last] == values[..last];
    } else {
      SeqSumUpdate(values[..last], i, v);
      assert values[i := v][..last] == values[..last][i := v];
    }
  }

  lemma {:induction false} SeqSumOfParts(a: seq<nat>, b: seq<nat>)
    ensures SeqSum(a + b) == SeqSum(a) + SeqSum(b)
  {
    if b == [] {
      assert a + b == a;
    } else {
      var last := |b| - 1;
      assert (a + b)[..|a + b| - 1] == a + b[..last];
      SeqSumOfParts(a, b[..last]);
    }
  }

  /** A list has at most as many different members as it has entries. */
  lemma {:induction false} DistinctAtMostAll<T>(items: seq<T>, members: set<T>)
    requires forall x :: x in members ==> x in items
    ensures |members| <= |items|
  {
    if items != [] {
      var last := |items| - 1;
      DistinctAtMostAll(items[..last], members - {items[last]});
    } else {
      assert members == {};
    }
  }
}
