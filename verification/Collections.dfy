/** What several components share: bytes, sequences without repetition, sizes of
    subsets, and the eviction of the oldest entries of an insertion-ordered map. */
module Collections {
  type byte = x: int | 0 <= x < 256

  ghost predicate Distinct<T(!new)>(order: seq<T>) { forall i, j | 0 <= i < j < |order| :: order[i] != order[j] }

  lemma SubsetSize<T>(a: set<T>, b: set<T>)
    requires a <= b
    ensures |a| <= |b|
  {
    assert b == a + (b - a);
  }

  lemma SubmapSize<K, V>(a: map<K, V>, b: map<K, V>)
    requires a.Keys <= b.Keys
    ensures |a| <= |b|
  {
    SubsetSize(a.Keys, b.Keys);
    assert |a.Keys| == |a| && |b.Keys| == |b|;
  }

  /** Drop entries from the front of the order until the bound is met. */
  function EvictOldest<K, V>(values: map<K, V>, order: seq<K>, bound: nat): (map<K, V>, seq<K>)
    decreases |order|
  {
    if |order| <= bound then (values, order) else EvictOldest(values - {order[0]}, order[1..], bound)
  }
}
