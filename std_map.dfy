/**
 * The two `std::map` operations the trigger index is built on: `find` compared
 * with `end()`, and `try_emplace`, which inserts only when the key is absent.
 */
module StdMap {
  import opened Wrappers

  /** `m.find(k)`: the stored value, or None where C++ returns `end()`. */
  function Find<K, V>(m: map<K, V>, k: K): (r: Option<V>)
    ensures r.Some? <==> k in m
    ensures r.Some? ==> r.value == m[k]
  {
    if k in m then Some(m[k]) else None
  }

  /** `m.try_emplace(k, v)`: insert-if-absent; an existing entry is never replaced. */
  function TryEmplace<K, V>(m: map<K, V>, k: K, v: V): (r: map<K, V>)
    ensures r.Keys == m.Keys + {k}
    ensures k in m ==> r[k] == m[k]
    ensures k !in m ==> r[k] == v
    ensures forall j :: j in m && j != k ==> r[j] == m[j]
  {
    if k in m then m else m[k := v]
  }

  /** Repeating `try_emplace` on a key already present changes nothing. */
  lemma TryEmplaceFirstWins<K, V>(m: map<K, V>, k: K, v: V, w: V)
    ensures TryEmplace(TryEmplace(m, k, v), k, w) == TryEmplace(m, k, v)
  {
  }

  /** `try_emplace` on two different keys gives the same map in either order. */
  lemma TryEmplaceCommutes<K, V>(m: map<K, V>, k1: K, v1: V, k2: K, v2: V)
    requires k1 != k2
    ensures TryEmplace(TryEmplace(m, k1, v1), k2, v2) == TryEmplace(TryEmplace(m, k2, v2), k1, v1)
  {
  }

  /** The map after a series of `try_emplace` calls, in call order. */
  function EmplaceAll<K, V>(m: map<K, V>, entries: seq<(K, V)>): map<K, V>
    decreases |entries|
  {
    if |entries| == 0 then m
    else EmplaceAll(TryEmplace(m, entries[0].0, entries[0].1), entries[1..])
  }

  /** The value of the first entry whose key is k, if any. */
  function FirstFor<K(==), V>(entries: seq<(K, V)>, k: K): (r: Option<V>)
    ensures r.Some? <==> exists i :: 0 <= i < |entries| && entries[i].0 == k
  {
    if |entries| == 0 then None
    else if entries[0].0 == k then Some(entries[0].1)
    else
      var rest := FirstFor(entries[1..], k);
      assert forall i :: 1 <= i < |entries| ==> entries[i] == entries[1..][i - 1];
      rest
  }

  /**
   * After any series of `try_emplace` calls, a key is present exactly when it was
   * present before or some call used it, and its value is the one it had before or,
   * failing that, the value of the FIRST call that used it.
   */
  lemma {:induction false} EmplaceAllFirstWins<K, V>(m: map<K, V>, entries: seq<(K, V)>, k: K)
    ensures k in EmplaceAll(m, entries) <==> k in m || FirstFor(entries, k).Some?
    ensures k in m ==> EmplaceAll(m, entries)[k] == m[k]
    ensures k !in m && FirstFor(entries, k).Some? ==>
              EmplaceAll(m, entries)[k] == FirstFor(entries, k).value
    ensures forall j :: j in m ==> j in EmplaceAll(m, entries) && EmplaceAll(m, entries)[j] == m[j]
    decreases |entries|
  {
    if |entries| > 0 {
      var m' := TryEmplace(m, entries[0].0, entries[0].1);
      EmplaceAllFirstWins(m', entries[1..], k);
      forall j | j in m
        ensures j in EmplaceAll(m, entries) && EmplaceAll(m, entries)[j] == m[j]
      {
        EmplaceAllFirstWins(m', entries[1..], j);
      }
    }
  }
}
