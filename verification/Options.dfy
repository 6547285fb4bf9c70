/** Optional values and total map lookups. */
module Options {
  datatype Option<+T> = None | Some(value: T)

  function Look<K, V>(m: map<K, V>, k: K): Option<V> {
    if k in m then Some(m[k]) else None
  }

  /** The list filed under a key. */
  function ListOf<K, V>(lists: map<K, seq<V>>, k: K): seq<V> {
    if k in lists then lists[k] else []
  }

  /** Maps that answer every lookup alike are equal. */
  lemma {:induction false} LookUnique<K(!new), V>(m: map<K, V>, n: map<K, V>)
    requires forall k :: Look(m, k) == Look(n, k)
    ensures m == n
  {
    forall k ensures k in m <==> k in n {
      assert Look(m, k) == Look(n, k);
    }
    forall k | k in m ensures m[k] == n[k] {
      assert Look(m, k) == Look(n, k);
    }
  }
}
