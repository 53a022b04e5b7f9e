/** The conventional optional value, used where the source tests an iterator against end(). */
module Options {
  datatype Option<+T> = None | Some(value: T) {
    function GetOr(default: T): T {
      match this
      case Some(v) => v
      case None => default
    }
  }

  /** The lookup that find() performs on a std::map. */
  function Lookup<K, V>(m: map<K, V>, k: K): Option<V> {
    if k in m then Some(m[k]) else None
  }

  /** Two maps that answer every lookup alike are the same map. */
  lemma MapExtensional<K(!new), V>(m: map<K, V>, n: map<K, V>)
    requires forall k :: Lookup(m, k) == Lookup(n, k)
    ensures m == n
  {
    assert forall k :: k in m <==> Lookup(m, k).Some?;
    assert forall k :: k in n <==> Lookup(n, k).Some?;
    assert m.Keys == n.Keys;
    forall k | k in m
      ensures m[k] == n[k]
    {
      assert Lookup(m, k) == Lookup(n, k);
    }
  }
}
