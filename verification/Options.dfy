/** Optional values, map lookups and choice from a set, shared by the other modules. */
module Options {

  datatype Option<+T> = None | Some(value: T)

  function Lookup<K, V>(m: map<K, V>, k: K): Option<V> {
    if k in m then Some(m[k]) else None
  }

  ghost function AnyOf(s: set<int>): (i: int)
    requires s != {}
    ensures i in s
  {
    assert (forall j :: j !in s) ==> s == {};
    var i :| i in s;
    i
  }

  /** Two maps with the same lookups are the same map. */
  lemma SameLookups<K(!new), V>(a: map<K, V>, b: map<K, V>)
    requires forall k :: Lookup(a, k) == Lookup(b, k)
    ensures a == b
  {
    forall k
      ensures k in a <==> k in b
      ensures k in a ==> a[k] == b[k]
    {
      assert Lookup(a, k) == Lookup(b, k);
    }
  }
}
