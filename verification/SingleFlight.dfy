/** The protocol the cache's clients share: whoever finds no value loads it outside the
    lock while the others wait on the cache's condition (nsd/fastpath.c, nsd/dns.c). */
module SingleFlight {
  import opened Common
  import opened CacheSpec
  import opened CacheLookup

  /** What a thread is doing, as far as waiting and loading are concerned. A loader stays
      one until the critical section in which it publishes and broadcasts. */
  datatype Role<K> = Outside | Blocked(key: K) | Loader(key: K)

  ghost predicate Loads<K>(roles: seq<Role<K>>, k: K) {
    exists t :: 0 <= t < |roles| && roles[t] == Loader(k)
  }

  /** No wake-up can be lost: every NULL entry, and every thread blocked on a key, has a
      loader of that key that has not broadcast yet. */
  ghost predicate Attended<K(!new), V>(s: seq<Item<K, V>>, roles: seq<Role<K>>) {
    && (forall k :: Lookup(s, k) == Some(None) ==> Loads(roles, k))
    && (forall t :: 0 <= t < |roles| && roles[t].Blocked? ==> Loads(roles, roles[t].key))
  }

  /** A step in which no loader publishes. */
  lemma QuietStep<K(!new), V>(s: seq<Item<K, V>>, roles: seq<Role<K>>, s': seq<Item<K, V>>, t: nat, role: Role<K>)
    requires Attended(s, roles) && t < |roles|
    requires roles[t].Loader? ==> role == roles[t]
    requires forall k :: Lookup(s', k) == Some(None) ==> Lookup(s, k) == Some(None) || role == Loader(k)
    requires role.Blocked? ==> Lookup(s', role.key) == Some(None) && roles[t].Outside?
    ensures Attended(s', roles[t := role])
  {
    var roles' := roles[t := role];
    assert roles'[t] == role;
    forall k | Loads(roles, k) ensures Loads(roles', k) {
      var u :| 0 <= u < |roles| && roles[u] == Loader(k);
      assert roles'[u] == Loader(k);
    }
    forall u | 0 <= u < |roles'| && roles'[u].Blocked? ensures Loads(roles', roles'[u].key) {
      if u != t {
        assert Loads(roles, roles[u].key);
      }
    }
  }

  /** A step outside the protocol: entries may only disappear. */
  lemma FlushStep<K(!new), V>(s: seq<Item<K, V>>, roles: seq<Role<K>>, s': seq<Item<K, V>>)
    requires Attended(s, roles)
    requires forall k :: Lookup(s', k) == Some(None) ==> Lookup(s, k) == Some(None)
    ensures Attended(s', roles)
  {
  }

  /** The step in which the loader `t` publishes a value or gives up, and broadcasts. */
  lemma PublishStep<K(!new), V>(s: seq<Item<K, V>>, roles: seq<Role<K>>, s': seq<Item<K, V>>,
                                roles': seq<Role<K>>, t: nat)
    requires Attended(s, roles) && t < |roles| == |roles'| && roles[t].Loader?
    requires forall u :: 0 <= u < |roles| && u != t ==>
               roles'[u] == if roles[u].Blocked? then Outside else roles[u]
    requires roles'[t] == Outside
    requires forall k :: Lookup(s', k) == Some(None) ==> k != roles[t].key && Lookup(s, k) == Some(None)
    ensures Attended(s', roles')
  {
    forall k | Lookup(s', k) == Some(None) ensures Loads(roles', k) {
      var u :| 0 <= u < |roles| && roles[u] == Loader(k);
      assert roles'[u] == Loader(k);
    }
  }
}
