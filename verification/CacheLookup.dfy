/** The cache as its clients see it under the lock: what each call does to a lookup. */
module CacheLookup {
  import opened Common
  import opened CacheSpec
  import opened CacheLaws

  /** None: no entry; Some(None): an entry whose value is NULL. */
  ghost function Lookup<K, V>(s: seq<Item<K, V>>, k: K): Option<Option<V>> {
    if Has(s, k) then Some(s[IndexOf(s, k)].value) else None
  }

  lemma LookupAt<K, V>(s: seq<Item<K, V>>, i: nat)
    requires Distinct(s) && i < |s|
    ensures Lookup(s, s[i].key) == Some(s[i].value)
  {
    FindsIt(s, i);
  }

  lemma LookupWithout<K, V>(s: seq<Item<K, V>>, i: nat, k: K)
    requires Shaped(s) && i < |s|
    ensures Lookup(Without(s, i), k) == if k == s[i].key then None else Lookup(s, k)
  {
    var t := Without(s, i);
    ShapeWithout(s, i);
    assert Has(s, k) && k != s[i].key ==>
        var j := IndexOf(s, k); t[if j < i then j else j - 1] == s[j];
    if Has(t, k) {
      var j := IndexOf(t, k);
      LookupAt(s, if j < i then j else j + 1);
    }
  }

  lemma LookupPush<K, V>(s: seq<Item<K, V>>, e: Item<K, V>, k: K)
    ensures Lookup([e] + s, k) == if k == e.key then Some(e.value) else Lookup(s, k)
  {
    assert ([e] + s)[1..] == s;
  }

  lemma LookupUpdate<K, V>(s: seq<Item<K, V>>, i: nat, e: Item<K, V>, k: K)
    requires Shaped(s) && i < |s| && e.key == s[i].key
    ensures Lookup(s[i := e], k) == if k == e.key then Some(e.value) else Lookup(s, k)
  {
    var t := s[i := e];
    assert Distinct(t);
    assert Has(s, k) ==> t[IndexOf(s, k)].key == k;
    if Has(t, k) {
      LookupAt(t, IndexOf(t, k));
      LookupAt(s, IndexOf(t, k));
    }
    LookupAt(t, i);
  }

  lemma LookupPrefix<K, V>(s: seq<Item<K, V>>, t: seq<Item<K, V>>, k: K)
    requires Shaped(s) && t <= s
    ensures Lookup(t, k) == None || Lookup(t, k) == Lookup(s, k)
  {
    if Has(t, k) {
      LookupAt(s, IndexOf(t, k));
    }
  }

  lemma AfterFind<K, V>(cfg: Config, s: seq<Item<K, V>>, key: K, now: Time, k: K)
    requires Shaped(s)
    ensures Lookup(Apply(cfg, s, Find(key, now)).items, k) == Lookup(s, k)
  {
    if Has(s, key) {
      var i := IndexOf(s, key);
      LookupWithout(s, i, k);
      LookupPush(Without(s, i), Stamp(cfg, s[i], now), k);
    }
  }

  lemma AfterCreate<K, V>(cfg: Config, s: seq<Item<K, V>>, key: K, now: Time, k: K)
    requires Shaped(s)
    ensures Lookup(Apply(cfg, s, Create(key, now)).items, k)
         == if k == key && !Has(s, key) then Some(None) else Lookup(s, k)
  {
    if Has(s, key) {
      AfterFind(cfg, s, key, now, k);
    } else {
      LookupPush(s, Stamp(cfg, Fresh<K, V>(key), now), k);
    }
  }

  lemma AfterUnset<K, V>(cfg: Config, s: seq<Item<K, V>>, key: K, k: K)
    requires Shaped(s)
    ensures Lookup(Apply(cfg, s, UnsetValue(key)).items, k)
         == if k == key && Has(s, key) then Some(None) else Lookup(s, k)
  {
    if Has(s, key) {
      LookupUpdate(s, IndexOf(s, key), Cleared(s[IndexOf(s, key)]), k);
    }
  }

  lemma AfterFlushEntry<K, V>(cfg: Config, s: seq<Item<K, V>>, key: K, k: K)
    requires Shaped(s)
    ensures Lookup(Apply(cfg, s, FlushEntry(key)).items, k) == if k == key then None else Lookup(s, k)
  {
    if Has(s, key) {
      LookupWithout(s, IndexOf(s, key), k);
    }
  }

  /** The entry being set is never evicted, whatever its size; others may be. */
  lemma AfterSet<K, V>(cfg: Config, s: seq<Item<K, V>>, key: K, v: V, size: nat, k: K)
    requires Shaped(s) && Has(s, key)
    ensures var t := Apply(cfg, s, SetValue(key, v, size)).items;
            if k == key then Lookup(t, k) == Some(Some(v)) else Lookup(t, k) == None || Lookup(t, k) == Lookup(s, k)
  {
    hide Evict;
    var i := IndexOf(s, key);
    var e := s[i].(value := Some(v), size := size);
    var t := s[i := e];
    LookupUpdate(s, i, e, k);
    ShapeUpdate(s, i, e);
    if cfg.maxSize > 0 {
      var u := Evict(t, key, cfg.maxSize).items;
      EvictIsPrefix(t, key, cfg.maxSize);
      LookupPrefix(t, u, k);
      FindsIt(t, i);
      EvictStops(t, key, cfg.maxSize);
      assert u[i].key == key;
    }
  }
}
