/** The critical sections of DnsGet as they are built (nsd/dns.c), on the cache of the module
    Cache: each does one step of Dns.Step. */
module DnsGet {
  import opened Common
  import opened CacheSpec
  import opened CacheLookup
  import opened Dns
  import CacheLaws
  import C = Cache

  class Resolver<K(==)> {
    const cache: C.Cache<K, nat>
    const ttl: int                    // the cache timeout
    var heap: Heap<K>                 // the records, which the cache's values point to
    var threads: seq<Phase<K>>

    ghost function View(): State<K>
      reads this, cache
    {
      State(cache.maxSize, ttl, cache.contents, heap, threads)
    }

    ghost predicate Valid()
      reads this, cache, cache.entries
    {
      cache.Valid() && cache.Cfg() == Config(cache.maxSize, -1)
    }

    /** NsEnableDNSCache. */
    constructor (maxSize: nat, ttl: int, nthreads: nat)
      ensures Valid() && View() == Init(maxSize, ttl, nthreads)
    {
      this.ttl := ttl;
      cache := new C.Cache(-1, maxSize);
      heap := Heap([], false);
      threads := seq(nthreads, i => Idle);
    }

    /** ns_free is the cache's free proc: it is called for every value freed since. */
    method FreeSince(n: nat)
      requires n <= |cache.freed|
      modifies this`heap
      ensures heap == FreeAll(old(heap), cache.freed[n..])
    {
      var i := n;
      while i < |cache.freed|
        invariant n <= i <= |cache.freed| && heap == FreeAll(old(heap), cache.freed[n..i])
      {
        heap := Free(heap, cache.freed[i]);
        assert cache.freed[n..i + 1] == cache.freed[n..i] + [cache.freed[i]];
        i := i + 1;
      }
      assert cache.freed[n..i] == cache.freed[n..];
    }

    /** The most recently used entry is the one just found or created. */
    lemma InFront(e: C.Entry<K, nat>)
      requires Valid() && |cache.entries| > 0 && cache.entries[0] == e
      ensures |cache.contents| > 0 && cache.contents[0] == e.Abs() && IndexOf(cache.contents, e.key) == 0
      ensures Lookup(cache.contents, e.key) == Some(e.value)
    {
    }

    /** The record has expired: the entry's value is unset, and this thread loads it anew. */
    method Reload(t: nat, e: C.Entry<K, nat>, now: int)
      requires Valid() && t < |threads| && |cache.entries| > 0 && cache.entries[0] == e
      modifies this, cache, cache.entries
      ensures Valid() && View() == Go(Do(old(View()), UnsetValue(e.key)), t, Loading(e.key, now))
    {
      hide C.Cache.Valid; hide Do;
      Unset(e);
      threads := threads[t := Loading(e.key, now)];
    }

    /** Lines 151-165: wait for the entry's value, resolve it anew, or use it. */
    method Proceed(t: nat, e: C.Entry?<K, nat>, key: K, now: int)
      requires Valid() && t < |threads|
      requires e == null ==> !Has(cache.contents, key)
      requires e != null ==> |cache.entries| > 0 && cache.entries[0] == e && e.key == key
      modifies this, cache, cache.entries
      ensures Valid() && View() == Dns.Proceed(old(View()), t, key, now)
    {
      if e == null {
        threads := threads[t := Failed];
        return;
      }
      InFront(e);
      hide C.Linked; hide C.Tabled; hide C.Holds; hide CacheLaws.Shaped; hide Total; hide Do; hide Lookup;
      match e.value
      case None => threads := threads[t := Waiting(key, now)];
      case Some(v) =>
        if !Alive(heap, v) {
          heap := heap.(fault := true);
        } else if heap.records[v].expires < now {
          Reload(t, e, now);
        } else {
          threads := threads[t := Answered(key, now, v)];
        }
    }

    /** Lines 147-165: look the name up for the first time. */
    method Enter(t: nat, key: K, now: int)
      requires Valid() && t < |threads| && AtRest(threads[t])
      modifies this, cache, cache.entries
      ensures Valid() && View() == Step(old(View()), Begin(t, key, now))
    {
      hide C.Linked; hide C.Tabled; hide C.Holds; hide CacheLaws.Shaped; hide Total; hide C.Cache.Valid;
      hide Dns.Proceed;
      NothingFreed(View(), key);
      var e, isNew := cache.CreateEntry(key, NOCLOCK);
      if !isNew {
        Proceed(t, e, key, now);
      } else {
        threads := threads[t := Loading(key, now)];
      }
    }

    /** Line 154: the wait is over, for whatever reason; look again. */
    method Resume(t: nat)
      requires Valid() && t < |threads| && threads[t].Awake?
      modifies this, cache, cache.entries
      ensures Valid() && View() == Step(old(View()), Action.Resume(t))
    {
      hide C.Linked; hide C.Tabled; hide C.Holds; hide CacheLaws.Shaped; hide Total; hide C.Cache.Valid;
      hide Dns.Proceed;
      var key, now := threads[t].key, threads[t].now;
      NothingFreed(View(), key);
      StillThere(key);
      var e := cache.FindEntry(key, NOCLOCK);
      Proceed(t, e, key, now);
    }

    /** Lines 168-169, outside the lock: resolve the name. */
    method GetProc(t: nat, text: Option<string>)
      requires Valid() && t < |threads| && threads[t].Loading?
      modifies this
      ensures Valid() && View() == Step(old(View()), Resolve(t, text))
    {
      threads := threads[t := Loaded(threads[t].key, threads[t].now, text)];
    }

    /** Lines 170-180: publish, or give up, and broadcast. */
    method PublishRecord(t: nat)
      requires Valid() && t < |threads| && threads[t].Loaded?
      modifies this, cache, cache.entries
      ensures Valid() && View() == Step(old(View()), Publish(t))
    {
      hide C.Linked; hide C.Tabled; hide C.Holds; hide CacheLaws.Shaped; hide Total; hide C.Cache.Valid; hide Do;
      var p := threads[t];
      NothingFreed(View(), p.key);
      var e, _ := cache.CreateEntry(p.key, NOCLOCK);
      if p.text == None {
        Drop(e);
        threads := Broadcast(threads);
        threads := threads[t := Failed];
      } else {
        Unset(e);
        var v := |heap.records|;
        heap := heap.(records := heap.records + [Record(p.key, p.text.value, p.now + ttl, false)]);
        Store(e, v);
        threads := Broadcast(threads);
        threads := threads[t := Answered(p.key, p.now, v)];
      }
    }

    /** Ns_CacheFlushEntry of the entry in front. */
    method Drop(e: C.Entry<K, nat>)
      requires Valid() && |cache.entries| > 0 && cache.entries[0] == e
      modifies this`heap, cache, cache.entries
      ensures Valid() && View() == Do(old(View()), FlushEntry(e.key))
    {
      hide C.Linked; hide C.Tabled; hide C.Holds; hide CacheLaws.Shaped; hide Total; hide C.Cache.Valid; hide FreeAll;
      var n := |cache.freed|;
      cache.FlushEntry(e, 0);
      FreeSince(n);
    }

    /** Ns_CacheUnsetValue of the entry in front. */
    method Unset(e: C.Entry<K, nat>)
      requires Valid() && |cache.entries| > 0 && cache.entries[0] == e
      modifies this`heap, cache`contents, cache`freed, cache`currentSize, e`size, e`value
      ensures Valid() && View() == Do(old(View()), UnsetValue(e.key))
    {
      hide C.Linked; hide C.Tabled; hide C.Holds; hide CacheLaws.Shaped; hide Total; hide C.Cache.Valid; hide FreeAll;
      InFront(e);
      var n := |cache.freed|;
      cache.UnsetValue(e, 0);
      FreeSince(n);
    }

    /** Ns_CacheSetValueSz of the entry in front: every record counts as one. */
    method Store(e: C.Entry<K, nat>, record: nat)
      requires Valid() && |cache.entries| > 0 && cache.entries[0] == e
      modifies this`heap, cache, cache.entries
      ensures Valid() && View() == Do(old(View()), SetValue(e.key, record, 1))
    {
      hide C.Linked; hide C.Tabled; hide C.Holds; hide CacheLaws.Shaped; hide Total; hide C.Cache.Valid; hide FreeAll;
      var n := |cache.freed|;
      cache.SetValueSz(e, 0, record, 1);
      FreeSince(n);
    }

    lemma NothingFreed(s: State<K>, key: K)
      ensures Do(s, Create(key, NOCLOCK)) == s.(items := Apply(Cfg(s), s.items, Create(key, NOCLOCK)).items)
      ensures Do(s, Find(key, NOCLOCK)) == s.(items := Apply(Cfg(s), s.items, Find(key, NOCLOCK)).items)
    {
    }

    lemma StillThere(key: K)
      requires Valid()
      ensures Has(cache.contents, key) <==> Has(Apply(Cfg(View()), cache.contents, Find(key, NOCLOCK)).items, key)
    {
      CacheShape();
      AfterFind(Cfg(View()), cache.contents, key, NOCLOCK, key);
    }

    lemma CacheShape()
      requires Valid()
      ensures CacheLaws.Shaped(cache.contents)
    {
    }
  }
}
