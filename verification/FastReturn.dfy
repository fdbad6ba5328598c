/** The critical sections of FastReturn's cached branch as they are built (nsd/fastpath.c), on
    the cache of the module Cache: each does one step of FastPath.Step. */
module FastReturn {
  import opened Common
  import opened CacheSpec
  import opened CacheLookup
  import opened FastPath
  import CacheLaws
  import C = Cache

  class Server<K(==)> {
    const cache: C.Cache<K, nat>
    var heap: Heap<K>                 // the Files, which the cache's values point to
    var threads: seq<Phase<K>>

    ghost function View(): State<K>
      reads this, cache
    {
      State(cache.maxSize, cache.contents, heap, threads)
    }

    ghost predicate Valid()
      reads this, cache, cache.entries
    {
      cache.Valid() && cache.Cfg() == Config(cache.maxSize, -1)
    }

    /** NsFastpathCache. */
    constructor (maxSize: nat, nthreads: nat)
      ensures Valid() && View() == Init(maxSize, nthreads)
    {
      cache := new C.Cache(-1, maxSize);
      heap := Heap([], false);
      threads := seq(nthreads, i => Idle);
    }

    /** DecrEntry is the cache's free proc: it is called for every value freed since. */
    method FreeSince(n: nat)
      requires n <= |cache.freed|
      modifies this`heap
      ensures heap == DecrAll(old(heap), cache.freed[n..])
    {
      var i := n;
      while i < |cache.freed|
        invariant n <= i <= |cache.freed| && heap == DecrAll(old(heap), cache.freed[n..i])
      {
        heap := Decr(heap, cache.freed[i]);
        assert cache.freed[n..i + 1] == cache.freed[n..i] + [cache.freed[i]];
        i := i + 1;
      }
      assert cache.freed[n..i] == cache.freed[n..];
    }

    /** The most recently used entry is the one just found or created. */
    lemma InFront(e: C.Entry<K, nat>)
      requires Valid() && |cache.entries| > 0 && cache.entries[0] == e
      ensures |cache.contents| > 0 && cache.contents[0] == e.Abs() && IndexOf(cache.contents, e.key) == 0
      ensures Lookup(cache.contents, e.key) == Some(e.value)
    {
    }

    /** The File is stale: the entry's value is unset, and this thread loads it anew. */
    method Reload(t: nat, e: C.Entry<K, nat>, stat: Stat)
      requires Valid() && t < |threads| && |cache.entries| > 0 && cache.entries[0] == e
      modifies this, cache, cache.entries
      ensures Valid() && View() == Go(Do(old(View()), UnsetValue(e.key)), t, Loading(e.key, stat))
    {
      hide C.Cache.Valid; hide Do;
      Unset(e);
      threads := threads[t := Loading(e.key, stat)];
    }

    /** Lines 555-565: wait for the entry's value, load it anew, or use it. */
    method Proceed(t: nat, e: C.Entry?<K, nat>, key: K, stat: Stat)
      requires Valid() && t < |threads|
      requires e == null ==> !Has(cache.contents, key)
      requires e != null ==> |cache.entries| > 0 && cache.entries[0] == e && e.key == key
      modifies this, cache, cache.entries
      ensures Valid() && View() == FastPath.Proceed(old(View()), t, key, stat)
    {
      if e == null {
        threads := threads[t := Finished(false)];
        return;
      }
      InFront(e);
      hide C.Linked; hide C.Tabled; hide C.Holds; hide CacheLaws.Shaped; hide Total; hide Do; hide Lookup;
      match e.value
      case None => threads := threads[t := Waiting(key, stat)];
      case Some(f) =>
        if !Alive(heap, f) {
          heap := heap.(fault := true);
        } else if heap.files[f].mtime != stat.mtime || heap.files[f].size != stat.size {
          Reload(t, e, stat);
        } else {
          heap := Incr(heap, f);
          threads := threads[t := Sending(key, stat, f)];
        }
    }

    /** Lines 552-566: look the file up for the first time. */
    method Enter(t: nat, key: K, stat: Stat)
      requires Valid() && t < |threads| && (threads[t].Idle? || threads[t].Finished?)
      modifies this, cache, cache.entries
      ensures Valid() && View() == Step(old(View()), Begin(t, key, stat))
    {
      hide C.Linked; hide C.Tabled; hide C.Holds; hide CacheLaws.Shaped; hide Total; hide C.Cache.Valid;
      hide FastPath.Proceed;
      NothingFreed(View(), key);
      var e, isNew := cache.CreateEntry(key, NOW);
      if !isNew {
        Proceed(t, e, key, stat);
      } else {
        threads := threads[t := Loading(key, stat)];
      }
    }

    /** Line 558: the wait is over, for whatever reason; look again. */
    method Resume(t: nat)
      requires Valid() && t < |threads| && threads[t].Awake?
      modifies this, cache, cache.entries
      ensures Valid() && View() == Step(old(View()), Action.Resume(t))
    {
      hide C.Linked; hide C.Tabled; hide C.Holds; hide CacheLaws.Shaped; hide Total; hide C.Cache.Valid;
      hide FastPath.Proceed;
      var key, stat := threads[t].key, threads[t].stat;
      NothingFreed(View(), key);
      StillThere(key);
      var e := cache.FindEntry(key, NOW);
      Proceed(t, e, key, stat);
    }

    /** Lines 573-591, outside the lock: read the file, if it can be opened and read. */
    method ReadFile(t: nat, ok: bool)
      requires Valid() && t < |threads| && threads[t].Loading?
      modifies this
      ensures Valid() && View() == Step(old(View()), Read(t, ok))
    {
      var p := threads[t];
      var file: Option<nat> := None;
      if ok {
        file := Some(|heap.files|);
        heap := heap.(files := heap.files + [File(p.key, p.stat.mtime, p.stat.size, 1, false)]);
      }
      threads := threads[t := Loaded(p.key, p.stat, file)];
    }

    /** Lines 592-602: publish, or give up, and broadcast; then begin to send. */
    method PublishFile(t: nat)
      requires Valid() && t < |threads| && threads[t].Loaded?
      modifies this, cache, cache.entries
      ensures Valid() && View() == Step(old(View()), Publish(t))
    {
      hide C.Linked; hide C.Tabled; hide C.Holds; hide CacheLaws.Shaped; hide Total; hide C.Cache.Valid; hide Do;
      var p := threads[t];
      NothingFreed(View(), p.key);
      var e, _ := cache.CreateEntry(p.key, NOW);
      if p.file == None {
        Drop(e);
        threads := Broadcast(threads);
        threads := threads[t := Finished(false)];
      } else {
        Store(e, p.file.value, p.stat.size);
        threads := Broadcast(threads);
        heap := Incr(heap, p.file.value);
        threads := threads[t := Sending(p.key, p.stat, p.file.value)];
      }
    }

    /** Ns_CacheUnsetValue of the entry in front. */
    method Unset(e: C.Entry<K, nat>)
      requires Valid() && |cache.entries| > 0 && cache.entries[0] == e
      modifies this`heap, cache`contents, cache`freed, cache`currentSize, e`size, e`value
      ensures Valid() && View() == Do(old(View()), UnsetValue(e.key))
    {
      hide C.Linked; hide C.Tabled; hide C.Holds; hide CacheLaws.Shaped; hide Total; hide C.Cache.Valid; hide DecrAll;
      InFront(e);
      var n := |cache.freed|;
      cache.UnsetValue(e, 0);
      FreeSince(n);
    }

    /** Ns_CacheFlushEntry of the entry in front. */
    method Drop(e: C.Entry<K, nat>)
      requires Valid() && |cache.entries| > 0 && cache.entries[0] == e
      modifies this`heap, cache, cache.entries
      ensures Valid() && View() == Do(old(View()), FlushEntry(e.key))
    {
      hide C.Linked; hide C.Tabled; hide C.Holds; hide CacheLaws.Shaped; hide Total; hide C.Cache.Valid; hide DecrAll;
      var n := |cache.freed|;
      cache.FlushEntry(e, 0);
      FreeSince(n);
    }

    /** Ns_CacheSetValueSz of the entry in front. */
    method Store(e: C.Entry<K, nat>, file: nat, size: nat)
      requires Valid() && |cache.entries| > 0 && cache.entries[0] == e
      modifies this`heap, cache, cache.entries
      ensures Valid() && View() == Do(old(View()), SetValue(e.key, file, size))
    {
      hide C.Linked; hide C.Tabled; hide C.Holds; hide CacheLaws.Shaped; hide Total; hide C.Cache.Valid; hide DecrAll;
      var n := |cache.freed|;
      cache.SetValueSz(e, 0, file, size);
      FreeSince(n);
    }

    /** Line 607: all has been sent. */
    method DecrEntry(t: nat)
      requires Valid() && t < |threads| && threads[t].Sending?
      modifies this
      ensures Valid() && View() == Step(old(View()), Sent(t))
    {
      heap := Decr(heap, threads[t].sent);
      threads := threads[t := Finished(true)];
    }

    lemma NothingFreed(s: State<K>, key: K)
      ensures Do(s, Create(key, NOW)) == s.(items := Apply(Cfg(s), s.items, Create(key, NOW)).items)
      ensures Do(s, Find(key, NOW)) == s.(items := Apply(Cfg(s), s.items, Find(key, NOW)).items)
    {
    }

    lemma StillThere(key: K)
      requires Valid()
      ensures Has(cache.contents, key) <==> Has(Apply(Cfg(View()), cache.contents, Find(key, NOW)).items, key)
    {
      CacheShape();
      AfterFind(Cfg(View()), cache.contents, key, NOW, key);
    }

    lemma CacheShape()
      requires Valid()
      ensures CacheLaws.Shaped(cache.contents)
    {
    }
  }
}
