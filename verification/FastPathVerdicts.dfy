/** What each critical section of FastReturn decides, in terms of what the cache holds. */
module FastPathVerdicts {
  import opened Common
  import opened CacheSpec
  import opened CacheLaws
  import opened CacheLookup
  import opened FastPath
  import FastPathLaws

  /** The File cached has the modification time and size that stat found. */
  ghost predicate Current<K>(h: Heap<K>, found: Option<Option<nat>>, stat: Stat) {
    && found.Some? && found.value.Some? && found.value.value < |h.files|
    && h.files[found.value.value].mtime == stat.mtime && h.files[found.value.value].size == stat.size
  }

  ghost predicate OthersStay<K>(s: State<K>, s': State<K>, t: nat) {
    |s'.threads| == |s.threads| && forall u :: 0 <= u < |s.threads| && u != t ==> s'.threads[u] == s.threads[u]
  }

  ghost predicate OthersFound<K(!new)>(s: State<K>, s': State<K>, key: K) {
    forall k :: k != key ==> Lookup(s'.items, k) == Lookup(s.items, k)
  }

  lemma CachedIsAlive<K(!new)>(s: State<K>, key: K, f: nat)
    requires Inv(s) && Lookup(s.items, key) == Some(Some(f))
    ensures Alive(s.heap, f)
  {
    FastPathLaws.LiveHas(s.items, key, f);
    assert IsOf(s.heap, f, key);
  }

  /** What becomes of a thread that has looked the entry up: without one there is no file; for
      NULL it waits; a current File is sent, another is dropped and the file read again. */
  ghost predicate Decided<K(!new)>(s: State<K>, s': State<K>, t: nat, key: K, stat: Stat)
    requires t < |s.threads|
  {
    var found := Lookup(s.items, key);
    && OthersStay(s, s', t) && OthersFound(s, s', key)
    && (s'.threads[t] == Finished(false) <==> found == None)
    && (s'.threads[t] == Waiting(key, stat) <==> found == Some(None))
    && (s'.threads[t] == Loading(key, stat) <==>
          found != None && found != Some(None) && !Current(s.heap, found, stat))
    && (forall f: nat :: s'.threads[t] == Sending(key, stat, f) <==>
          found == Some(Some(f)) && Current(s.heap, found, stat))
    && Lookup(s'.items, key) == (if s'.threads[t] == Loading(key, stat) then Some(None) else found)
  }

  /** Dropping a value leaves a NULL entry. */
  lemma Dropped<K(!new)>(s: State<K>, key: K)
    requires Inv(s) && Lookup(s.items, key) != None
    ensures var s' := Do(s, UnsetValue(key));
            s'.threads == s.threads && OthersFound(s, s', key) && Lookup(s'.items, key) == Some(None)
  {
    forall k ensures Lookup(Apply(Cfg(s), s.items, UnsetValue(key)).items, k)
                  == if k == key then Some(None) else Lookup(s.items, k)
    {
      AfterUnset(Cfg(s), s.items, key, k);
    }
    hide Apply; hide Inv; hide DecrAll;
  }

  lemma ProceedVerdict<K(!new)>(s: State<K>, t: nat, key: K, stat: Stat)
    requires Inv(s) && t < |s.threads|
    ensures Decided(s, Proceed(s, t, key, stat), t, key, stat)
  {
    hide Inv; hide Do; hide Lookup;
    var found := Lookup(s.items, key);
    if found.Some? && found.value.Some? {
      CachedIsAlive(s, key, found.value.value);
      Dropped(s, key);
    }
  }

  lemma InvIsShaped<K(!new)>(s: State<K>)
    requires Inv(s)
    ensures Shaped(s.items)
  {
  }

  /** A call that only moves or adds an entry frees nothing. */
  lemma LooksUp<K(!new)>(s: State<K>, op: Op<K, nat>)
    requires Shaped(s.items) && (op.Find? || op.Create?)
    ensures var s' := Do(s, op);
            && s'.heap == s.heap && s'.threads == s.threads
            && forall k :: Lookup(s'.items, k)
                        == if op.Create? && k == op.key && !Has(s.items, k) then Some(None) else Lookup(s.items, k)
  {
    forall k ensures Lookup(Do(s, op).items, k)
                  == if op.Create? && k == op.key && !Has(s.items, k) then Some(None) else Lookup(s.items, k)
    {
      match op
      case Find(key, now) => AfterFind(Cfg(s), s.items, key, now, k);
      case Create(key, now) => AfterCreate(Cfg(s), s.items, key, now, k);
      case _ =>
    }
    hide Lookup;
  }

  /** The verdict is on what the cache held before the entry was looked up. */
  lemma DecidedBefore<K(!new)>(s: State<K>, s1: State<K>, s': State<K>, t: nat, key: K, stat: Stat)
    requires s1.heap == s.heap && s1.threads == s.threads && t < |s.threads| && Decided(s1, s', t, key, stat)
    requires forall k :: Lookup(s1.items, k) == Lookup(s.items, k)
    ensures Decided(s, s', t, key, stat)
  {
    hide Lookup;
  }

  /** A request: on an entry it has just made, the thread reads the file. */
  lemma BeginVerdict<K(!new)>(s: State<K>, t: nat, key: K, stat: Stat)
    requires Inv(s) && t < |s.threads| && (s.threads[t].Idle? || s.threads[t].Finished?)
    ensures var s' := Step(s, Begin(t, key, stat));
            if Lookup(s.items, key) == None then
              && s'.threads[t] == Loading(key, stat) && OthersStay(s, s', t) && OthersFound(s, s', key)
              && Lookup(s'.items, key) == Some(None)
            else Decided(s, s', t, key, stat)
  {
    hide Inv; hide Proceed; hide Do; hide Decided;
    var s1 := Do(s, Create(key, NOW));
    InvIsShaped(s);
    LooksUp(s, Create(key, NOW));
    if Has(s.items, key) {
      FastPathLaws.DoQuietly(s, Create(key, NOW));
      ProceedVerdict(s1, t, key, stat);
      DecidedBefore(s, s1, Proceed(s1, t, key, stat), t, key, stat);
    }
  }

  /** After a wait. */
  lemma ResumeVerdict<K(!new)>(s: State<K>, t: nat)
    requires Inv(s) && t < |s.threads| && s.threads[t].Awake?
    ensures Decided(s, Step(s, Resume(t)), t, s.threads[t].key, s.threads[t].stat)
  {
    hide Inv; hide Proceed; hide Do; hide Decided; hide Lookup;
    var key, stat := s.threads[t].key, s.threads[t].stat;
    var s1 := Do(s, Find(key, NOW));
    InvIsShaped(s);
    LooksUp(s, Find(key, NOW));
    FastPathLaws.DoQuietly(s, Find(key, NOW));
    ProceedVerdict(s1, t, key, stat);
    DecidedBefore(s, s1, Proceed(s1, t, key, stat), t, key, stat);
  }

  /** A file read becomes a File of that key, with what stat found and one reference, which is
      the loader's; it enters the cache, and is sent, as the loader publishes. */
  lemma ReadVerdict<K(!new)>(s: State<K>, t: nat, ok: bool)
    requires t < |s.threads| && s.threads[t].Loading?
    ensures var s', p := Step(s, Read(t, ok)), s.threads[t];
            && OthersStay(s, s', t) && s'.items == s.items
            && s'.threads[t] == Loaded(p.key, p.stat, if ok then Some(|s.heap.files|) else None)
            && s'.heap.files == s.heap.files + if ok then [File(p.key, p.stat.mtime, p.stat.size, 1, false)] else []
  {
    assert s.heap.files + [] == s.heap.files;
  }

  /** The entry is given the File, of that size, or goes if the file could not be read; whoever
      waits is woken. Storing may evict other entries. */
  lemma PublishVerdict<K(!new)>(s: State<K>, t: nat)
    requires Inv(s) && t < |s.threads| && s.threads[t].Loaded?
    ensures var s', p := Step(s, Publish(t)), s.threads[t];
            && |s'.threads| == |s.threads|
            && (forall u :: 0 <= u < |s.threads| && u != t ==>
                  s'.threads[u] == match s.threads[u] case Waiting(k, st) => Awake(k, st) case q => q)
            && match p.file
               case None =>
                 s'.threads[t] == Finished(false) && Lookup(s'.items, p.key) == None && OthersFound(s, s', p.key)
               case Some(f) =>
                 && s'.threads[t] == Sending(p.key, p.stat, f) && Lookup(s'.items, p.key) == Some(Some(f))
                 && (forall k :: k != p.key ==>
                       Lookup(s'.items, k) == None || Lookup(s'.items, k) == Lookup(s.items, k))
                 && s'.items == Apply(Cfg(s), Apply(Cfg(s), s.items, Create(p.key, NOW)).items,
                                      SetValue(p.key, f, p.stat.size)).items
  {
    hide Inv; hide DecrAll; hide Lookup;
    InvIsShaped(s);
    var p := s.threads[t];
    var s1 := Do(s, Create(p.key, NOW));
    LooksUp(s, Create(p.key, NOW));
    StepKeepsShape(Cfg(s), s.items, Create(p.key, NOW));
    var op: Op<K, nat> := if p.file.None? then FlushEntry(p.key) else SetValue(p.key, p.file.value, p.stat.size);
    FoundIsHas(s1.items, p.key);
    FoundIsHas(s.items, p.key);
    hide Apply;
    forall k ensures var r := Lookup(Apply(Cfg(s), s1.items, op).items, k);
                     if p.file.None? then r == if k == p.key then None else Lookup(s1.items, k)
                     else if k == p.key then r == Some(p.file) else r == None || r == Lookup(s1.items, k)
    {
      if p.file.None? {
        AfterFlushEntry(Cfg(s), s1.items, p.key, k);
      } else {
        AfterSet(Cfg(s), s1.items, p.key, p.file.value, p.stat.size, k);
      }
    }
  }

  /** A sent file was found; a thread woken asks again for what it asked; a flush of a key, or of
      all, leaves no entry and no thread changed. */
  lemma OtherVerdicts<K(!new)>(s: State<K>, t: nat, key: K)
    requires Inv(s) && t < |s.threads|
    ensures var s' := Step(s, Sent(t));
            s.threads[t].Sending? ==> s'.threads[t] == Finished(true) && OthersStay(s, s', t) && s'.items == s.items
    ensures var s' := Step(s, WakeUp(t));
            s.threads[t].Waiting? ==>
              s' == s.(threads := s.threads[t := Awake(s.threads[t].key, s.threads[t].stat)])
    ensures var s' := Step(s, FlushKey(key));
            s'.threads == s.threads && Lookup(s'.items, key) == None && OthersFound(s, s', key)
    ensures var s' := Step(s, FlushAll); s'.threads == s.threads && s'.items == []
  {
    hide Inv; hide DecrAll; hide Lookup;
    InvIsShaped(s);
    forall k ensures Lookup(Apply(Cfg(s), s.items, FlushEntry(key)).items, k)
                  == if k == key then None else Lookup(s.items, k)
    {
      AfterFlushEntry(Cfg(s), s.items, key, k);
    }
    assert Apply<K, nat>(Cfg(s), s.items, Flush).items == [];
    hide Apply;
  }

  lemma FoundIsHas<K>(items: seq<Item<K, nat>>, key: K)
    ensures Has(items, key) <==> Lookup(items, key) != None
  {
  }
}
