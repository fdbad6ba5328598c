/** What each critical section of DnsGet decides, in terms of what the cache holds. */
module DnsVerdicts {
  import opened Common
  import opened CacheSpec
  import opened CacheLaws
  import opened CacheLookup
  import opened Dns
  import DnsLaws

  /** The record cached has not expired. */
  ghost predicate Current<K>(h: Heap<K>, found: Option<Option<nat>>, now: int) {
    && found.Some? && found.value.Some? && found.value.value < |h.records|
    && now <= h.records[found.value.value].expires
  }

  ghost predicate OthersStay<K>(s: State<K>, s': State<K>, t: nat) {
    |s'.threads| == |s.threads| && forall u :: 0 <= u < |s.threads| && u != t ==> s'.threads[u] == s.threads[u]
  }

  ghost predicate OthersFound<K(!new)>(s: State<K>, s': State<K>, key: K) {
    forall k :: k != key ==> Lookup(s'.items, k) == Lookup(s.items, k)
  }

  lemma CachedIsAlive<K(!new)>(s: State<K>, key: K, v: nat)
    requires Inv(s) && Lookup(s.items, key) == Some(Some(v))
    ensures Alive(s.heap, v)
  {
    DnsLaws.LiveHas(s.items, key, v);
    assert IsOf(s.heap, v, key);
  }

  /** What becomes of a thread that has looked the entry up: without one it fails; for NULL it
      waits; a current record is the answer, an expired one is dropped and the name resolved. */
  ghost predicate Decided<K(!new)>(s: State<K>, s': State<K>, t: nat, key: K, now: int)
    requires t < |s.threads|
  {
    var found := Lookup(s.items, key);
    && OthersStay(s, s', t) && OthersFound(s, s', key)
    && (s'.threads[t] == Failed <==> found == None)
    && (s'.threads[t] == Waiting(key, now) <==> found == Some(None))
    && (s'.threads[t] == Loading(key, now) <==> found != None && found != Some(None) && !Current(s.heap, found, now))
    && (forall v: nat :: s'.threads[t] == Answered(key, now, v) <==>
          found == Some(Some(v)) && Current(s.heap, found, now))
    && Lookup(s'.items, key) == (if s'.threads[t] == Loading(key, now) then Some(None) else found)
  }

  /** Dropping a value leaves a NULL entry. */
  lemma Dropped<K(!new)>(s: State<K>, key: K)
    requires Inv(s) && Lookup(s.items, key) != None
    ensures var s' := Do(s, UnsetValue(key));
            s'.threads == s.threads && OthersFound(s, s', key) && Lookup(s'.items, key) == Some(None)
  {
    forall k ensures Lookup(Apply(Cfg(s), s.items, UnsetValue(key)).items, k)
                  == if k == key then Some(None) else Lookup(s.items, k)
    {
      AfterUnset(Cfg(s), s.items, key, k);
    }
    hide Apply; hide Inv; hide FreeAll;
  }

  lemma ProceedVerdict<K(!new)>(s: State<K>, t: nat, key: K, now: int)
    requires Inv(s) && t < |s.threads|
    ensures Decided(s, Proceed(s, t, key, now), t, key, now)
  {
    hide Inv; hide Do; hide Lookup;
    var found := Lookup(s.items, key);
    if found.Some? && found.value.Some? {
      CachedIsAlive(s, key, found.value.value);
      Dropped(s, key);
    }
  }

  lemma InvIsShaped<K(!new)>(s: State<K>)
    requires Inv(s)
    ensures Shaped(s.items)
  {
  }

  /** A call that only moves or adds an entry frees nothing. */
  lemma LooksUp<K(!new)>(s: State<K>, op: Op<K, nat>)
    requires Shaped(s.items) && (op.Find? || op.Create?)
    ensures var s' := Do(s, op);
            && s'.heap == s.heap && s'.threads == s.threads
            && forall k :: Lookup(s'.items, k)
                        == if op.Create? && k == op.key && !Has(s.items, k) then Some(None) else Lookup(s.items, k)
  {
    forall k ensures Lookup(Do(s, op).items, k)
                  == if op.Create? && k == op.key && !Has(s.items, k) then Some(None) else Lookup(s.items, k)
    {
      match op
      case Find(key, now) => AfterFind(Cfg(s), s.items, key, now, k);
      case Create(key, now) => AfterCreate(Cfg(s), s.items, key, now, k);
      case _ =>
    }
    hide Lookup;
  }

  /** The verdict is on what the cache held before the entry was looked up. */
  lemma DecidedBefore<K(!new)>(s: State<K>, s1: State<K>, s': State<K>, t: nat, key: K, now: int)
    requires s1.heap == s.heap && s1.threads == s.threads && t < |s.threads| && Decided(s1, s', t, key, now)
    requires forall k :: Lookup(s1.items, k) == Lookup(s.items, k)
    ensures Decided(s, s', t, key, now)
  {
    hide Lookup;
  }

  lemma FoundIsHas<K>(items: seq<Item<K, nat>>, key: K)
    ensures Has(items, key) <==> Lookup(items, key) != None
  {
  }

  /** A request: on an entry it has just made, the thread resolves the name. */
  lemma BeginVerdict<K(!new)>(s: State<K>, t: nat, key: K, now: int)
    requires Inv(s) && t < |s.threads| && (s.threads[t].Idle? || s.threads[t].Answered? || s.threads[t].Failed?)
    ensures var s' := Step(s, Begin(t, key, now));
            if Lookup(s.items, key) == None then
              && s'.threads[t] == Loading(key, now) && OthersStay(s, s', t) && OthersFound(s, s', key)
              && Lookup(s'.items, key) == Some(None)
            else Decided(s, s', t, key, now)
  {
    hide Inv; hide Proceed; hide Do; hide Decided;
    var s1 := Do(s, Create(key, NOCLOCK));
    InvIsShaped(s);
    LooksUp(s, Create(key, NOCLOCK));
    if Has(s.items, key) {
      DnsLaws.DoQuietly(s, Create(key, NOCLOCK));
      ProceedVerdict(s1, t, key, now);
      DecidedBefore(s, s1, Proceed(s1, t, key, now), t, key, now);
    }
  }

  /** After a wait. */
  lemma ResumeVerdict<K(!new)>(s: State<K>, t: nat)
    requires Inv(s) && t < |s.threads| && s.threads[t].Awake?
    ensures Decided(s, Step(s, Resume(t)), t, s.threads[t].key, s.threads[t].now)
  {
    hide Inv; hide Proceed; hide Do; hide Decided; hide Lookup;
    var key, now := s.threads[t].key, s.threads[t].now;
    var s1 := Do(s, Find(key, NOCLOCK));
    InvIsShaped(s);
    LooksUp(s, Find(key, NOCLOCK));
    DnsLaws.DoQuietly(s, Find(key, NOCLOCK));
    ProceedVerdict(s1, t, key, now);
    DecidedBefore(s, s1, Proceed(s1, t, key, now), t, key, now);
  }

  /** Freeing changes nothing else. */
  lemma {:induction false} FreeingKeeps<K>(h: Heap<K>, vs: seq<nat>)
    ensures var h' := FreeAll(h, vs);
            |h'.records| == |h.records|
            && forall v :: 0 <= v < |h.records| ==> h'.records[v].(freed := false) == h.records[v].(freed := false)
  {
    if vs != [] {
      FreeingKeeps(h, vs[..|vs| - 1]);
    }
  }

  ghost predicate OthersWoken<K>(s: State<K>, s': State<K>, t: nat) {
    && |s'.threads| == |s.threads|
    && forall u :: 0 <= u < |s.threads| && u != t ==>
         s'.threads[u] == match s.threads[u] case Waiting(k, at) => Awake(k, at) case q => q
  }

  /** If the name could not be resolved, the entry goes; whoever waits is woken. */
  lemma GiveUpVerdict<K(!new)>(s: State<K>, t: nat)
    requires Inv(s) && t < |s.threads| && s.threads[t].Loaded? && s.threads[t].text == None
    ensures var s', key := Step(s, Publish(t)), s.threads[t].key;
            && OthersWoken(s, s', t) && s'.threads[t] == Failed
            && Lookup(s'.items, key) == None && OthersFound(s, s', key)
            && |s'.heap.records| == |s.heap.records|
  {
    hide Inv; hide FreeAll; hide Lookup;
    InvIsShaped(s);
    var key := s.threads[t].key;
    var s1 := Do(s, Create(key, NOCLOCK));
    LooksUp(s, Create(key, NOCLOCK));
    StepKeepsShape(Cfg(s), s.items, Create(key, NOCLOCK));
    FoundIsHas(s.items, key);
    forall k ensures Lookup(Apply(Cfg(s), s1.items, FlushEntry(key)).items, k)
                  == if k == key then None else Lookup(s1.items, k)
    {
      AfterFlushEntry(Cfg(s), s1.items, key, k);
    }
    FreeingKeeps(s1.heap, Apply(Cfg(s), s1.items, FlushEntry(key)).freed);
    hide Apply;
  }

  /** The state before the new record is stored. */
  ghost function Emptied<K>(s: State<K>, key: K): State<K> {
    Do(Do(s, Create(key, NOCLOCK)), UnsetValue(key))
  }

  lemma EmptiedIs<K(!new)>(s: State<K>, key: K)
    requires Inv(s)
    ensures var s2 := Emptied(s, key);
            && Shaped(s2.items) && Lookup(s2.items, key) == Some(None) && OthersFound(s, s2, key)
            && |s2.heap.records| == |s.heap.records| && s2.threads == s.threads
  {
    hide Inv; hide FreeAll; hide Lookup;
    InvIsShaped(s);
    var s1 := Do(s, Create(key, NOCLOCK));
    LooksUp(s, Create(key, NOCLOCK));
    StepKeepsShape(Cfg(s), s.items, Create(key, NOCLOCK));
    StepKeepsShape(Cfg(s), s1.items, UnsetValue(key));
    FoundIsHas(s.items, key);
    FoundIsHas(s1.items, key);
    forall k ensures Lookup(Apply(Cfg(s), s1.items, UnsetValue(key)).items, k)
                  == if k == key && Has(s1.items, key) then Some(None) else Lookup(s1.items, k)
    {
      AfterUnset(Cfg(s), s1.items, key, k);
    }
    FreeingKeeps(s1.heap, Apply(Cfg(s), s1.items, UnsetValue(key)).freed);
    hide Apply;
  }

  /** A name resolved is stored as a record of that name and text, which expires the timeout
      after the lookup began, and is the answer; whoever waits is woken. Storing may evict other
      entries. */
  lemma StoreVerdict<K(!new)>(s: State<K>, t: nat, text: string)
    requires Inv(s) && t < |s.threads| && s.threads[t].Loaded? && s.threads[t].text == Some(text)
    ensures var s', key, now, n := Step(s, Publish(t)), s.threads[t].key, s.threads[t].now, |s.heap.records|;
            && OthersWoken(s, s', t) && s'.threads[t] == Answered(key, now, n)
            && Lookup(s'.items, key) == Some(Some(n))
            && (forall k :: k != key ==> Lookup(s'.items, k) == None || Lookup(s'.items, k) == Lookup(s.items, k))
            && |s'.heap.records| == n + 1 && s'.heap.records[n] == Record(key, text, now + s.ttl, false)
            && s'.items == Apply(Cfg(s), Emptied(s, key).items, SetValue(key, n, 1)).items
  {
    hide Inv; hide FreeAll; hide Lookup; hide Apply;
    var key, n := s.threads[t].key, |s.heap.records|;
    var s2 := Emptied(s, key);
    EmptiedIs(s, key);
    FoundIsHas(s2.items, key);
    forall k ensures var r := Lookup(Apply(Cfg(s2), s2.items, SetValue(key, n, 1)).items, k);
                     if k == key then r == Some(Some(n)) else r == None || r == Lookup(s2.items, k)
    {
      AfterSet(Cfg(s2), s2.items, key, n, 1, k);
    }
    var record := Record(key, text, s.threads[t].now + s.ttl, false);
    var h := s2.heap.(records := s2.heap.records + [record]);
    FreeingKeeps(h, Apply(Cfg(s2), s2.items, SetValue(key, n, 1)).freed);
    DnsLaws.StepKeepsInv(s, Publish(t));
    CachedIsAlive(Step(s, Publish(t)), key, n);
  }

  /** What was resolved is kept to be stored; a thread woken asks again for what it asked; a
      flush of a key, or of all, leaves no entry and no thread changed. */
  lemma OtherVerdicts<K(!new)>(s: State<K>, t: nat, text: Option<string>, key: K)
    requires Inv(s) && t < |s.threads|
    ensures var s' := Step(s, Resolve(t, text));
            s.threads[t].Loading? ==>
              s' == s.(threads := s.threads[t := Loaded(s.threads[t].key, s.threads[t].now, text)])
    ensures var s' := Step(s, WakeUp(t));
            s.threads[t].Waiting? ==>
              s' == s.(threads := s.threads[t := Awake(s.threads[t].key, s.threads[t].now)])
    ensures var s' := Step(s, FlushKey(key));
            s'.threads == s.threads && Lookup(s'.items, key) == None && OthersFound(s, s', key)
    ensures var s' := Step(s, FlushAll); s'.threads == s.threads && s'.items == []
  {
    hide Inv; hide FreeAll; hide Lookup;
    InvIsShaped(s);
    forall k ensures Lookup(Apply(Cfg(s), s.items, FlushEntry(key)).items, k)
                  == if k == key then None else Lookup(s.items, k)
    {
      AfterFlushEntry(Cfg(s), s.items, key, k);
    }
    assert Apply<K, nat>(Cfg(s), s.items, Flush).items == [];
    hide Apply;
  }
}
