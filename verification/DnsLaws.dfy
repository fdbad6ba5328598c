/** Safety of the DNS cache over every run of any number of threads. */
module DnsLaws {
  import opened Common
  import opened CacheSpec
  import opened CacheLaws
  import opened CacheLookup
  import opened SingleFlight
  import opened Dns

  /** Records are only ever added, and keep what they were made with. */
  ghost predicate Extends<K>(h: Heap<K>, h': Heap<K>) {
    && |h.records| <= |h'.records|
    && forall v :: 0 <= v < |h.records| ==>
         h'.records[v].key == h.records[v].key && h'.records[v].expires == h.records[v].expires
  }

  lemma LiveHas<K>(s: seq<Item<K, nat>>, key: K, v: nat)
    requires Lookup(s, key) == Some(Some(v))
    ensures v in multiset(Live(s))
  {
    AtIndex(s, IndexOf(s, key));
    assert Held(s[IndexOf(s, key)])[0] == v;
  }

  /** Freeing what is cached frees nothing twice. */
  lemma {:induction false} FreeAllOwned<K>(h: Heap<K>, cached: multiset<nat>, vs: seq<nat>)
    requires Owned(h, cached) && multiset(vs) <= cached
    ensures Owned(FreeAll(h, vs), cached - multiset(vs)) && Extends(h, FreeAll(h, vs))
  {
    if vs == [] {
      assert cached - multiset(vs) == cached;
    } else {
      var p, v := vs[..|vs| - 1], vs[|vs| - 1];
      assert vs == p + [v];
      assert multiset(vs) == multiset(p) + multiset{v};
      FreeAllOwned(h, cached, p);
      assert v in cached - multiset(p);
      assert cached - multiset(p) - multiset{v} == cached - multiset(vs);
    }
  }

  lemma DoOwned<K>(s: State<K>, op: Op<K, nat>)
    requires Owned(s.heap, Cached(s) + multiset(Given(s.items, op)))
    ensures Owned(Do(s, op).heap, Cached(Do(s, op))) && Extends(s.heap, Do(s, op).heap)
  {
    hide Owned; hide Live; hide Given;
    var r := Apply(Cfg(s), s.items, op);
    var all := Cached(s) + multiset(Given(s.items, op));
    StepConserves(Cfg(s), s.items, op);
    assert all == Cached(Do(s, op)) + multiset(r.freed);
    assert all - multiset(r.freed) == Cached(Do(s, op));
    FreeAllOwned(s.heap, all, r.freed);
  }

  lemma DoNothingGiven<K>(s: State<K>, op: Op<K, nat>)
    requires Owned(s.heap, Cached(s)) && Given(s.items, op) == []
    ensures Owned(Do(s, op).heap, Cached(Do(s, op))) && Extends(s.heap, Do(s, op).heap)
  {
    hide Owned; hide Live; hide Given;
    assert Cached(s) + multiset(Given(s.items, op)) == Cached(s);
    DoOwned(s, op);
  }

  lemma RolesGo<K>(threads: seq<Phase<K>>, t: nat, p: Phase<K>)
    requires t < |threads|
    ensures Roles(threads[t := p]) == Roles(threads)[t := RoleOf(p)]
  {
  }

  lemma RolesPublish<K>(threads: seq<Phase<K>>, t: nat, p: Phase<K>)
    requires t < |threads| && RoleOf(p).Outside?
    ensures var roles, roles' := Roles(threads), Roles(Broadcast(threads)[t := p]);
            && |roles'| == |roles| && roles'[t] == Outside
            && forall u :: 0 <= u < |roles| && u != t ==>
                 roles'[u] == if roles[u].Blocked? then Outside else roles[u]
  {
  }

  lemma FitsGo<K(!new)>(s: State<K>, s': State<K>, threads: seq<Phase<K>>, t: nat, p: Phase<K>)
    requires Fitting(s) && t < |s.threads| && (threads == s.threads || threads == Broadcast(s.threads))
    requires s'.threads == threads[t := p] && Extends(s.heap, s'.heap) && PhaseFits(s'.heap, p)
    requires forall k, v :: Lookup(s'.items, k) == Some(Some(v)) ==>
               Lookup(s.items, k) == Some(Some(v)) || IsOf(s'.heap, v, k)
    ensures Fitting(s')
  {
    forall k, v | Lookup(s'.items, k) == Some(Some(v)) ensures IsOf(s'.heap, v, k) {
      if Lookup(s.items, k) == Some(Some(v)) {
        assert IsOf(s.heap, v, k);
      }
    }
    forall u | 0 <= u < |s'.threads| ensures PhaseFits(s'.heap, s'.threads[u]) {
      if u != t {
        assert PhaseFits(s.heap, s.threads[u]);
      }
    }
  }

  /** A call that stores nothing and adds no NULL entry. */
  lemma DoQuietly<K(!new)>(s: State<K>, op: Op<K, nat>)
    requires Inv(s)
    requires op.Find? || op.FlushEntry? || op.Flush? || (op.Create? && Has(s.items, op.key))
    ensures Inv(Do(s, op))
  {
    hide Owned; hide Shaped; hide Attended; hide Live; hide Apply; hide Lookup;
    var s' := Do(s, op);
    DoNothingGiven(s, op);
    StepKeepsShape(Cfg(s), s.items, op);
    forall k ensures Lookup(s'.items, k) == None || Lookup(s'.items, k) == Lookup(s.items, k) {
      match op
      case Find(key, now) => AfterFind(Cfg(s), s.items, key, now, k);
      case Create(key, now) => AfterCreate(Cfg(s), s.items, key, now, k);
      case FlushEntry(key) => AfterFlushEntry(Cfg(s), s.items, key, k);
      case _ => NothingAfterFlush(Cfg(s), s.items, k);
    }
    FlushStep(s.items, Roles(s.threads), s'.items);
    forall t | 0 <= t < |s.threads| ensures PhaseFits(s'.heap, s'.threads[t]) {
      assert PhaseFits(s.heap, s.threads[t]);
    }
    forall k, v | Lookup(s'.items, k) == Some(Some(v)) ensures IsOf(s'.heap, v, k) {
      assert IsOf(s.heap, v, k);
    }
  }

  lemma NothingAfterFlush<K, V>(cfg: Config, s: seq<Item<K, V>>, k: K)
    ensures Lookup(Apply(cfg, s, Flush).items, k) == None
  {
  }

  lemma MoveOn<K(!new)>(s: State<K>, t: nat, p: Phase<K>)
    requires Inv(s) && t < |s.threads| && PhaseFits(s.heap, p)
    requires RoleOf(s.threads[t]).Loader? ==> RoleOf(p) == RoleOf(s.threads[t])
    requires RoleOf(p).Blocked? ==> Lookup(s.items, RoleOf(p).key) == Some(None) && RoleOf(s.threads[t]).Outside?
    ensures Inv(Go(s, t, p))
  {
    hide Owned; hide Shaped; hide Attended; hide Live; hide Lookup; hide Fitting;
    RolesGo(s.threads, t, p);
    QuietStep(s.items, Roles(s.threads), s.items, t, RoleOf(p));
    FitsGo(s, Go(s, t, p), s.threads, t, p);
  }

  /** A thread becomes the loader of a key whose entry it creates or whose value expired. */
  lemma LoadKeepsInv<K(!new)>(s: State<K>, op: Op<K, nat>, t: nat, key: K, now: int)
    requires Inv(s) && t < |s.threads| && RoleOf(s.threads[t]).Outside?
    requires op == UnsetValue(key) || (op == Create(key, NOCLOCK) && !Has(s.items, key))
    ensures Inv(Go(Do(s, op), t, Loading(key, now)))
  {
    hide Owned; hide Attended; hide Shaped; hide Fitting; hide Live; hide Apply; hide Lookup;
    var s1, p := Do(s, op), Loading(key, now);
    DoNothingGiven(s, op);
    StepKeepsShape(Cfg(s), s.items, op);
    forall k ensures Lookup(s1.items, k) == Some(None) ==> Lookup(s.items, k) == Some(None) || k == key
             ensures forall v :: Lookup(s1.items, k) == Some(Some(v)) ==> Lookup(s.items, k) == Some(Some(v))
    {
      if op.UnsetValue? {
        AfterUnset(Cfg(s), s.items, key, k);
      } else {
        AfterCreate(Cfg(s), s.items, key, NOCLOCK, k);
      }
    }
    RolesGo(s.threads, t, p);
    QuietStep(s.items, Roles(s.threads), s1.items, t, RoleOf(p));
    FitsGo(s, Go(s1, t, p), s.threads, t, p);
  }

  lemma ProceedKeepsInv<K(!new)>(s: State<K>, t: nat, key: K, now: int)
    requires Inv(s) && t < |s.threads| && RoleOf(s.threads[t]).Outside?
    ensures Inv(Proceed(s, t, key, now))
  {
    hide Attended; hide Shaped; hide Lookup; hide Live;
    match Lookup(s.items, key)
    case None => MoveOn(s, t, Failed);
    case Some(None) => MoveOn(s, t, Waiting(key, now));
    case Some(Some(v)) =>
      LiveHas(s.items, key, v);
      assert IsOf(s.heap, v, key) && Alive(s.heap, v);
      if s.heap.records[v].expires < now {
        LoadKeepsInv(s, UnsetValue(key), t, key, now);
      } else {
        MoveOn(s, t, Answered(key, now, v));
      }
  }

  lemma GiveUpKeepsInv<K(!new)>(s: State<K>, t: nat)
    requires Inv(s) && t < |s.threads| && s.threads[t].Loaded? && s.threads[t].text.None?
    ensures Inv(Step(s, Publish(t)))
  {
    hide Owned; hide Attended; hide Shaped; hide Fitting; hide Live; hide Lookup; hide Apply;
    var key, p := s.threads[t].key, Failed;
    var s1 := Do(s, Create(key, NOCLOCK));
    var s2 := Do(s1, FlushEntry(key));
    DoNothingGiven(s, Create(key, NOCLOCK));
    DoNothingGiven(s1, FlushEntry(key));
    StepKeepsShape(Cfg(s), s.items, Create(key, NOCLOCK));
    StepKeepsShape(Cfg(s), s1.items, FlushEntry(key));
    forall k ensures k == key ==> Lookup(s2.items, k) == None
             ensures k != key ==> Lookup(s2.items, k) == Lookup(s.items, k)
    {
      AfterCreate(Cfg(s), s.items, key, NOCLOCK, k);
      AfterFlushEntry(Cfg(s), s1.items, key, k);
    }
    RolesPublish(s.threads, t, p);
    var s' := Go(s2.(threads := Broadcast(s2.threads)), t, p);
    PublishStep(s.items, Roles(s.threads), s2.items, Roles(s'.threads), t);
    FitsGo(s, s', Broadcast(s.threads), t, p);
  }

  lemma AddRecord<K>(h: Heap<K>, cached: multiset<nat>, record: Record<K>)
    requires Owned(h, cached) && !record.freed
    ensures var h' := h.(records := h.records + [record]);
            Owned(h', cached + multiset([|h.records|])) && Extends(h, h')
  {
  }

  lemma StoreKeepsInv<K(!new)>(s: State<K>, t: nat)
    requires Inv(s) && t < |s.threads| && s.threads[t].Loaded? && s.threads[t].text.Some?
    ensures Inv(Step(s, Publish(t)))
  {
    hide Owned; hide Attended; hide Shaped; hide Live; hide Lookup; hide Apply; hide Fitting;
    var was := s.threads[t];
    var key := was.key;
    var s1 := Do(s, Create(key, NOCLOCK));
    var s2 := Do(s1, UnsetValue(key));
    var v := |s2.heap.records|;
    var record := Record(key, was.text.value, was.now + s.ttl, false);
    var s2' := s2.(heap := s2.heap.(records := s2.heap.records + [record]));
    var op := SetValue(key, v, 1);
    var s3 := Do(s2', op);
    var p := Answered(key, was.now, v);
    DoNothingGiven(s, Create(key, NOCLOCK));
    DoNothingGiven(s1, UnsetValue(key));
    StepKeepsShape(Cfg(s), s.items, Create(key, NOCLOCK));
    StepKeepsShape(Cfg(s), s1.items, UnsetValue(key));
    StepKeepsShape(Cfg(s), s2.items, op);
    CreatedThenUnset(Cfg(s), s.items, key);
    AddRecord(s2.heap, Cached(s2), record);
    assert Given(s2'.items, op) == [v];
    DoOwned(s2', op);
    forall k ensures k == key ==> Lookup(s3.items, k) == Some(Some(v))
             ensures k != key ==> Lookup(s3.items, k) == None || Lookup(s3.items, k) == Lookup(s.items, k)
    {
      AfterCreate(Cfg(s), s.items, key, NOCLOCK, k);
      AfterUnset(Cfg(s), s1.items, key, k);
      AfterSet(Cfg(s), s2.items, key, v, 1, k);
    }
    assert IsOf(s3.heap, v, key) && s3.heap.records[v].expires == was.now + s.ttl;
    RolesPublish(s.threads, t, p);
    var s' := Go(s3.(threads := Broadcast(s3.threads)), t, p);
    assert s' == Step(s, Publish(t));
    PublishStep(s.items, Roles(s.threads), s3.items, Roles(s'.threads), t);
    FitsGo(s, s', Broadcast(s.threads), t, p);
  }

  lemma CreatedThenUnset<K, V>(cfg: Config, s: seq<Item<K, V>>, key: K)
    requires Shaped(s)
    ensures var s1 := Apply(cfg, s, Create(key, NOCLOCK)).items;
            Shaped(s1) && Has(s1, key) && Has(Apply(cfg, s1, UnsetValue(key)).items, key)
  {
    AfterCreate(cfg, s, key, NOCLOCK, key);
    StepKeepsShape(cfg, s, Create(key, NOCLOCK));
    AfterUnset(cfg, Apply(cfg, s, Create(key, NOCLOCK)).items, key, key);
  }

  lemma StepKeepsInv<K(!new)>(s: State<K>, a: Action<K>)
    requires Inv(s)
    ensures Inv(Step(s, a))
  {
    hide Owned; hide Attended; hide Shaped; hide Fitting; hide Live; hide Lookup; hide Apply;
    match a
    case Begin(t, key, now) =>
      if t < |s.threads| && AtRest(s.threads[t]) {
        if Has(s.items, key) {
          DoQuietly(s, Create(key, NOCLOCK));
          ProceedKeepsInv(Do(s, Create(key, NOCLOCK)), t, key, now);
        } else {
          LoadKeepsInv(s, Create(key, NOCLOCK), t, key, now);
        }
      }
    case WakeUp(t) =>
      if t < |s.threads| && s.threads[t].Waiting? {
        MoveOn(s, t, Awake(s.threads[t].key, s.threads[t].now));
      }
    case Resume(t) =>
      if t < |s.threads| && s.threads[t].Awake? {
        DoQuietly(s, Find(s.threads[t].key, NOCLOCK));
        ProceedKeepsInv(Do(s, Find(s.threads[t].key, NOCLOCK)), t, s.threads[t].key, s.threads[t].now);
      }
    case Resolve(t, text) =>
      if t < |s.threads| && s.threads[t].Loading? {
        MoveOn(s, t, Loaded(s.threads[t].key, s.threads[t].now, text));
      }
    case Publish(t) =>
      if t < |s.threads| && s.threads[t].Loaded? {
        if s.threads[t].text.None? { GiveUpKeepsInv(s, t); } else { StoreKeepsInv(s, t); }
      }
    case FlushKey(key) => DoQuietly(s, FlushEntry(key));
    case FlushAll => DoQuietly(s, Flush);
  }

  lemma {:induction false} RunKeepsInv<K(!new)>(maxSize: nat, ttl: nat, nthreads: nat, actions: seq<Action<K>>)
    ensures Inv(Reached(Init<K>(maxSize, ttl, nthreads), actions))
  {
    if actions == [] {
      assert Live(Init<K>(maxSize, ttl, nthreads).items) == [];
    } else {
      hide Inv; hide Step; hide Init;
      var p := actions[..|actions| - 1];
      RunKeepsInv(maxSize, ttl, nthreads, p);
      StepKeepsInv(Reached(Init<K>(maxSize, ttl, nthreads), p), actions[|actions| - 1]);
    }
  }

  // ----- the theorems -----

  ghost predicate IsLoaderOf<K>(p: Phase<K>, key: K) {
    (p.Loading? || p.Loaded?) && p.key == key
  }

  /** In every interleaving, a key whose entry is NULL and a key some thread is blocked on
      have a thread still resolving them, which will broadcast when it publishes. */
  lemma NoLostWakeUp<K(!new)>(maxSize: nat, ttl: nat, nthreads: nat, actions: seq<Action<K>>, key: K)
    ensures var s := Reached(Init<K>(maxSize, ttl, nthreads), actions);
            (Lookup(s.items, key) == Some(None)
             || exists t :: 0 <= t < |s.threads| && s.threads[t].Waiting? && s.threads[t].key == key)
            ==> exists u :: 0 <= u < |s.threads| && IsLoaderOf(s.threads[u], key)
  {
    var s := Reached(Init<K>(maxSize, ttl, nthreads), actions);
    RunKeepsInv(maxSize, ttl, nthreads, actions);
    var roles := Roles(s.threads);
    if exists t :: 0 <= t < |s.threads| && s.threads[t].Waiting? && s.threads[t].key == key {
      var t :| 0 <= t < |s.threads| && s.threads[t].Waiting? && s.threads[t].key == key;
      assert roles[t].Blocked? && roles[t].key == key;
    }
    if Loads(roles, key) {
      var u :| 0 <= u < |roles| && roles[u] == Loader(key);
      assert IsLoaderOf(s.threads[u], key);
    }
  }

  /** No record is read or freed after it has been freed, none leaks (an uncached record is
      a freed one), and every answer is a record resolved for the name that was asked, not
      expired when the asking began. */
  lemma AnswersAreCurrent<K(!new)>(maxSize: nat, ttl: nat, nthreads: nat, actions: seq<Action<K>>)
    ensures var s := Reached(Init<K>(maxSize, ttl, nthreads), actions);
            && !s.heap.fault
            && (forall v: nat :: v < |s.heap.records| ==> Cached(s)[v] == if s.heap.records[v].freed then 0 else 1)
            && (forall t :: 0 <= t < |s.threads| && s.threads[t].Answered? ==>
                  && s.threads[t].record < |s.heap.records|
                  && s.heap.records[s.threads[t].record].key == s.threads[t].key
                  && s.threads[t].now <= s.heap.records[s.threads[t].record].expires)
  {
    var s := Reached(Init<K>(maxSize, ttl, nthreads), actions);
    RunKeepsInv(maxSize, ttl, nthreads, actions);
    forall t | 0 <= t < |s.threads| && s.threads[t].Answered?
      ensures IsOf(s.heap, s.threads[t].record, s.threads[t].key)
      ensures s.threads[t].now <= s.heap.records[s.threads[t].record].expires
    {
      assert PhaseFits(s.heap, s.threads[t]);
    }
  }
}
