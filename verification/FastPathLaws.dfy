/** Safety of the file cache over every run of any number of threads. */
module FastPathLaws {
  import opened Common
  import opened CacheSpec
  import opened CacheLaws
  import opened CacheLookup
  import opened SingleFlight
  import opened FastPath

  // ----- references -----

  lemma {:induction false} RefsUpdate<K>(threads: seq<Phase<K>>, t: nat, p: Phase<K>)
    requires t < |threads|
    ensures Refs(threads[t := p]) + Ref(threads[t]) == Refs(threads) + Ref(p)
  {
    hide Ref;
    var n := |threads| - 1;
    if t == n {
      assert threads[t := p][..n] == threads[..n];
    } else {
      assert threads[t := p][..n] == threads[..n][t := p];
      RefsUpdate(threads[..n], t, p);
      AddBoth(Refs(threads[..n][t := p]), Ref(threads[t]), Refs(threads[..n]), Ref(p), Ref(threads[n]));
    }
  }

  lemma AddBoth(a: multiset<nat>, b: multiset<nat>, c: multiset<nat>, d: multiset<nat>, x: multiset<nat>)
    requires a + b == c + d
    ensures (a + x) + b == (c + x) + d
  {
    assert (a + x) + b == (a + b) + x;
  }

  lemma {:induction false} RefsBroadcast<K>(threads: seq<Phase<K>>)
    ensures Refs(Broadcast(threads)) == Refs(threads)
  {
    if threads != [] {
      var n := |threads| - 1;
      assert Broadcast(threads)[..n] == Broadcast(threads[..n]);
      RefsBroadcast(threads[..n]);
    }
  }

  lemma {:induction false} RefsHas<K>(threads: seq<Phase<K>>, t: nat)
    requires t < |threads|
    ensures Ref(threads[t]) <= Refs(threads)
  {
    var n := |threads| - 1;
    if t < n {
      RefsHas(threads[..n], t);
    }
  }

  lemma LiveHas<K>(s: seq<Item<K, nat>>, key: K, f: nat)
    requires Lookup(s, key) == Some(Some(f))
    ensures f in multiset(Live(s))
  {
    AtIndex(s, IndexOf(s, key));
    assert Held(s[IndexOf(s, key)])[0] == f;
  }

  // ----- the heap -----

  /** Files are only ever added, and keep the identity they were read with. */
  ghost predicate Extends<K>(h: Heap<K>, h': Heap<K>) {
    && |h.files| <= |h'.files|
    && forall f :: 0 <= f < |h.files| ==>
         && h'.files[f].key == h.files[f].key && h'.files[f].mtime == h.files[f].mtime
         && h'.files[f].size == h.files[f].size
  }

  lemma DecrCounts<K>(h: Heap<K>, holders: multiset<nat>, f: nat)
    requires Counted(h, holders) && f in holders
    ensures Counted(Decr(h, f), holders - multiset{f}) && Extends(h, Decr(h, f))
  {
  }

  lemma IncrCounts<K>(h: Heap<K>, holders: multiset<nat>, f: nat)
    requires Counted(h, holders) && f in holders
    ensures Counted(Incr(h, f), holders + multiset{f}) && Extends(h, Incr(h, f))
  {
  }

  /** Dropping references that are held neither touches a freed File nor miscounts. */
  lemma {:induction false} DecrAllCounts<K>(h: Heap<K>, holders: multiset<nat>, fs: seq<nat>)
    requires Counted(h, holders) && multiset(fs) <= holders
    ensures Counted(DecrAll(h, fs), holders - multiset(fs)) && Extends(h, DecrAll(h, fs))
  {
    if fs == [] {
      assert holders - multiset(fs) == holders;
    } else {
      var p, f := fs[..|fs| - 1], fs[|fs| - 1];
      assert fs == p + [f];
      assert multiset(fs) == multiset(p) + multiset{f};
      DecrAllCounts(h, holders, p);
      DecrCounts(DecrAll(h, p), holders - multiset(p), f);
      assert holders - multiset(p) - multiset{f} == holders - multiset(fs);
    }
  }

  /** A call that stores nothing keeps the count exact. */
  lemma DoCounts<K>(s: State<K>, op: Op<K, nat>)
    requires Counted(s.heap, Holders(s)) && Given(s.items, op) == []
    ensures Counted(Do(s, op).heap, Holders(Do(s, op))) && Extends(s.heap, Do(s, op).heap)
  {
    var r := Apply(Cfg(s), s.items, op);
    StepConserves(Cfg(s), s.items, op);
    Subtract(multiset(Live(s.items)), Refs(s.threads), multiset(Live(r.items)), r.freed);
    DecrAllCounts(s.heap, Holders(s), r.freed);
  }

  lemma Subtract(live: multiset<nat>, refs: multiset<nat>, live': multiset<nat>, freed: seq<nat>)
    requires live + multiset([]) == live' + multiset(freed)
    ensures multiset(freed) <= live + refs && live + refs - multiset(freed) == live' + refs
  {
    assert live == live' + multiset(freed);
  }

  lemma GoCounts<K>(s: State<K>, t: nat, p: Phase<K>, holders: multiset<nat>)
    requires t < |s.threads| && Counted(s.heap, holders)
    requires holders + Ref(s.threads[t]) == Holders(s) + Ref(p)
    ensures Counted(Go(s, t, p).heap, Holders(Go(s, t, p)))
  {
    RefsUpdate(s.threads, t, p);
    Balance(multiset(Live(s.items)), Refs(s.threads), Refs(s.threads[t := p]), Ref(s.threads[t]), Ref(p), holders);
  }

  lemma Balance(live: multiset<nat>, refs: multiset<nat>, refs': multiset<nat>, was: multiset<nat>,
                becomes: multiset<nat>, holders: multiset<nat>)
    requires refs' + was == refs + becomes
    requires holders + was == live + refs + becomes
    ensures holders == live + refs'
  {
    assert holders == holders + was - was;
    assert live + refs' == live + refs' + was - was;
    assert live + refs' + was == live + (refs' + was);
  }

  // ----- waiting and loading -----

  lemma RolesGo<K>(threads: seq<Phase<K>>, t: nat, p: Phase<K>)
    requires t < |threads|
    ensures Roles(threads[t := p]) == Roles(threads)[t := RoleOf(p)]
  {
  }

  // ----- files and the requests they serve -----

  lemma FitsGo<K(!new)>(s: State<K>, s': State<K>, t: nat, p: Phase<K>)
    requires Fitting(s) && t < |s.threads| && s'.threads == s.threads[t := p]
    requires Extends(s.heap, s'.heap) && PhaseFits(s'.heap, p)
    requires forall k, f :: Lookup(s'.items, k) == Some(Some(f)) ==>
               Lookup(s.items, k) == Some(Some(f)) || IsOf(s'.heap, f, k)
    ensures Fitting(s')
  {
    forall k, f | Lookup(s'.items, k) == Some(Some(f)) ensures IsOf(s'.heap, f, k) {
      if Lookup(s.items, k) == Some(Some(f)) {
        assert IsOf(s.heap, f, k);
      }
    }
    forall u | 0 <= u < |s'.threads| ensures PhaseFits(s'.heap, s'.threads[u]) {
      if u != t {
        assert PhaseFits(s.heap, s.threads[u]);
      }
    }
  }

  lemma FitsBroadcast<K(!new)>(s: State<K>, s': State<K>, t: nat, p: Phase<K>)
    requires Fitting(s) && t < |s.threads| && s'.threads == Broadcast(s.threads)[t := p]
    requires Extends(s.heap, s'.heap) && PhaseFits(s'.heap, p)
    requires forall k, f :: Lookup(s'.items, k) == Some(Some(f)) ==>
               Lookup(s.items, k) == Some(Some(f)) || IsOf(s'.heap, f, k)
    ensures Fitting(s')
  {
    var b := s.(threads := Broadcast(s.threads));
    forall u | 0 <= u < |b.threads| ensures PhaseFits(b.heap, b.threads[u]) {
      assert PhaseFits(s.heap, s.threads[u]);
    }
    FitsGo(b, s', t, p);
  }

  lemma NothingAfterFlush<K, V>(cfg: Config, s: seq<Item<K, V>>, k: K)
    ensures Lookup(Apply(cfg, s, Flush).items, k) == None
  {
  }

  // ----- every step keeps the invariant -----

  /** A cache call that stores nothing and adds no NULL entry. */
  lemma DoQuietly<K(!new)>(s: State<K>, op: Op<K, nat>)
    requires Inv(s)
    requires op.Find? || op.FlushEntry? || op.Flush? || (op.Create? && Has(s.items, op.key))
    ensures Inv(Do(s, op)) && Do(s, op).threads == s.threads
  {
    hide Counted; hide Shaped; hide Attended; hide Refs; hide Live; hide Apply; hide Lookup;
    var s' := Do(s, op);
    DoCounts(s, op);
    StepKeepsShape(Cfg(s), s.items, op);
    forall k ensures Lookup(s'.items, k) == None || Lookup(s'.items, k) == Lookup(s.items, k) {
      match op
      case Find(key, now) => AfterFind(Cfg(s), s.items, key, now, k);
      case Create(key, now) => AfterCreate(Cfg(s), s.items, key, now, k);
      case Flush => NothingAfterFlush(Cfg(s), s.items, k);
      case FlushEntry(key) => AfterFlushEntry(Cfg(s), s.items, key, k);
      case _ =>
    }
    FlushStep(s.items, Roles(s.threads), s'.items);
    forall t | 0 <= t < |s.threads| ensures PhaseFits(s'.heap, s'.threads[t]) {
      assert PhaseFits(s.heap, s.threads[t]);
    }
    forall k, f | Lookup(s'.items, k) == Some(Some(f)) ensures IsOf(s'.heap, f, k) {
      assert IsOf(s.heap, f, k);
    }
  }

  /** A thread moves on without touching cache or heap. */
  lemma MoveOn<K(!new)>(s: State<K>, t: nat, p: Phase<K>)
    requires Inv(s) && t < |s.threads| && Ref(p) == Ref(s.threads[t]) && PhaseFits(s.heap, p)
    requires RoleOf(s.threads[t]).Loader? ==> RoleOf(p) == RoleOf(s.threads[t])
    requires RoleOf(p).Blocked? ==> Lookup(s.items, RoleOf(p).key) == Some(None) && RoleOf(s.threads[t]).Outside?
    ensures Inv(Go(s, t, p))
  {
    GoCounts(s, t, p, Holders(s));
    RolesGo(s.threads, t, p);
    QuietStep(s.items, Roles(s.threads), s.items, t, RoleOf(p));
    FitsGo(s, Go(s, t, p), t, p);
  }

  /** A stale value is dropped and the thread becomes a loader. */
  lemma ReloadKeepsInv<K(!new)>(s: State<K>, t: nat, key: K, stat: Stat)
    requires Inv(s) && t < |s.threads| && RoleOf(s.threads[t]).Outside? && Ref(s.threads[t]) == multiset{}
    ensures Inv(Go(Do(s, UnsetValue(key)), t, Loading(key, stat)))
  {
    hide Counted; hide Attended; hide Shaped; hide Fitting; hide Refs; hide Live; hide Apply; hide Lookup;
    var op: Op<K, nat> := UnsetValue(key);
    var s1 := Do(s, op);
    var p := Loading(key, stat);
    DoCounts(s, op);
    StepKeepsShape(Cfg(s), s.items, op);
    GoCounts(s1, t, p, Holders(s1));
    forall k ensures Lookup(s1.items, k) == Some(None) ==> Lookup(s.items, k) == Some(None) || k == key
             ensures forall f :: Lookup(s1.items, k) == Some(Some(f)) ==> Lookup(s.items, k) == Some(Some(f))
    {
      AfterUnset(Cfg(s), s.items, key, k);
    }
    RolesGo(s.threads, t, p);
    QuietStep(s.items, Roles(s.threads), s1.items, t, RoleOf(p));
    FitsGo(s, Go(s1, t, p), t, p);
  }

  /** A fresh value is used: the thread takes a reference before it leaves the lock. */
  lemma HitKeepsInv<K(!new)>(s: State<K>, t: nat, key: K, stat: Stat, f: nat)
    requires Inv(s) && t < |s.threads| && RoleOf(s.threads[t]).Outside? && Ref(s.threads[t]) == multiset{}
    requires Lookup(s.items, key) == Some(Some(f)) && Matches(s.heap, f, key, stat)
    ensures Inv(Go(s.(heap := Incr(s.heap, f)), t, Sending(key, stat, f)))
  {
    hide Counted; hide Attended; hide Shaped; hide Lookup; hide Fitting; hide Refs; hide Live;
    var p := Sending(key, stat, f);
    var s1 := s.(heap := Incr(s.heap, f));
    LiveHas(s.items, key, f);
    IncrCounts(s.heap, Holders(s), f);
    GoCounts(s1, t, p, Holders(s) + multiset{f});
    RolesGo(s.threads, t, p);
    QuietStep(s.items, Roles(s.threads), s.items, t, RoleOf(p));
    FitsGo(s, Go(s1, t, p), t, p);
  }

  lemma ProceedKeepsInv<K(!new)>(s: State<K>, t: nat, key: K, stat: Stat)
    requires Inv(s) && t < |s.threads| && RoleOf(s.threads[t]).Outside? && Ref(s.threads[t]) == multiset{}
    ensures Inv(Proceed(s, t, key, stat))
  {
    hide Attended; hide Shaped; hide Lookup; hide Refs; hide Live;
    match Lookup(s.items, key)
    case None => MoveOn(s, t, Finished(false));
    case Some(None) => MoveOn(s, t, Waiting(key, stat));
    case Some(Some(f)) =>
      LiveHas(s.items, key, f);
      assert IsOf(s.heap, f, key) && Alive(s.heap, f);
      if s.heap.files[f].mtime != stat.mtime || s.heap.files[f].size != stat.size {
        ReloadKeepsInv(s, t, key, stat);
      } else {
        HitKeepsInv(s, t, key, stat, f);
      }
  }

  /** An absent key: its NULL entry and its loader appear together. */
  lemma MissKeepsInv<K(!new)>(s: State<K>, t: nat, key: K, stat: Stat)
    requires Inv(s) && t < |s.threads| && RoleOf(s.threads[t]).Outside? && Ref(s.threads[t]) == multiset{}
    requires !Has(s.items, key)
    ensures Inv(Go(Do(s, Create(key, NOW)), t, Loading(key, stat)))
  {
    hide Counted; hide Attended; hide Shaped; hide Fitting; hide Refs; hide Live; hide Apply; hide Lookup;
    var op: Op<K, nat> := Create(key, NOW);
    var s1 := Do(s, op);
    var p := Loading(key, stat);
    DoCounts(s, op);
    StepKeepsShape(Cfg(s), s.items, op);
    GoCounts(s1, t, p, Holders(s1));
    forall k ensures Lookup(s1.items, k) == Some(None) ==> Lookup(s.items, k) == Some(None) || k == key
             ensures forall f :: Lookup(s1.items, k) == Some(Some(f)) ==> Lookup(s.items, k) == Some(Some(f))
    {
      AfterCreate(Cfg(s), s.items, key, NOW, k);
    }
    RolesGo(s.threads, t, p);
    QuietStep(s.items, Roles(s.threads), s1.items, t, RoleOf(p));
    FitsGo(s, Go(s1, t, p), t, p);
  }

  lemma AddFile<K>(h: Heap<K>, holders: multiset<nat>, file: File<K>)
    requires Counted(h, holders) && file.refcnt == 1 && !file.freed
    ensures var h' := h.(files := h.files + [file]);
            Counted(h', holders + multiset{|h.files|}) && Extends(h, h')
  {
  }

  lemma ReadKeepsInv<K(!new)>(s: State<K>, t: nat, ok: bool)
    requires Inv(s)
    ensures Inv(Step(s, Read(t, ok)))
  {
    if t < |s.threads| && s.threads[t].Loading? {
      hide Counted; hide Attended; hide Shaped; hide Fitting; hide Refs; hide Live; hide Lookup;
      var was := s.threads[t];
      if !ok {
        MoveOn(s, t, Loaded(was.key, was.stat, None));
      } else {
        var n := |s.heap.files|;
        var file := File(was.key, was.stat.mtime, was.stat.size, 1, false);
        var s1 := s.(heap := s.heap.(files := s.heap.files + [file]));
        var p := Loaded(was.key, was.stat, Some(n));
        AddFile(s.heap, Holders(s), file);
        GoCounts(s1, t, p, Holders(s) + multiset{n});
        RolesGo(s.threads, t, p);
        QuietStep(s.items, Roles(s.threads), s.items, t, RoleOf(p));
        FitsGo(s, Go(s1, t, p), t, p);
      }
    }
  }

  lemma WithAndWithout(m: multiset<nat>, f: nat)
    requires f in m
    ensures (m - multiset{f}) + multiset{f} == m + multiset{}
  {
  }

  /** A thread that has sent its File holds it no longer. */
  lemma SentCounts<K>(s: State<K>, t: nat)
    requires Counted(s.heap, Holders(s)) && t < |s.threads| && s.threads[t].Sending?
    ensures var f := s.threads[t].sent;
            var s' := Go(s.(heap := Decr(s.heap, f)), t, Finished(true));
            Counted(s'.heap, Holders(s')) && Extends(s.heap, s'.heap)
  {
    hide Counted; hide Refs; hide Live;
    var f := s.threads[t].sent;
    RefsHas(s.threads, t);
    assert f in Holders(s);
    DecrCounts(s.heap, Holders(s), f);
    WithAndWithout(Holders(s), f);
    GoCounts(s.(heap := Decr(s.heap, f)), t, Finished(true), Holders(s) - multiset{f});
  }

  lemma SentKeepsInv<K(!new)>(s: State<K>, t: nat)
    requires Inv(s)
    ensures Inv(Step(s, Sent(t)))
  {
    hide Counted; hide Attended; hide Shaped; hide Fitting; hide Refs; hide Live; hide Lookup; hide Holders;
    if t < |s.threads| && s.threads[t].Sending? {
      var f := s.threads[t].sent;
      var s1 := s.(heap := Decr(s.heap, f));
      var p := Finished(true);
      SentCounts(s, t);
      RolesGo(s.threads, t, p);
      QuietStep(s.items, Roles(s.threads), s.items, t, RoleOf(p));
      FitsGo(s, Go(s1, t, p), t, p);
    }
  }

  /** Publishing: the loader's own reference becomes the cache's, then it takes another. */
  lemma SetCounts<K>(s: State<K>, key: K, f: nat, size: nat)
    requires Counted(s.heap, Holders(s)) && f in Refs(s.threads) && Has(s.items, key) && Shaped(s.items)
    ensures var s' := Do(s, SetValue(key, f, size));
            Counted(Incr(s'.heap, f), Holders(s')) && Extends(s.heap, Incr(s'.heap, f))
  {
    hide Counted; hide Shaped; hide Refs; hide Live; hide Apply; hide Lookup;
    var op := SetValue(key, f, size);
    var r := Apply(Cfg(s), s.items, op);
    StepConserves(Cfg(s), s.items, op);
    AfterSet(Cfg(s), s.items, key, f, size, key);
    LiveHas(r.items, key, f);
    Exchange(multiset(Live(s.items)), Refs(s.threads), multiset(Live(r.items)), r.freed, f);
    DecrAllCounts(s.heap, Holders(s), r.freed);
    IncrCounts(DecrAll(s.heap, r.freed), Holders(s) - multiset(r.freed), f);
  }

  lemma Exchange(live: multiset<nat>, refs: multiset<nat>, live': multiset<nat>, freed: seq<nat>, f: nat)
    requires live + multiset([f]) == live' + multiset(freed) && f in refs && f in live'
    ensures multiset(freed) <= live + refs && f in live + refs - multiset(freed)
    ensures live + refs - multiset(freed) + multiset{f} == live' + refs
  {
    forall g ensures multiset(freed)[g] <= (live + refs)[g] {
      assert (live + multiset([f]))[g] == (live' + multiset(freed))[g];
    }
    forall g ensures (live + refs - multiset(freed) + multiset{f})[g] == (live' + refs)[g] {
      assert (live + multiset([f]))[g] == (live' + multiset(freed))[g];
    }
    assert (live + multiset([f]))[f] == (live' + multiset(freed))[f];
  }

  lemma RolesPublish<K>(threads: seq<Phase<K>>, t: nat, p: Phase<K>)
    requires t < |threads| && RoleOf(p).Outside?
    ensures var roles, roles' := Roles(threads), Roles(Broadcast(threads)[t := p]);
            && |roles'| == |roles| && roles'[t] == Outside
            && forall u :: 0 <= u < |roles| && u != t ==>
                 roles'[u] == if roles[u].Blocked? then Outside else roles[u]
  {
  }

  lemma PublishCounts<K>(s: State<K>, t: nat, p: Phase<K>)
    requires t < |s.threads| && s.threads[t].Loaded? && Ref(p) == Ref(s.threads[t])
    requires Counted(s.heap, Holders(s))
    ensures var s' := Go(s.(threads := Broadcast(s.threads)), t, p);
            Counted(s'.heap, Holders(s'))
  {
    hide Counted; hide Refs; hide Live;
    RefsBroadcast(s.threads);
    GoCounts(s.(threads := Broadcast(s.threads)), t, p, Holders(s));
  }

  lemma GiveUpKeepsInv<K(!new)>(s: State<K>, t: nat)
    requires Inv(s) && t < |s.threads| && s.threads[t].Loaded? && s.threads[t].file.None?
    ensures Inv(Step(s, Publish(t)))
  {
    hide Counted; hide Attended; hide Shaped; hide Fitting; hide Refs; hide Live; hide Lookup; hide Apply;
    var key, p := s.threads[t].key, Finished(false);
    var s1 := Do(s, Create(key, NOW));
    var s2 := Do(s1, FlushEntry(key));
    DoCounts(s, Create(key, NOW));
    DoCounts(s1, FlushEntry(key));
    StepKeepsShape(Cfg(s), s.items, Create(key, NOW));
    StepKeepsShape(Cfg(s), s1.items, FlushEntry(key));
    forall k ensures k == key ==> Lookup(s2.items, k) == None
             ensures k != key ==> Lookup(s2.items, k) == Lookup(s.items, k)
    {
      AfterCreate(Cfg(s), s.items, key, NOW, k);
      AfterFlushEntry(Cfg(s), s1.items, key, k);
    }
    PublishCounts(s2, t, p);
    RolesPublish(s.threads, t, p);
    var s' := Go(s2.(threads := Broadcast(s2.threads)), t, p);
    PublishStep(s.items, Roles(s.threads), s2.items, Roles(s'.threads), t);
    FitsBroadcast(s, s', t, p);
  }

  lemma StoreKeepsInv<K(!new)>(s: State<K>, t: nat)
    requires Inv(s) && t < |s.threads| && s.threads[t].Loaded? && s.threads[t].file.Some?
    ensures Inv(Step(s, Publish(t)))
  {
    hide Counted; hide Attended; hide Shaped; hide Refs; hide Live; hide Lookup; hide Apply;
    var was := s.threads[t];
    var key, f, size := was.key, was.file.value, was.stat.size;
    var p := Sending(key, was.stat, f);
    var s1 := Do(s, Create(key, NOW));
    var s2 := Do(s1, SetValue(key, f, size));
    var s3 := s2.(heap := Incr(s2.heap, f));
    assert PhaseFits(s.heap, was);
    hide Fitting;
    DoCounts(s, Create(key, NOW));
    StepKeepsShape(Cfg(s), s.items, Create(key, NOW));
    StepKeepsShape(Cfg(s), s1.items, SetValue(key, f, size));
    CreateEnters(Cfg(s), s.items, key);
    RefsHas(s.threads, t);
    assert f in Ref(was);
    SetCounts(s1, key, f, size);
    forall k ensures k == key ==> Lookup(s2.items, k) == Some(Some(f))
             ensures k != key ==> Lookup(s2.items, k) == None || Lookup(s2.items, k) == Lookup(s.items, k)
    {
      AfterCreate(Cfg(s), s.items, key, NOW, k);
      AfterSet(Cfg(s), s1.items, key, f, size, k);
    }
    PublishCounts(s3, t, p);
    RolesPublish(s.threads, t, p);
    var s' := Go(s3.(threads := Broadcast(s3.threads)), t, p);
    assert s' == Step(s, Publish(t));
    PublishStep(s.items, Roles(s.threads), s2.items, Roles(s'.threads), t);
    FitsBroadcast(s, s', t, p);
  }

  lemma CreateEnters<K, V>(cfg: Config, s: seq<Item<K, V>>, key: K)
    requires Shaped(s)
    ensures Has(Apply(cfg, s, Create(key, NOW)).items, key)
  {
    AfterCreate(cfg, s, key, NOW, key);
  }

  lemma StepKeepsInv<K(!new)>(s: State<K>, a: Action<K>)
    requires Inv(s)
    ensures Inv(Step(s, a))
  {
    hide Counted; hide Attended; hide Shaped; hide Fitting; hide Refs; hide Live; hide Lookup; hide Apply;
    match a
    case Begin(t, key, stat) =>
      if t < |s.threads| && (s.threads[t].Idle? || s.threads[t].Finished?) {
        if Has(s.items, key) {
          DoQuietly(s, Create(key, NOW));
          ProceedKeepsInv(Do(s, Create(key, NOW)), t, key, stat);
        } else {
          MissKeepsInv(s, t, key, stat);
        }
      }
    case WakeUp(t) =>
      if t < |s.threads| && s.threads[t].Waiting? {
        MoveOn(s, t, Awake(s.threads[t].key, s.threads[t].stat));
      }
    case Resume(t) =>
      if t < |s.threads| && s.threads[t].Awake? {
        DoQuietly(s, Find(s.threads[t].key, NOW));
        ProceedKeepsInv(Do(s, Find(s.threads[t].key, NOW)), t, s.threads[t].key, s.threads[t].stat);
      }
    case Read(t, ok) => ReadKeepsInv(s, t, ok);
    case Publish(t) =>
      if t < |s.threads| && s.threads[t].Loaded? {
        if s.threads[t].file.None? { GiveUpKeepsInv(s, t); } else { StoreKeepsInv(s, t); }
      }
    case Sent(t) => SentKeepsInv(s, t);
    case FlushKey(key) => DoQuietly(s, FlushEntry(key));
    case FlushAll => DoQuietly(s, Flush);
  }

  lemma {:induction false} InitIsInv<K(!new)>(maxSize: nat, nthreads: nat)
    ensures Inv(Init<K>(maxSize, nthreads))
  {
    var s := Init<K>(maxSize, nthreads);
    NoRefs<K>(nthreads);
    assert Live(s.items) == [];
  }

  lemma {:induction false} NoRefs<K>(n: nat)
    ensures Refs(seq(n, i => Phase<K>.Idle)) == multiset{}
  {
    if n > 0 {
      assert seq(n, i => Phase<K>.Idle)[..n - 1] == seq(n - 1, i => Phase<K>.Idle);
      NoRefs<K>(n - 1);
    }
  }

  lemma {:induction false} RunKeepsInv<K(!new)>(maxSize: nat, nthreads: nat, actions: seq<Action<K>>)
    ensures Inv(Reached(Init<K>(maxSize, nthreads), actions))
  {
    hide Inv; hide Step; hide Init;
    if actions == [] {
      InitIsInv<K>(maxSize, nthreads);
    } else {
      var p := actions[..|actions| - 1];
      RunKeepsInv(maxSize, nthreads, p);
      StepKeepsInv(Reached(Init<K>(maxSize, nthreads), p), actions[|actions| - 1]);
    }
  }

  // ----- the theorems -----

  ghost predicate IsLoaderOf<K>(p: Phase<K>, key: K) {
    (p.Loading? || p.Loaded?) && p.key == key
  }

  /** In every interleaving, a key whose entry is NULL and a key some thread is blocked on
      have a thread still loading them, which will broadcast when it publishes. */
  lemma NoLostWakeUp<K(!new)>(maxSize: nat, nthreads: nat, actions: seq<Action<K>>, key: K)
    ensures var s := Reached(Init<K>(maxSize, nthreads), actions);
            (Lookup(s.items, key) == Some(None)
             || exists t :: 0 <= t < |s.threads| && s.threads[t].Waiting? && s.threads[t].key == key)
            ==> exists u :: 0 <= u < |s.threads| && IsLoaderOf(s.threads[u], key)
  {
    var s := Reached(Init<K>(maxSize, nthreads), actions);
    RunKeepsInv(maxSize, nthreads, actions);
    var roles := Roles(s.threads);
    if exists t :: 0 <= t < |s.threads| && s.threads[t].Waiting? && s.threads[t].key == key {
      var t :| 0 <= t < |s.threads| && s.threads[t].Waiting? && s.threads[t].key == key;
      assert roles[t].Blocked? && roles[t].key == key;
    }
    if Loads(roles, key) {
      var u :| 0 <= u < |roles| && roles[u] == Loader(key);
      assert IsLoaderOf(s.threads[u], key);
    }
  }

  /** A thread that can take its next step without waiting for another thread. */
  ghost predicate CanStep<K>(p: Phase<K>) {
    !p.Waiting? && !p.Idle? && !p.Finished?
  }

  /** The protocol never deadlocks: while a request is under way, some thread can step. */
  lemma NeverDeadlocked<K(!new)>(maxSize: nat, nthreads: nat, actions: seq<Action<K>>)
    ensures var s := Reached(Init<K>(maxSize, nthreads), actions);
            (exists t :: 0 <= t < |s.threads| && !s.threads[t].Idle? && !s.threads[t].Finished?)
            ==> exists u :: 0 <= u < |s.threads| && CanStep(s.threads[u])
  {
    var s := Reached(Init<K>(maxSize, nthreads), actions);
    if t :| 0 <= t < |s.threads| && !s.threads[t].Idle? && !s.threads[t].Finished? {
      if s.threads[t].Waiting? {
        NoLostWakeUp(maxSize, nthreads, actions, s.threads[t].key);
        var u :| 0 <= u < |s.threads| && IsLoaderOf(s.threads[u], s.threads[t].key);
        assert CanStep(s.threads[u]);
      } else {
        assert CanStep(s.threads[t]);
      }
    }
  }

  ghost function Values<K>(s: seq<Item<K, nat>>): multiset<nat> {
    multiset(Live(s))
  }

  lemma {:induction false} CachedOnce<K>(s: seq<Item<K, nat>>, f: nat, key: K)
    requires Distinct(s) && forall i :: 0 <= i < |s| && s[i].value == Some(f) ==> s[i].key == key
    ensures Values(s)[f] <= 1
    ensures (forall i :: 0 <= i < |s| ==> s[i].key != key) ==> Values(s)[f] == 0
  {
    if s != [] {
      var p := s[..|s| - 1];
      CachedOnce(p, f, key);
      if s[|s| - 1].value == Some(f) {
        assert forall i :: 0 <= i < |p| ==> p[i].key != key;
      }
    }
  }

  /** In every interleaving no freed File is ever touched, and every File's reference count
      is one for the cache (while it is cached) plus one per thread loading or sending it;
      it is freed exactly when that is zero. */
  lemma ReferencesAreExact<K(!new)>(maxSize: nat, nthreads: nat, actions: seq<Action<K>>)
    ensures var s := Reached(Init<K>(maxSize, nthreads), actions);
            && !s.heap.fault
            && forall f: nat :: f < |s.heap.files| ==>
                 && Cached(s)[f] <= 1
                 && s.heap.files[f].refcnt == Cached(s)[f] + Refs(s.threads)[f]
                 && (s.heap.files[f].freed <==> s.heap.files[f].refcnt == 0)
  {
    var s := Reached(Init<K>(maxSize, nthreads), actions);
    RunKeepsInv(maxSize, nthreads, actions);
    forall f: nat | f < |s.heap.files| ensures Cached(s)[f] <= 1 {
      forall i | 0 <= i < |s.items| && s.items[i].value == Some(f)
        ensures s.items[i].key == s.heap.files[f].key
      {
        LookupAt(s.items, i);
        assert IsOf(s.heap, f, s.items[i].key);
      }
      CachedOnce(s.items, f, s.heap.files[f].key);
    }
  }

  /** Whatever a thread sends is an unfreed File, read for the key it was asked for, whose
      modification time and size are those its own stat found. */
  lemma SendsAreFresh<K(!new)>(maxSize: nat, nthreads: nat, actions: seq<Action<K>>, t: nat)
    ensures var s := Reached(Init<K>(maxSize, nthreads), actions);
            t < |s.threads| && s.threads[t].Sending? ==>
              var p := s.threads[t];
              Alive(s.heap, p.sent) && Matches(s.heap, p.sent, p.key, p.stat)
  {
    var s := Reached(Init<K>(maxSize, nthreads), actions);
    RunKeepsInv(maxSize, nthreads, actions);
    if t < |s.threads| && s.threads[t].Sending? {
      assert PhaseFits(s.heap, s.threads[t]);
      RefsHas(s.threads, t);
      assert s.threads[t].sent in Ref(s.threads[t]);
    }
  }

  /** A lookup never finds a freed File, nor one of another key. */
  lemma CachedFilesAreAlive<K(!new)>(maxSize: nat, nthreads: nat, actions: seq<Action<K>>, key: K, f: nat)
    ensures var s := Reached(Init<K>(maxSize, nthreads), actions);
            Lookup(s.items, key) == Some(Some(f)) ==> Alive(s.heap, f) && s.heap.files[f].key == key
  {
    var s := Reached(Init<K>(maxSize, nthreads), actions);
    RunKeepsInv(maxSize, nthreads, actions);
    if Lookup(s.items, key) == Some(Some(f)) {
      LiveHas(s.items, key, f);
      assert IsOf(s.heap, f, key);
    }
  }
}
