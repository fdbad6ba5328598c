/** The cached branch of FastReturn (nsd/fastpath.c) as threads interleaving their
    critical sections on one file cache, with flushes from outside. */
module FastPath {
  import opened Common
  import opened CacheSpec
  import opened CacheLaws
  import opened CacheLookup
  import opened SingleFlight

  datatype Stat = Stat(mtime: int, size: nat)

  /** A File; `key` is the file it was read from, `freed` that ns_free was called. */
  datatype File<K> = File(key: K, mtime: int, size: nat, refcnt: int, freed: bool)

  datatype Phase<K> =
    | Idle
    | Waiting(key: K, stat: Stat)                  // blocked in Ns_CacheWait
    | Awake(key: K, stat: Stat)                    // woken, about to take the lock
    | Loading(key: K, stat: Stat)                  // outside the lock, reading the file
    | Loaded(key: K, stat: Stat, file: Option<nat>)  // about to lock and publish
    | Sending(key: K, stat: Stat, sent: nat)       // outside the lock, returning data
    | Finished(found: bool)

  datatype Action<K> =
    | Begin(thread: nat, key: K, stat: Stat)
    | WakeUp(thread: nat)                          // a wait may end without a broadcast
    | Resume(thread: nat)
    | Read(thread: nat, ok: bool)
    | Publish(thread: nat)
    | Sent(thread: nat)
    | FlushKey(key: K)
    | FlushAll

  /** `fault` records that a freed File was touched. */
  datatype Heap<K> = Heap(files: seq<File<K>>, fault: bool)

  datatype State<K> = State(maxSize: nat, items: seq<Item<K, nat>>, heap: Heap<K>, threads: seq<Phase<K>>)

  /** NsFastpathCache makes a size cache, so no call reads the clock. */
  const NOW := Time(0, 0)

  ghost function Cfg<K>(s: State<K>): Config {
    Config(s.maxSize, -1)
  }

  ghost function Init<K>(maxSize: nat, nthreads: nat): State<K> {
    State(maxSize, [], Heap([], false), seq(nthreads, i => Idle))
  }

  // ----- the File heap -----

  predicate Alive<K>(h: Heap<K>, f: nat) {
    f < |h.files| && !h.files[f].freed
  }

  /** `++filePtr->refcnt`. */
  function Incr<K>(h: Heap<K>, f: nat): Heap<K> {
    if !Alive(h, f) then h.(fault := true)
    else h.(files := h.files[f := h.files[f].(refcnt := h.files[f].refcnt + 1)])
  }

  /** DecrEntry. */
  function Decr<K>(h: Heap<K>, f: nat): Heap<K> {
    if !Alive(h, f) then h.(fault := true)
    else
      var n := h.files[f].refcnt - 1;
      h.(files := h.files[f := h.files[f].(refcnt := n, freed := n == 0)])
  }

  /** The free proc of the cache is DecrEntry. */
  ghost function DecrAll<K>(h: Heap<K>, fs: seq<nat>): Heap<K> {
    if fs == [] then h else Decr(DecrAll(h, fs[..|fs| - 1]), fs[|fs| - 1])
  }

  // ----- the critical sections -----

  ghost function Do<K>(s: State<K>, op: Op<K, nat>): State<K> {
    var r := Apply(Cfg(s), s.items, op);
    s.(items := r.items, heap := DecrAll(s.heap, r.freed))
  }

  ghost function Go<K>(s: State<K>, t: nat, p: Phase<K>): State<K>
    requires t < |s.threads|
  {
    s.(threads := s.threads[t := p])
  }

  /** After the entry has been looked up: wait for its value, load it, or use it. */
  ghost function Proceed<K>(s: State<K>, t: nat, key: K, stat: Stat): State<K>
    requires t < |s.threads|
  {
    match Lookup(s.items, key)
    case None => Go(s, t, Finished(false))
    case Some(None) => Go(s, t, Waiting(key, stat))
    case Some(Some(f)) =>
      if !Alive(s.heap, f) then s.(heap := s.heap.(fault := true))
      else if s.heap.files[f].mtime != stat.mtime || s.heap.files[f].size != stat.size then
        Go(Do(s, UnsetValue(key)), t, Loading(key, stat))
      else Go(s.(heap := Incr(s.heap, f)), t, Sending(key, stat, f))
  }

  function Broadcast<K>(threads: seq<Phase<K>>): seq<Phase<K>> {
    seq(|threads|, i requires 0 <= i < |threads| =>
      if threads[i].Waiting? then Awake(threads[i].key, threads[i].stat) else threads[i])
  }

  /** One atomic step; an action that is not enabled changes nothing. */
  ghost function Step<K>(s: State<K>, a: Action<K>): State<K> {
    match a
    case Begin(t, key, stat) =>
      if t >= |s.threads| || !(s.threads[t].Idle? || s.threads[t].Finished?) then s
      else
        var s1 := Do(s, Create(key, NOW));
        if Has(s.items, key) then Proceed(s1, t, key, stat) else Go(s1, t, Loading(key, stat))
    case WakeUp(t) =>
      if t >= |s.threads| || !s.threads[t].Waiting? then s
      else Go(s, t, Awake(s.threads[t].key, s.threads[t].stat))
    case Resume(t) =>
      if t >= |s.threads| || !s.threads[t].Awake? then s
      else Proceed(Do(s, Find(s.threads[t].key, NOW)), t, s.threads[t].key, s.threads[t].stat)
    case Read(t, ok) =>
      if t >= |s.threads| || !s.threads[t].Loading? then s
      else
        var p := s.threads[t];
        if !ok then Go(s, t, Loaded(p.key, p.stat, None))
        else
          var file := File(p.key, p.stat.mtime, p.stat.size, 1, false);
          Go(s.(heap := s.heap.(files := s.heap.files + [file])), t,
             Loaded(p.key, p.stat, Some(|s.heap.files|)))
    case Publish(t) =>
      if t >= |s.threads| || !s.threads[t].Loaded? then s
      else
        var p := s.threads[t];
        var s1 := Do(s, Create(p.key, NOW));
        if p.file.None? then
          var s2 := Do(s1, FlushEntry(p.key));
          Go(s2.(threads := Broadcast(s2.threads)), t, Finished(false))
        else
          var s2 := Do(s1, SetValue(p.key, p.file.value, p.stat.size));
          Go(s2.(threads := Broadcast(s2.threads), heap := Incr(s2.heap, p.file.value)), t,
             Sending(p.key, p.stat, p.file.value))
    case Sent(t) =>
      if t >= |s.threads| || !s.threads[t].Sending? then s
      else Go(s.(heap := Decr(s.heap, s.threads[t].sent)), t, Finished(true))
    case FlushKey(key) => Do(s, FlushEntry(key))
    case FlushAll => Do(s, Flush)
  }

  ghost function Reached<K>(s: State<K>, actions: seq<Action<K>>): State<K> {
    if actions == [] then s else Step(Reached(s, actions[..|actions| - 1]), actions[|actions| - 1])
  }

  // ----- what every reachable state satisfies -----

  ghost function RoleOf<K>(p: Phase<K>): Role<K> {
    match p
    case Waiting(k, _) => Blocked(k)
    case Loading(k, _) => Loader(k)
    case Loaded(k, _, _) => Loader(k)
    case _ => Outside
  }

  ghost function Roles<K>(threads: seq<Phase<K>>): (r: seq<Role<K>>)
    ensures |r| == |threads|
    ensures forall i :: 0 <= i < |r| ==> r[i] == RoleOf(threads[i])
  {
    seq(|threads|, i requires 0 <= i < |threads| => RoleOf(threads[i]))
  }

  /** The references threads hold: a loader its private file, a sender the one it sends. */
  ghost function Ref<K>(p: Phase<K>): multiset<nat> {
    match p
    case Loaded(_, _, Some(f)) => multiset{f}
    case Sending(_, _, f) => multiset{f}
    case _ => multiset{}
  }

  ghost function Refs<K>(threads: seq<Phase<K>>): multiset<nat> {
    if threads == [] then multiset{} else Refs(threads[..|threads| - 1]) + Ref(threads[|threads| - 1])
  }

  /** How often each File is a live cache value. */
  ghost function Cached<K>(s: State<K>): multiset<nat> {
    multiset(Live(s.items))
  }

  ghost function Holders<K>(s: State<K>): multiset<nat> {
    Cached(s) + Refs(s.threads)
  }

  /** Every File's count is exactly the number of its holders, and it is freed exactly
      when it has none. */
  ghost predicate Counted<K>(h: Heap<K>, holders: multiset<nat>) {
    && !h.fault
    && (forall f :: 0 <= f < |h.files| ==> h.files[f].refcnt == holders[f])
    && (forall f :: 0 <= f < |h.files| ==> (h.files[f].freed <==> h.files[f].refcnt == 0))
    && (forall f :: f in holders ==> f < |h.files|)
  }

  ghost predicate IsOf<K>(h: Heap<K>, f: nat, key: K) {
    f < |h.files| && h.files[f].key == key
  }

  ghost predicate Matches<K>(h: Heap<K>, f: nat, key: K, stat: Stat) {
    IsOf(h, f, key) && h.files[f].mtime == stat.mtime && h.files[f].size == stat.size
  }

  /** Cached files are filed under their own key; loaders and senders hold a file of the
      key they serve, with the modification time and size they found themselves. */
  ghost predicate Fitting<K(!new)>(s: State<K>) {
    && (forall k, f :: Lookup(s.items, k) == Some(Some(f)) ==> IsOf(s.heap, f, k))
    && (forall t :: 0 <= t < |s.threads| ==> PhaseFits(s.heap, s.threads[t]))
  }

  ghost predicate PhaseFits<K>(h: Heap<K>, p: Phase<K>) {
    && (p.Loaded? && p.file.Some? ==> Matches(h, p.file.value, p.key, p.stat))
    && (p.Sending? ==> Matches(h, p.sent, p.key, p.stat))
  }

  ghost predicate Inv<K(!new)>(s: State<K>) {
    && Shaped(s.items)
    && Attended(s.items, Roles(s.threads))
    && Counted(s.heap, Holders(s))
    && Fitting(s)
  }
}
