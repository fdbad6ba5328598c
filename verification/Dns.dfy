/** DnsGet (nsd/dns.c): the same single-flight protocol with values that expire. */
module Dns {
  import opened Common
  import opened CacheSpec
  import CacheLaws
  import opened CacheLookup
  import opened SingleFlight

  /** A cached Value; `key` is the name it was resolved for, `freed` that ns_free was called. */
  datatype Record<K> = Record(key: K, text: string, expires: int, freed: bool)

  datatype Phase<K> =
    | Idle
    | Waiting(key: K, now: int)                       // blocked in Ns_CacheWait
    | Awake(key: K, now: int)                         // woken, about to take the lock
    | Loading(key: K, now: int)                       // outside the lock, in the resolver
    | Loaded(key: K, now: int, text: Option<string>)  // about to lock and publish
    | Answered(key: K, now: int, record: nat)         // NS_TRUE
    | Failed                                          // NS_FALSE

  datatype Action<K> =
    | Begin(thread: nat, key: K, now: int)
    | WakeUp(thread: nat)
    | Resume(thread: nat)
    | Resolve(thread: nat, text: Option<string>)
    | Publish(thread: nat)
    | FlushKey(key: K)
    | FlushAll

  /** `fault` records that a freed record was read or freed again. */
  datatype Heap<K> = Heap(records: seq<Record<K>>, fault: bool)

  /** `ttl` is the cache timeout in seconds, `maxSize` the greatest number of records. */
  datatype State<K> = State(maxSize: nat, ttl: int, items: seq<Item<K, nat>>, heap: Heap<K>, threads: seq<Phase<K>>)

  const NOCLOCK := Time(0, 0)

  ghost function Cfg<K>(s: State<K>): Config {
    Config(s.maxSize, -1)
  }

  ghost function Init<K>(maxSize: nat, ttl: int, nthreads: nat): State<K> {
    State(maxSize, ttl, [], Heap([], false), seq(nthreads, i => Idle))
  }

  predicate Alive<K>(h: Heap<K>, v: nat) {
    v < |h.records| && !h.records[v].freed
  }

  function Free<K>(h: Heap<K>, v: nat): Heap<K> {
    if !Alive(h, v) then h.(fault := true)
    else h.(records := h.records[v := h.records[v].(freed := true)])
  }

  ghost function FreeAll<K>(h: Heap<K>, vs: seq<nat>): Heap<K> {
    if vs == [] then h else Free(FreeAll(h, vs[..|vs| - 1]), vs[|vs| - 1])
  }

  ghost function Do<K>(s: State<K>, op: Op<K, nat>): State<K> {
    var r := Apply(Cfg(s), s.items, op);
    s.(items := r.items, heap := FreeAll(s.heap, r.freed))
  }

  ghost function Go<K>(s: State<K>, t: nat, p: Phase<K>): State<K>
    requires t < |s.threads|
  {
    s.(threads := s.threads[t := p])
  }

  ghost function Proceed<K>(s: State<K>, t: nat, key: K, now: int): State<K>
    requires t < |s.threads|
  {
    match Lookup(s.items, key)
    case None => Go(s, t, Failed)
    case Some(None) => Go(s, t, Waiting(key, now))
    case Some(Some(v)) =>
      if !Alive(s.heap, v) then s.(heap := s.heap.(fault := true))
      else if s.heap.records[v].expires < now then Go(Do(s, UnsetValue(key)), t, Loading(key, now))
      else Go(s, t, Answered(key, now, v))
  }

  function Broadcast<K>(threads: seq<Phase<K>>): seq<Phase<K>> {
    seq(|threads|, i requires 0 <= i < |threads| =>
      if threads[i].Waiting? then Awake(threads[i].key, threads[i].now) else threads[i])
  }

  ghost predicate AtRest<K>(p: Phase<K>) {
    p.Idle? || p.Answered? || p.Failed?
  }

  /** One atomic step; an action that is not enabled changes nothing. The clock is read
      before the lock is taken, so a record expires `ttl` after its lookup began. */
  ghost function Step<K>(s: State<K>, a: Action<K>): State<K> {
    match a
    case Begin(t, key, now) =>
      if t >= |s.threads| || !AtRest(s.threads[t]) then s
      else
        var s1 := Do(s, Create(key, NOCLOCK));
        if Has(s.items, key) then Proceed(s1, t, key, now) else Go(s1, t, Loading(key, now))
    case WakeUp(t) =>
      if t >= |s.threads| || !s.threads[t].Waiting? then s
      else Go(s, t, Awake(s.threads[t].key, s.threads[t].now))
    case Resume(t) =>
      if t >= |s.threads| || !s.threads[t].Awake? then s
      else Proceed(Do(s, Find(s.threads[t].key, NOCLOCK)), t, s.threads[t].key, s.threads[t].now)
    case Resolve(t, text) =>
      if t >= |s.threads| || !s.threads[t].Loading? then s
      else Go(s, t, Loaded(s.threads[t].key, s.threads[t].now, text))
    case Publish(t) =>
      if t >= |s.threads| || !s.threads[t].Loaded? then s
      else
        var p := s.threads[t];
        var s1 := Do(s, Create(p.key, NOCLOCK));
        if p.text.None? then
          var s2 := Do(s1, FlushEntry(p.key));
          Go(s2.(threads := Broadcast(s2.threads)), t, Failed)
        else
          var s2 := Do(s1, UnsetValue(p.key));
          var v := |s2.heap.records|;
          var record := Record(p.key, p.text.value, p.now + s.ttl, false);
          var s3 := Do(s2.(heap := s2.heap.(records := s2.heap.records + [record])), SetValue(p.key, v, 1));
          Go(s3.(threads := Broadcast(s3.threads)), t, Answered(p.key, p.now, v))
    case FlushKey(key) => Do(s, FlushEntry(key))
    case FlushAll => Do(s, Flush)
  }

  ghost function Reached<K>(s: State<K>, actions: seq<Action<K>>): State<K> {
    if actions == [] then s else Step(Reached(s, actions[..|actions| - 1]), actions[|actions| - 1])
  }

  // ----- what every reachable state satisfies -----

  ghost function RoleOf<K>(p: Phase<K>): Role<K> {
    match p
    case Waiting(k, _) => Blocked(k)
    case Loading(k, _) => Loader(k)
    case Loaded(k, _, _) => Loader(k)
    case _ => Outside
  }

  ghost function Roles<K>(threads: seq<Phase<K>>): (r: seq<Role<K>>)
    ensures |r| == |threads|
    ensures forall i :: 0 <= i < |r| ==> r[i] == RoleOf(threads[i])
  {
    seq(|threads|, i requires 0 <= i < |threads| => RoleOf(threads[i]))
  }

  ghost function Cached<K>(s: State<K>): multiset<nat> {
    multiset(Live(s.items))
  }

  /** A record is freed exactly when it is no longer cached, and cached at most once. */
  ghost predicate Owned<K>(h: Heap<K>, cached: multiset<nat>) {
    && !h.fault
    && (forall v: nat :: v < |h.records| ==> cached[v] == if h.records[v].freed then 0 else 1)
    && (forall v :: v in cached ==> v < |h.records|)
  }

  ghost predicate IsOf<K>(h: Heap<K>, v: nat, key: K) {
    v < |h.records| && h.records[v].key == key
  }

  ghost predicate PhaseFits<K>(h: Heap<K>, p: Phase<K>) {
    p.Answered? ==> IsOf(h, p.record, p.key) && p.now <= h.records[p.record].expires
  }

  ghost predicate Fitting<K(!new)>(s: State<K>) {
    && (forall k, v :: Lookup(s.items, k) == Some(Some(v)) ==> IsOf(s.heap, v, k))
    && (forall t :: 0 <= t < |s.threads| ==> PhaseFits(s.heap, s.threads[t]))
  }

  ghost predicate Inv<K(!new)>(s: State<K>) {
    && CacheLaws.Shaped(s.items)
    && Attended(s.items, Roles(s.threads))
    && Owned(s.heap, Cached(s))
    && Fitting(s)
    && s.ttl >= 0
  }
}
