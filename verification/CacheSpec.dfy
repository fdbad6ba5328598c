/** The abstract value of a server cache (nsd/cache.c): the entries in list order,
    most recently used first, and what each cache call does to them. */
module CacheSpec {
  import opened Common

  /** Ns_Time: whole seconds and microseconds, ordered lexicographically. */
  datatype Time = Time(sec: int, usec: int) {
    predicate AtMost(that: Time) {
      sec < that.sec || (sec == that.sec && usec <= that.usec)
    }

    /** Ns_IncrTime(&t, secs, 0). */
    function Plus(secs: int): Time {
      Time(sec + secs, usec)
    }
  }

  /** One cache entry; `value == None` is the C code's NULL value. */
  datatype Item<K, V> = Item(key: K, value: Option<V>, size: nat, mtime: Time)

  /** The entries after a call, and the values handed to the free proc, in order. */
  datatype Change<K, V> = Change(items: seq<Item<K, V>>, freed: seq<V>)

  /** A size cache has maxSize > 0; a timed cache has timeout > 0. */
  datatype Config = Config(maxSize: nat, timeout: int)

  datatype Op<K, V> =
    | Find(key: K, now: Time)
    | Create(key: K, now: Time)
    | SetValue(key: K, value: V, size: nat)
    | UnsetValue(key: K)
    | FlushEntry(key: K)
    | Flush
    | Purge(now: Time)

  // ----- vocabulary -----

  ghost function IndexOf<K, V>(s: seq<Item<K, V>>, k: K): (r: nat)
    ensures r <= |s|
    ensures r < |s| ==> s[r].key == k
    ensures forall i :: 0 <= i < r ==> s[i].key != k
  {
    if s == [] || s[0].key == k then 0 else 1 + IndexOf(s[1..], k)
  }

  ghost predicate Has<K, V>(s: seq<Item<K, V>>, k: K) {
    IndexOf(s, k) < |s|
  }

  ghost predicate Distinct<K, V>(s: seq<Item<K, V>>) {
    forall i, j :: 0 <= i < j < |s| ==> s[i].key != s[j].key
  }

  /** A NULL value accounts for no bytes. */
  ghost predicate Sized<K, V>(s: seq<Item<K, V>>) {
    forall i :: 0 <= i < |s| ==> s[i].value.None? ==> s[i].size == 0
  }

  ghost function Total<K, V>(s: seq<Item<K, V>>): nat {
    if s == [] then 0 else Total(s[..|s| - 1]) + s[|s| - 1].size
  }

  /** The live values, in list order. */
  ghost function Live<K, V>(s: seq<Item<K, V>>): seq<V> {
    if s == [] then [] else Live(s[..|s| - 1]) + Held(s[|s| - 1])
  }

  ghost function Held<K, V>(e: Item<K, V>): seq<V> {
    if e.value.Some? then [e.value.value] else []
  }

  // ----- the cache calls -----

  ghost function Stamp<K, V>(cfg: Config, e: Item<K, V>, now: Time): Item<K, V> {
    if cfg.timeout > 0 then e.(mtime := now) else e
  }

  ghost function ToFront<K, V>(cfg: Config, s: seq<Item<K, V>>, i: nat, now: Time): seq<Item<K, V>>
    requires i < |s|
  {
    [Stamp(cfg, s[i], now)] + Without(s, i)
  }

  ghost function Fresh<K, V>(k: K): Item<K, V> {
    Item(k, None, 0, Time(0, 0))
  }

  ghost function Cleared<K, V>(e: Item<K, V>): Item<K, V> {
    e.(value := None, size := if e.value.Some? then 0 else e.size)
  }

  /** The eviction loop of Ns_CacheSetValueSz: drop the last entry while the cache is
      too big and the last entry is not the one being set. */
  ghost function Evict<K, V>(s: seq<Item<K, V>>, k: K, maxSize: nat): Change<K, V> {
    if s == [] || Total(s) <= maxSize || s[|s| - 1].key == k then Change(s, [])
    else
      var rest := Evict(s[..|s| - 1], k, maxSize);
      Change(rest.items, Held(s[|s| - 1]) + rest.freed)
  }

  /** The loop of NsCachePurge: drop the last entry until one is still live. */
  ghost function PurgeTail<K, V>(s: seq<Item<K, V>>, expired: Time): Change<K, V> {
    if s == [] || !s[|s| - 1].mtime.AtMost(expired) then Change(s, [])
    else
      var rest := PurgeTail(s[..|s| - 1], expired);
      Change(rest.items, Held(s[|s| - 1]) + rest.freed)
  }

  /** What one call does. Set, unset and flush act on an entry the caller has just found
      or created under the lock, so on an absent key there is nothing to do. */
  ghost function Apply<K, V>(cfg: Config, s: seq<Item<K, V>>, op: Op<K, V>): Change<K, V> {
    match op
    case Find(k, now) =>
      var i := IndexOf(s, k);
      if i == |s| then Change(s, []) else Change(ToFront(cfg, s, i, now), [])
    case Create(k, now) =>
      var i := IndexOf(s, k);
      if i == |s| then Change([Stamp(cfg, Fresh(k), now)] + s, [])
      else Change(ToFront(cfg, s, i, now), [])
    case UnsetValue(k) =>
      var i := IndexOf(s, k);
      if i == |s| then Change(s, []) else Change(s[i := Cleared(s[i])], Held(s[i]))
    case FlushEntry(k) =>
      var i := IndexOf(s, k);
      if i == |s| then Change(s, []) else Change(Without(s, i), Held(s[i]))
    case SetValue(k, v, size) =>
      var i := IndexOf(s, k);
      if i == |s| then Change(s, [])
      else
        var t := s[i := s[i].(value := Some(v), size := size)];
        if cfg.maxSize == 0 then Change(t, Held(s[i]))
        else
          var rest := Evict(t, k, cfg.maxSize);
          Change(rest.items, Held(s[i]) + rest.freed)
    case Flush => Change([], Live(s))
    case Purge(now) =>
      if cfg.timeout > 0 then PurgeTail(s, now.Plus(-cfg.timeout)) else Change(s, [])
  }

  // ----- runs -----

  /** Everything freed by, and the entries left after, a history of calls on an empty cache. */
  ghost function Run<K, V>(cfg: Config, ops: seq<Op<K, V>>): Change<K, V> {
    if ops == [] then Change([], [])
    else
      var before := Run(cfg, ops[..|ops| - 1]);
      var step := Apply(cfg, before.items, ops[|ops| - 1]);
      Change(step.items, before.freed + step.freed)
  }
}
