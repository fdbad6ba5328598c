/** What every history of cache calls guarantees. */
module CacheLaws {
  import opened Common
  import opened CacheSpec

  // ----- prefixes, totals and live values -----

  lemma {:induction false} TotalSplit<K, V>(s: seq<Item<K, V>>, t: seq<Item<K, V>>)
    ensures Total(s + t) == Total(s) + Total(t)
  {
    if t == [] {
      assert s + t == s;
    } else {
      assert (s + t)[..|s + t| - 1] == s + t[..|t| - 1];
      TotalSplit(s, t[..|t| - 1]);
    }
  }

  lemma {:induction false} LiveSplit<K, V>(s: seq<Item<K, V>>, t: seq<Item<K, V>>)
    ensures Live(s + t) == Live(s) + Live(t)
  {
    if t == [] {
      assert s + t == s;
    } else {
      assert (s + t)[..|s + t| - 1] == s + t[..|t| - 1];
      LiveSplit(s, t[..|t| - 1]);
    }
  }

  lemma TotalSingle<K, V>(e: Item<K, V>)
    ensures Total([e]) == e.size && Live([e]) == Held(e)
  {
    assert [e][..0] == [];
  }

  lemma TotalMiddle<K, V>(a: seq<Item<K, V>>, e: Item<K, V>, b: seq<Item<K, V>>)
    ensures Total(a + [e] + b) == Total(a) + e.size + Total(b)
    ensures Live(a + [e] + b) == Live(a) + Held(e) + Live(b)
  {
    TotalSplit(a + [e], b);
    TotalSplit(a, [e]);
    LiveSplit(a + [e], b);
    LiveSplit(a, [e]);
    TotalSingle(e);
  }

  lemma AtIndex<K, V>(s: seq<Item<K, V>>, i: nat)
    requires i < |s|
    ensures Total(s) == Total(s[..i]) + s[i].size + Total(s[i + 1..])
    ensures Total(Without(s, i)) == Total(s) - s[i].size
    ensures Live(s) == Live(s[..i]) + Held(s[i]) + Live(s[i + 1..])
    ensures Live(Without(s, i)) == Live(s[..i]) + Live(s[i + 1..])
  {
    var a, e, b := s[..i], s[i], s[i + 1..];
    assert s == a + [e] + b;
    TotalMiddle(a, e, b);
    TotalSplit(a, b);
    LiveSplit(a, b);
  }

  lemma FindsIt<K, V>(s: seq<Item<K, V>>, i: nat)
    requires i < |s| && Distinct(s)
    ensures IndexOf(s, s[i].key) == i
  {
  }

  // ----- every call keeps the shape -----

  lemma {:induction false} EvictIsPrefix<K, V>(s: seq<Item<K, V>>, k: K, maxSize: nat)
    ensures Evict(s, k, maxSize).items <= s
    ensures multiset(Evict(s, k, maxSize).items) <= multiset(s)
  {
    if s == [] || Total(s) <= maxSize || s[|s| - 1].key == k {
    } else {
      EvictIsPrefix(s[..|s| - 1], k, maxSize);
      assert s == s[..|s| - 1] + [s[|s| - 1]];
    }
  }

  lemma {:induction false} PurgeIsPrefix<K, V>(s: seq<Item<K, V>>, expired: Time)
    ensures PurgeTail(s, expired).items <= s
  {
    if s == [] || !s[|s| - 1].mtime.AtMost(expired) {
    } else {
      PurgeIsPrefix(s[..|s| - 1], expired);
    }
  }

  ghost predicate Shaped<K, V>(s: seq<Item<K, V>>) {
    Distinct(s) && Sized(s)
  }

  lemma ShapeWithout<K, V>(s: seq<Item<K, V>>, i: nat)
    requires Shaped(s) && i < |s|
    ensures Shaped(Without(s, i))
    ensures forall j :: 0 <= j < |s| - 1 ==> Without(s, i)[j].key != s[i].key
  {
  }

  lemma ShapeToFront<K, V>(cfg: Config, s: seq<Item<K, V>>, i: nat, now: Time)
    requires Shaped(s) && i < |s|
    ensures Shaped(ToFront(cfg, s, i, now))
  {
    ShapeWithout(s, i);
  }

  lemma ShapeUpdate<K, V>(s: seq<Item<K, V>>, i: nat, e: Item<K, V>)
    requires Shaped(s) && i < |s| && e.key == s[i].key && (e.value.None? ==> e.size == 0)
    ensures Shaped(s[i := e])
  {
  }

  lemma ShapeCleared<K, V>(s: seq<Item<K, V>>, i: nat)
    requires Shaped(s) && i < |s|
    ensures Shaped(s[i := Cleared(s[i])])
    ensures s[i].value.None? ==> s[i].size == 0
  {
    ShapeUpdate(s, i, Cleared(s[i]));
  }

  lemma ShapePrefix<K, V>(s: seq<Item<K, V>>, t: seq<Item<K, V>>)
    requires Shaped(s) && t <= s
    ensures Shaped(t)
  {
  }

  lemma ShapePush<K, V>(s: seq<Item<K, V>>, e: Item<K, V>)
    requires Shaped(s) && !Has(s, e.key) && (e.value.None? ==> e.size == 0)
    ensures Shaped([e] + s)
  {
  }

  lemma SetKeepsShape<K, V>(cfg: Config, s: seq<Item<K, V>>, k: K, v: V, size: nat)
    requires Shaped(s)
    ensures Shaped(Apply(cfg, s, SetValue(k, v, size)).items)
  {
    if Has(s, k) {
      var i := IndexOf(s, k);
      var e := s[i].(value := Some(v), size := size);
      ShapeUpdate(s, i, e);
      EvictIsPrefix(s[i := e], k, cfg.maxSize);
      ShapePrefix(s[i := e], Evict(s[i := e], k, cfg.maxSize).items);
    }
  }

  lemma UseKeepsShape<K, V>(cfg: Config, s: seq<Item<K, V>>, op: Op<K, V>)
    requires Shaped(s) && (op.Find? || op.Create?)
    ensures Shaped(Apply(cfg, s, op).items)
  {
    if Has(s, op.key) {
      ShapeToFront(cfg, s, IndexOf(s, op.key), op.now);
    } else if op.Create? {
      ShapePush(s, Stamp(cfg, Fresh<K, V>(op.key), op.now));
    }
  }

  /** Every call keeps one entry per key and NULL entries sized zero. */
  lemma StepKeepsShape<K, V>(cfg: Config, s: seq<Item<K, V>>, op: Op<K, V>)
    requires Shaped(s)
    ensures Shaped(Apply(cfg, s, op).items)
  {
    match op
    case Find(k, now) => UseKeepsShape(cfg, s, op);
    case Create(k, now) => UseKeepsShape(cfg, s, op);
    case SetValue(k, v, size) => SetKeepsShape(cfg, s, k, v, size);
    case UnsetValue(k) =>
      if Has(s, k) { ShapeUpdate(s, IndexOf(s, k), Cleared(s[IndexOf(s, k)])); }
    case FlushEntry(k) =>
      if Has(s, k) { ShapeWithout(s, IndexOf(s, k)); }
    case Flush =>
    case Purge(now) =>
      PurgeIsPrefix(s, now.Plus(-cfg.timeout));
      ShapePrefix(s, PurgeTail(s, now.Plus(-cfg.timeout)).items);
  }

  lemma {:induction false} RunKeepsShape<K, V>(cfg: Config, ops: seq<Op<K, V>>)
    ensures Shaped(Run(cfg, ops).items)
  {
    if ops == [] {
    } else {
      RunKeepsShape(cfg, ops[..|ops| - 1]);
      StepKeepsShape(cfg, Run(cfg, ops[..|ops| - 1]).items, ops[|ops| - 1]);
    }
  }

  // ----- exact eviction -----

  /** One turn of the eviction loop. */
  lemma EvictOne<K, V>(s: seq<Item<K, V>>, k: K, maxSize: nat, freed: seq<V>)
    requires s != [] && Total(s) > maxSize && s[|s| - 1].key != k
    ensures var rest := Evict(s[..|s| - 1], k, maxSize);
            && Evict(s, k, maxSize).items == rest.items
            && freed + Evict(s, k, maxSize).freed == freed + Held(s[|s| - 1]) + rest.freed
  {
  }

  lemma EvictNone<K, V>(s: seq<Item<K, V>>, k: K, maxSize: nat)
    requires s == [] || Total(s) <= maxSize || s[|s| - 1].key == k
    ensures Evict(s, k, maxSize) == Change(s, [])
  {
  }

  lemma {:induction false} EvictConserves<K, V>(s: seq<Item<K, V>>, k: K, maxSize: nat)
    ensures var r := Evict(s, k, maxSize);
            multiset(Live(s)) == multiset(Live(r.items)) + multiset(r.freed)
  {
    if s == [] || Total(s) <= maxSize || s[|s| - 1].key == k {
    } else {
      EvictConserves(s[..|s| - 1], k, maxSize);
    }
  }

  lemma Cancel<V>(kept: seq<V>, tail: seq<V>, freed: seq<V>)
    requires multiset(kept + tail) == multiset(kept) + multiset(freed)
    ensures multiset(freed) == multiset(tail)
  {
    assert multiset(freed) == (multiset(kept) + multiset(freed)) - multiset(kept);
    assert multiset(tail) == (multiset(kept) + multiset(tail)) - multiset(kept);
  }

  lemma TailIsFreed<K, V>(s: seq<Item<K, V>>, n: nat, freed: seq<V>)
    requires n <= |s| && multiset(Live(s)) == multiset(Live(s[..n])) + multiset(freed)
    ensures multiset(freed) == multiset(Live(s[n..]))
  {
    var a, b := s[..n], s[n..];
    assert s == a + b;
    LiveSplit(a, b);
    Cancel(Live(a), Live(b), freed);
  }

  lemma {:induction false} EvictStops<K, V>(s: seq<Item<K, V>>, k: K, maxSize: nat)
    requires Has(s, k) && Distinct(s)
    ensures var t := Evict(s, k, maxSize).items;
            && IndexOf(s, k) < |t|
            && (Total(t) <= maxSize || |t| == IndexOf(s, k) + 1)
  {
    var last := |s| - 1;
    if Total(s) <= maxSize || s[last].key == k {
    } else {
      assert s[..last][IndexOf(s, k)].key == k;
      FindsIt(s[..last], IndexOf(s, k));
      EvictStops(s[..last], k, maxSize);
    }
  }

  lemma {:induction false} EvictMustGo<K, V>(s: seq<Item<K, V>>, k: K, maxSize: nat, m: nat)
    requires |Evict(s, k, maxSize).items| < m <= |s|
    ensures Total(s[..m]) > maxSize
  {
    if m == |s| {
      assert s[..m] == s;
    } else {
      assert s[..|s| - 1][..m] == s[..m];
      EvictMustGo(s[..|s| - 1], k, maxSize, m);
    }
  }

  lemma EvictFreesTail<K, V>(s: seq<Item<K, V>>, k: K, maxSize: nat)
    ensures var r := Evict(s, k, maxSize);
            r.items <= s && multiset(r.freed) == multiset(Live(s[|r.items|..]))
  {
    EvictIsPrefix(s, k, maxSize);
    var r := Evict(s, k, maxSize);
    EvictConserves(s, k, maxSize);
    assert r.items == s[..|r.items|];
    TailIsFreed(s, |r.items|, r.freed);
  }

  /** Setting a value evicts the shortest least recently used tail that brings the cache
      within `maxSize` without reaching the entry being set, and frees that tail's values. */
  lemma EvictionIsExact<K, V>(s: seq<Item<K, V>>, k: K, maxSize: nat)
    requires Distinct(s) && Has(s, k)
    ensures var r := Evict(s, k, maxSize);
            && r.items <= s
            && IndexOf(s, k) < |r.items|
            && (Total(r.items) <= maxSize || |r.items| == IndexOf(s, k) + 1)
            && (forall m :: |r.items| < m <= |s| ==> Total(s[..m]) > maxSize)
            && multiset(r.freed) == multiset(Live(s[|r.items|..]))
  {
    EvictFreesTail(s, k, maxSize);
    EvictStops(s, k, maxSize);
    forall m | |Evict(s, k, maxSize).items| < m <= |s| ensures Total(s[..m]) > maxSize {
      EvictMustGo(s, k, maxSize, m);
    }
  }

  // ----- purging -----

  ghost predicate NewestFirst<K, V>(s: seq<Item<K, V>>) {
    forall i, j :: 0 <= i < j < |s| ==> s[j].mtime.AtMost(s[i].mtime)
  }

  ghost predicate NoneAfter<K, V>(s: seq<Item<K, V>>, now: Time) {
    forall i :: 0 <= i < |s| ==> s[i].mtime.AtMost(now)
  }

  ghost function Clock<K, V>(op: Op<K, V>): Option<Time> {
    match op
    case Find(_, now) => Some(now)
    case Create(_, now) => Some(now)
    case Purge(now) => Some(now)
    case _ => None
  }

  /** The clock, where a call reads it, never runs backwards. */
  ghost predicate ClockAdvances<K, V>(ops: seq<Op<K, V>>) {
    forall i, j :: 0 <= i < j < |ops| && Clock(ops[i]).Some? && Clock(ops[j]).Some? ==>
      Clock(ops[i]).value.AtMost(Clock(ops[j]).value)
  }

  ghost predicate InTimeOrder<K, V>(s: seq<Item<K, V>>, now: Time) {
    NewestFirst(s) && NoneAfter(s, now)
  }

  lemma TimeWithout<K, V>(s: seq<Item<K, V>>, i: nat, now: Time)
    requires InTimeOrder(s, now) && i < |s|
    ensures InTimeOrder(Without(s, i), now)
  {
  }

  lemma TimePush<K, V>(s: seq<Item<K, V>>, e: Item<K, V>, now: Time)
    requires InTimeOrder(s, now) && e.mtime == now
    ensures InTimeOrder([e] + s, now)
  {
  }

  lemma TimeUpdate<K, V>(s: seq<Item<K, V>>, i: nat, e: Item<K, V>, now: Time)
    requires InTimeOrder(s, now) && i < |s| && e.mtime == s[i].mtime
    ensures InTimeOrder(s[i := e], now)
  {
  }

  lemma TimePrefix<K, V>(s: seq<Item<K, V>>, t: seq<Item<K, V>>, now: Time)
    requires InTimeOrder(s, now) && t <= s
    ensures InTimeOrder(t, now)
  {
  }

  lemma SetKeepsTimeOrder<K, V>(cfg: Config, s: seq<Item<K, V>>, k: K, v: V, size: nat, now: Time)
    requires InTimeOrder(s, now)
    ensures InTimeOrder(Apply(cfg, s, SetValue(k, v, size)).items, now)
  {
    if Has(s, k) {
      var i := IndexOf(s, k);
      var e := s[i].(value := Some(v), size := size);
      TimeUpdate(s, i, e, now);
      EvictIsPrefix(s[i := e], k, cfg.maxSize);
      TimePrefix(s[i := e], Evict(s[i := e], k, cfg.maxSize).items, now);
    }
  }

  lemma UseKeepsTimeOrder<K, V>(cfg: Config, s: seq<Item<K, V>>, op: Op<K, V>)
    requires cfg.timeout > 0 && (op.Find? || op.Create?) && InTimeOrder(s, op.now)
    ensures InTimeOrder(Apply(cfg, s, op).items, op.now)
  {
    if Has(s, op.key) {
      var i := IndexOf(s, op.key);
      TimeWithout(s, i, op.now);
      TimePush(Without(s, i), Stamp(cfg, s[i], op.now), op.now);
    } else if op.Create? {
      TimePush(s, Stamp(cfg, Fresh<K, V>(op.key), op.now), op.now);
    }
  }

  lemma StepKeepsTimeOrder<K, V>(cfg: Config, s: seq<Item<K, V>>, op: Op<K, V>, now: Time)
    requires cfg.timeout > 0 && InTimeOrder(s, now)
    requires Clock(op).Some? ==> Clock(op).value == now
    ensures InTimeOrder(Apply(cfg, s, op).items, now)
  {
    match op
    case Find(k, at) => UseKeepsTimeOrder(cfg, s, op);
    case Create(k, at) => UseKeepsTimeOrder(cfg, s, op);
    case SetValue(k, v, size) => SetKeepsTimeOrder(cfg, s, k, v, size, now);
    case UnsetValue(k) =>
      if Has(s, k) { TimeUpdate(s, IndexOf(s, k), Cleared(s[IndexOf(s, k)]), now); }
    case FlushEntry(k) =>
      if Has(s, k) { TimeWithout(s, IndexOf(s, k), now); }
    case Flush =>
    case Purge(at) =>
      PurgeIsPrefix(s, at.Plus(-cfg.timeout));
      TimePrefix(s, PurgeTail(s, at.Plus(-cfg.timeout)).items, now);
  }

  /** In a timed cache whose clock never runs backwards, list order is time order. */
  lemma {:induction false} RunKeepsTimeOrder<K, V>(cfg: Config, ops: seq<Op<K, V>>, now: Time)
    requires cfg.timeout > 0 && ClockAdvances(ops)
    requires forall i :: 0 <= i < |ops| && Clock(ops[i]).Some? ==> Clock(ops[i]).value.AtMost(now)
    ensures InTimeOrder(Run(cfg, ops).items, now)
  {
    if ops == [] {
    } else {
      var p, op := ops[..|ops| - 1], ops[|ops| - 1];
      var at := if Clock(op).Some? then Clock(op).value else now;
      RunKeepsTimeOrder(cfg, p, at);
      StepKeepsTimeOrder(cfg, Run(cfg, p).items, op, at);
    }
  }

  /** One turn of the purge loop. */
  lemma PurgeOne<K, V>(s: seq<Item<K, V>>, expired: Time, freed: seq<V>)
    requires s != [] && s[|s| - 1].mtime.AtMost(expired)
    ensures var rest := PurgeTail(s[..|s| - 1], expired);
            && PurgeTail(s, expired).items == rest.items
            && freed + PurgeTail(s, expired).freed == freed + Held(s[|s| - 1]) + rest.freed
  {
  }

  lemma PurgeNone<K, V>(s: seq<Item<K, V>>, expired: Time)
    requires s == [] || !s[|s| - 1].mtime.AtMost(expired)
    ensures PurgeTail(s, expired) == Change(s, [])
  {
  }

  lemma {:induction false} PurgeConserves<K, V>(s: seq<Item<K, V>>, expired: Time)
    ensures var r := PurgeTail(s, expired);
            multiset(Live(s)) == multiset(Live(r.items)) + multiset(r.freed)
  {
    if s == [] || !s[|s| - 1].mtime.AtMost(expired) {
    } else {
      PurgeConserves(s[..|s| - 1], expired);
    }
  }

  lemma {:induction false} PurgedIsExpired<K, V>(s: seq<Item<K, V>>, expired: Time, i: nat)
    requires |PurgeTail(s, expired).items| <= i < |s|
    ensures s[i].mtime.AtMost(expired)
  {
    if i < |s| - 1 {
      PurgedIsExpired(s[..|s| - 1], expired, i);
    }
  }

  lemma {:induction false} LastKeptIsLive<K, V>(s: seq<Item<K, V>>, expired: Time)
    ensures var t := PurgeTail(s, expired).items;
            t != [] ==> !t[|t| - 1].mtime.AtMost(expired)
  {
    if s == [] || !s[|s| - 1].mtime.AtMost(expired) {
    } else {
      LastKeptIsLive(s[..|s| - 1], expired);
    }
  }

  lemma PurgeFreesTail<K, V>(s: seq<Item<K, V>>, expired: Time)
    ensures var r := PurgeTail(s, expired);
            r.items <= s && multiset(r.freed) == multiset(Live(s[|r.items|..]))
  {
    PurgeIsPrefix(s, expired);
    var r := PurgeTail(s, expired);
    PurgeConserves(s, expired);
    assert r.items == s[..|r.items|];
    TailIsFreed(s, |r.items|, r.freed);
  }

  /** On a list in time order the purge loop deletes exactly the expired entries. */
  lemma PurgeSplits<K, V>(s: seq<Item<K, V>>, expired: Time)
    requires NewestFirst(s)
    ensures var t := PurgeTail(s, expired).items;
            t <= s && forall i :: 0 <= i < |s| ==> (i < |t| <==> !s[i].mtime.AtMost(expired))
  {
    var t := PurgeTail(s, expired).items;
    PurgeIsPrefix(s, expired);
    LastKeptIsLive(s, expired);
    forall i | 0 <= i < |s| ensures i < |t| <==> !s[i].mtime.AtMost(expired) {
      if |t| <= i {
        PurgedIsExpired(s, expired, i);
      } else {
        assert t[|t| - 1] == s[|t| - 1];
      }
    }
  }

  /** Although NsCachePurge stops at the first live entry, after any history with an
      advancing clock it deletes exactly the entries not used since `now - timeout`, and
      frees each of their values once. */
  lemma PurgeIsComplete<K, V>(cfg: Config, ops: seq<Op<K, V>>, now: Time)
    requires cfg.timeout > 0 && ClockAdvances(ops + [Purge(now)])
    ensures var before := Run(cfg, ops).items;
            var after := Run(cfg, ops + [Purge(now)]).items;
            && after <= before
            && forall i :: 0 <= i < |before| ==>
                 var sec, usec := before[i].mtime.sec, before[i].mtime.usec;
                 (i < |after| <==> sec > now.sec - cfg.timeout || (sec == now.sec - cfg.timeout && usec > now.usec))
    ensures var r, s := Run(cfg, ops), Run(cfg, ops + [Purge(now)]);
            multiset(s.freed) == multiset(r.freed) + multiset(Live(r.items[|s.items|..]))
  {
    hide Run; hide PurgeTail; hide ClockAdvances; hide Live;
    OrderBefore(cfg, ops, now);
    var r, expired := Run(cfg, ops), now.Plus(-cfg.timeout);
    PurgeRuns(cfg, ops, now);
    PurgeSplits(r.items, expired);
    PurgeFreesTail(r.items, expired);
    SumOf(r.freed, PurgeTail(r.items, expired).freed);
  }

  lemma OrderBefore<K, V>(cfg: Config, ops: seq<Op<K, V>>, now: Time)
    requires cfg.timeout > 0 && ClockAdvances(ops + [Purge(now)])
    ensures NewestFirst(Run(cfg, ops).items)
  {
    hide Run; hide NewestFirst; hide ClockAdvances;
    ClockPrefix(ops, Purge(now));
    RunKeepsTimeOrder(cfg, ops, now);
  }

  lemma PurgeRuns<K, V>(cfg: Config, ops: seq<Op<K, V>>, now: Time)
    requires cfg.timeout > 0
    ensures var r := Run(cfg, ops);
            var t := PurgeTail(r.items, now.Plus(-cfg.timeout));
            Run(cfg, ops + [Purge(now)]) == Change(t.items, r.freed + t.freed)
  {
    hide PurgeTail;
    assert (ops + [Purge(now)])[..|ops|] == ops;
  }

  lemma SumOf<T>(a: seq<T>, b: seq<T>)
    ensures multiset(a + b) == multiset(a) + multiset(b)
  {
  }

  lemma ClockPrefix<K, V>(ops: seq<Op<K, V>>, op: Op<K, V>)
    requires ClockAdvances(ops + [op])
    ensures ClockAdvances(ops)
    ensures forall i :: 0 <= i < |ops| && Clock(ops[i]).Some? && Clock(op).Some? ==>
              Clock(ops[i]).value.AtMost(Clock(op).value)
  {
    var all := ops + [op];
    forall i, j | 0 <= i < j < |ops| && Clock(ops[i]).Some? && Clock(ops[j]).Some?
      ensures Clock(ops[i]).value.AtMost(Clock(ops[j]).value)
    {
      assert all[i] == ops[i] && all[j] == ops[j];
    }
    forall i | 0 <= i < |ops| && Clock(ops[i]).Some? && Clock(op).Some?
      ensures Clock(ops[i]).value.AtMost(Clock(op).value)
    {
      assert all[i] == ops[i] && all[|ops|] == op;
    }
  }

  // ----- recency -----

  /** The position of the last find or create of `k` in a history, or -1. */
  ghost function LastUse<K, V>(ops: seq<Op<K, V>>, k: K): (r: int)
    ensures -1 <= r < |ops|
    ensures r >= 0 ==> ops[r].Find? || ops[r].Create?
    ensures r >= 0 ==> ops[r].key == k
    ensures forall i :: r < i < |ops| && (ops[i].Find? || ops[i].Create?) ==> ops[i].key != k
  {
    if ops == [] then -1
    else
      var op := ops[|ops| - 1];
      if (op.Find? || op.Create?) && op.key == k then |ops| - 1
      else LastUse(ops[..|ops| - 1], k)
  }

  ghost predicate ByRecency<K, V>(s: seq<Item<K, V>>, ops: seq<Op<K, V>>) {
    && (forall i :: 0 <= i < |s| ==> LastUse(ops, s[i].key) >= 0)
    && (forall i, j :: 0 <= i < j < |s| ==> LastUse(ops, s[i].key) > LastUse(ops, s[j].key))
  }

  ghost predicate Uses<K, V>(op: Op<K, V>, k: K) {
    (op.Find? || op.Create?) && op.key == k
  }

  lemma RecencySubsequence<K, V>(s: seq<Item<K, V>>, i: nat, p: seq<Op<K, V>>, op: Op<K, V>)
    requires ByRecency(s, p) && i < |s|
    requires forall j :: 0 <= j < |s| && j != i ==> !Uses(op, s[j].key)
    ensures ByRecency(Without(s, i), p + [op])
  {
    hide LastUse;
    LastUseExtends(p, op);
  }

  lemma LastUseExtends<K, V>(p: seq<Op<K, V>>, op: Op<K, V>)
    ensures forall k :: LastUse(p + [op], k) == if Uses(op, k) then |p| else LastUse(p, k)
  {
    assert (p + [op])[..|p|] == p;
  }

  lemma RecencySame<K, V>(s: seq<Item<K, V>>, t: seq<Item<K, V>>, p: seq<Op<K, V>>, op: Op<K, V>)
    requires ByRecency(s, p) && |t| <= |s| && forall i :: 0 <= i < |t| ==> t[i].key == s[i].key
    requires forall j :: 0 <= j < |t| ==> !Uses(op, t[j].key)
    ensures ByRecency(t, p + [op])
  {
    LastUseExtends(p, op);
  }

  lemma RecencyPush<K, V>(s: seq<Item<K, V>>, e: Item<K, V>, p: seq<Op<K, V>>, op: Op<K, V>)
    requires ByRecency(s, p + [op]) && Uses(op, e.key)
    requires forall j :: 0 <= j < |s| ==> !Uses(op, s[j].key)
    ensures ByRecency([e] + s, p + [op])
  {
    LastUseExtends(p, op);
  }

  lemma UseKeepsRecency<K, V>(cfg: Config, s: seq<Item<K, V>>, p: seq<Op<K, V>>, op: Op<K, V>)
    requires Shaped(s) && ByRecency(s, p) && (op.Find? || op.Create?)
    ensures ByRecency(Apply(cfg, s, op).items, p + [op])
  {
    if Has(s, op.key) {
      var i := IndexOf(s, op.key);
      ShapeWithout(s, i);
      RecencySubsequence(s, i, p, op);
      RecencyPush(Without(s, i), Stamp(cfg, s[i], op.now), p, op);
    } else {
      RecencySame(s, s, p, op);
      if op.Create? {
        RecencyPush(s, Stamp(cfg, Fresh<K, V>(op.key), op.now), p, op);
      }
    }
  }

  lemma StepKeepsRecency<K, V>(cfg: Config, s: seq<Item<K, V>>, p: seq<Op<K, V>>, op: Op<K, V>)
    requires Shaped(s) && ByRecency(s, p)
    ensures ByRecency(Apply(cfg, s, op).items, p + [op])
  {
    hide LastUse; hide Evict; hide PurgeTail; hide Live;
    var t := Apply(cfg, s, op).items;
    match op
    case Find(k, at) => UseKeepsRecency(cfg, s, p, op);
    case Create(k, at) => UseKeepsRecency(cfg, s, p, op);
    case SetValue(k, v, size) =>
      if Has(s, k) {
        var i := IndexOf(s, k);
        EvictIsPrefix(s[i := s[i].(value := Some(v), size := size)], k, cfg.maxSize);
      }
      RecencySame(s, t, p, op);
    case FlushEntry(k) =>
      if Has(s, k) { RecencySubsequence(s, IndexOf(s, k), p, op); } else { RecencySame(s, t, p, op); }
    case Purge(at) =>
      PurgeIsPrefix(s, at.Plus(-cfg.timeout));
      RecencySame(s, t, p, op);
    case UnsetValue(k) => RecencySame(s, t, p, op);
    case Flush => RecencySame(s, t, p, op);
  }

  /** After any history the list is in order of most recent find or create. */
  lemma {:induction false} ListOrderIsRecency<K, V>(cfg: Config, ops: seq<Op<K, V>>)
    ensures ByRecency(Run(cfg, ops).items, ops)
  {
    if ops == [] {
    } else {
      var p, op := ops[..|ops| - 1], ops[|ops| - 1];
      ListOrderIsRecency(cfg, p);
      RunKeepsShape(cfg, p);
      assert ops == p + [op];
      StepKeepsRecency(cfg, Run(cfg, p).items, p, op);
    }
  }

  // ----- conservation of values -----

  /** The values a call hands over to the cache. */
  ghost function Given<K, V>(s: seq<Item<K, V>>, op: Op<K, V>): seq<V> {
    if op.SetValue? && Has(s, op.key) then [op.value] else []
  }

  /** All values handed over during a history. */
  ghost function Stored<K, V>(cfg: Config, ops: seq<Op<K, V>>): seq<V> {
    if ops == [] then []
    else
      var p := ops[..|ops| - 1];
      Stored(cfg, p) + Given(Run(cfg, p).items, ops[|ops| - 1])
  }

  lemma TotalWithout<K, V>(s: seq<Item<K, V>>, i: nat)
    requires i < |s|
    ensures Total(Without(s, i)) == Total(s) - s[i].size
  {
    AtIndex(s, i);
  }

  lemma TotalUpdate<K, V>(s: seq<Item<K, V>>, i: nat, e: Item<K, V>)
    requires i < |s|
    ensures Total(s[i := e]) == Total(s) - s[i].size + e.size
  {
    var t := s[i := e];
    assert t[..i] == s[..i] && t[i + 1..] == s[i + 1..];
    AtIndex(s, i);
    AtIndex(t, i);
  }

  lemma LiveUpdate<K, V>(s: seq<Item<K, V>>, i: nat, e: Item<K, V>)
    requires i < |s|
    ensures multiset(Live(s[i := e])) + multiset(Held(s[i])) == multiset(Live(s)) + multiset(Held(e))
  {
    var t := s[i := e];
    assert t[..i] == s[..i] && t[i + 1..] == s[i + 1..];
    AtIndex(s, i);
    AtIndex(t, i);
  }

  lemma TotalToFront<K, V>(cfg: Config, s: seq<Item<K, V>>, i: nat, now: Time)
    requires i < |s|
    ensures Total(ToFront(cfg, s, i, now)) == Total(s)
  {
    var e := Stamp(cfg, s[i], now);
    AtIndex(s, i);
    TotalSplit([e], Without(s, i));
    TotalSingle(e);
  }

  lemma LiveToFront<K, V>(cfg: Config, s: seq<Item<K, V>>, i: nat, now: Time)
    requires i < |s|
    ensures multiset(Live(ToFront(cfg, s, i, now))) == multiset(Live(s))
  {
    var e := Stamp(cfg, s[i], now);
    AtIndex(s, i);
    LiveSplit([e], Without(s, i));
    TotalSingle(e);
    Rotate(Live(s[..i]), Held(s[i]), Live(s[i + 1..]));
  }

  lemma Rotate<V>(a: seq<V>, b: seq<V>, c: seq<V>)
    ensures multiset(a + b + c) == multiset(b + (a + c))
  {
  }

  /** No value is lost or duplicated: what was live, or was handed over, is afterwards
      live or has been freed. */
  ghost predicate Balanced<V>(live: seq<V>, given: seq<V>, live': seq<V>, freed: seq<V>) {
    multiset(live) + multiset(given) == multiset(live') + multiset(freed)
  }

  /** Dropping entry `i` and freeing its value keeps a balance. */
  lemma BalanceSteps<K, V>(live: seq<V>, given: seq<V>, s: seq<Item<K, V>>, freed: seq<V>, i: nat)
    requires i < |s| && Balanced(live, given, Live(s), freed)
    ensures Balanced(live, given, Live(Without(s, i)), freed + Held(s[i]))
  {
    AtIndex(s, i);
  }

  lemma SetConserves<K, V>(cfg: Config, s: seq<Item<K, V>>, k: K, v: V, size: nat)
    requires Has(s, k)
    ensures var r := Apply(cfg, s, SetValue(k, v, size));
            Balanced(Live(s), [v], Live(r.items), r.freed)
  {
    var i := IndexOf(s, k);
    var e := s[i].(value := Some(v), size := size);
    var t := s[i := e];
    assert Held(e) == [v];
    LiveUpdate(s, i, e);
    if cfg.maxSize == 0 {
      assert Apply(cfg, s, SetValue(k, v, size)) == Change(t, Held(s[i]));
    } else {
      var r := Evict(t, k, cfg.maxSize);
      assert Apply(cfg, s, SetValue(k, v, size)) == Change(r.items, Held(s[i]) + r.freed);
      EvictConserves(t, k, cfg.maxSize);
      FreedTogether(Live(s), Held(s[i]), [v], Live(t), Live(r.items), r.freed);
    }
  }

  lemma FreedTogether<V>(live: seq<V>, old_: seq<V>, new_: seq<V>, live1: seq<V>, live2: seq<V>, freed: seq<V>)
    requires multiset(live1) + multiset(old_) == multiset(live) + multiset(new_)
    requires multiset(live1) == multiset(live2) + multiset(freed)
    ensures Balanced(live, new_, live2, old_ + freed)
  {
  }

  lemma UseConserves<K, V>(cfg: Config, s: seq<Item<K, V>>, op: Op<K, V>)
    requires op.Find? || op.Create?
    ensures var r := Apply(cfg, s, op);
            Balanced(Live(s), [], Live(r.items), r.freed)
  {
    if Has(s, op.key) {
      LiveToFront(cfg, s, IndexOf(s, op.key), op.now);
    } else if op.Create? {
      var e := Stamp(cfg, Fresh<K, V>(op.key), op.now);
      LiveSplit([e], s);
      TotalSingle(e);
    }
  }

  lemma DropConserves<K, V>(cfg: Config, s: seq<Item<K, V>>, op: Op<K, V>)
    requires op.UnsetValue? || op.FlushEntry?
    ensures var r := Apply(cfg, s, op);
            Balanced(Live(s), [], Live(r.items), r.freed)
  {
    if Has(s, op.key) {
      var i := IndexOf(s, op.key);
      if op.UnsetValue? {
        LiveUpdate(s, i, Cleared(s[i]));
      } else {
        AtIndex(s, i);
      }
    }
  }

  lemma PurgeBalances<K, V>(cfg: Config, s: seq<Item<K, V>>, now: Time)
    ensures var r := Apply(cfg, s, Purge(now));
            Balanced(Live(s), [], Live(r.items), r.freed)
  {
    hide Live; hide PurgeTail;
    if cfg.timeout > 0 {
      var r := PurgeTail(s, now.Plus(-cfg.timeout));
      PurgeConserves(s, now.Plus(-cfg.timeout));
      NothingGiven(Live(s), Live(r.items), r.freed);
    }
  }

  lemma NothingGiven<V>(live: seq<V>, live': seq<V>, freed: seq<V>)
    requires multiset(live) == multiset(live') + multiset(freed)
    ensures Balanced(live, [], live', freed)
  {
  }

  /** Every call keeps the balance of values. */
  lemma StepConserves<K, V>(cfg: Config, s: seq<Item<K, V>>, op: Op<K, V>)
    ensures var r := Apply(cfg, s, op);
            Balanced(Live(s), Given(s, op), Live(r.items), r.freed)
  {
    match op
    case Find(_, _) => UseConserves(cfg, s, op);
    case Create(_, _) => UseConserves(cfg, s, op);
    case UnsetValue(_) => DropConserves(cfg, s, op);
    case FlushEntry(_) => DropConserves(cfg, s, op);
    case SetValue(k, v, size) =>
      if Has(s, k) { SetConserves(cfg, s, k, v, size); }
    case Flush =>
    case Purge(now) => PurgeBalances(cfg, s, now);
  }

  /** Over any history every value handed to the cache is live exactly as often as it has
      been stored and not yet freed: the free proc runs exactly once per value given up. */
  lemma {:induction false} ValuesAreConserved<K, V>(cfg: Config, ops: seq<Op<K, V>>)
    ensures var r := Run(cfg, ops);
            multiset(Stored(cfg, ops)) == multiset(Live(r.items)) + multiset(r.freed)
  {
    if ops == [] {
    } else {
      var p, op := ops[..|ops| - 1], ops[|ops| - 1];
      var s, r := Run(cfg, p), Apply(cfg, Run(cfg, p).items, op);
      ValuesAreConserved(cfg, p);
      StepConserves(cfg, s.items, op);
      Accumulate(Stored(cfg, p), Given(s.items, op), s.freed, r.freed, Live(s.items), Live(r.items));
    }
  }

  lemma Accumulate<V>(stored: seq<V>, given: seq<V>, freed: seq<V>, freeing: seq<V>,
                      live: seq<V>, live': seq<V>)
    requires multiset(stored) == multiset(live) + multiset(freed)
    requires Balanced(live, given, live', freeing)
    ensures multiset(stored + given) == multiset(live') + multiset(freed + freeing)
  {
    calc {
      multiset(stored + given);
      multiset(stored) + multiset(given);
      multiset(live) + multiset(given) + multiset(freed);
      multiset(live') + multiset(freeing) + multiset(freed);
      multiset(live') + multiset(freed + freeing);
    }
  }
}
