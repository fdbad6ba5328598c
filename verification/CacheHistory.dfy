/** What a call does to the entries after any history of calls. */
module CacheHistory {
  import opened Common
  import opened CacheSpec
  import opened CacheLaws

  // ----- storing a value -----

  /** The entries once the value of `k` has been stored, before any is evicted. */
  ghost function Stored<K, V>(s: seq<Item<K, V>>, k: K, v: V, size: nat): (t: seq<Item<K, V>>)
    requires Has(s, k)
  {
    s[IndexOf(s, k) := s[IndexOf(s, k)].(value := Some(v), size := size)]
  }

  /** `items` is the longest beginning of `t` that is within maxSize, or that ends with entry `i`
      if none that has this one is; a cache that is not sized keeps all. */
  ghost predicate Kept<K, V>(t: seq<Item<K, V>>, i: nat, maxSize: nat, items: seq<Item<K, V>>) {
    if maxSize == 0 then items == t
    else
      && items <= t && i < |items| && (Total(items) <= maxSize || |items| == i + 1)
      && forall m :: |items| < m <= |t| ==> Total(t[..m]) > maxSize
  }

  /** Storing a value in a sized cache keeps as much of it as fits, the entry itself whatever its
      size, and frees the old value and those of the entries cut off, each once. */
  lemma SetEvicts<K, V>(cfg: Config, s: seq<Item<K, V>>, k: K, v: V, size: nat)
    requires Distinct(s) && Has(s, k)
    ensures var t, r := Stored(s, k, v, size), Apply(cfg, s, SetValue(k, v, size));
            && Kept(t, IndexOf(s, k), cfg.maxSize, r.items) && |r.items| <= |t|
            && multiset(r.freed) == multiset(Held(s[IndexOf(s, k)])) + multiset(Live(t[|r.items|..]))
  {
    hide Evict; hide Live; hide Total;
    var i, t := IndexOf(s, k), Stored(s, k, v, size);
    StoredKeys(s, k, v, size);
    if cfg.maxSize > 0 {
      var r := Evict(t, k, cfg.maxSize);
      EvictionIsExact(t, k, cfg.maxSize);
      SumOf(Held(s[i]), r.freed);
    } else {
      NoneLive(t);
    }
  }

  lemma StoredKeys<K, V>(s: seq<Item<K, V>>, k: K, v: V, size: nat)
    requires Distinct(s) && Has(s, k)
    ensures var t := Stored(s, k, v, size); Distinct(t) && Has(t, k) && IndexOf(t, k) == IndexOf(s, k)
  {
    FindsIt(Stored(s, k, v, size), IndexOf(s, k));
  }

  lemma NoneLive<K, V>(t: seq<Item<K, V>>)
    ensures Live(t[|t|..]) == []
  {
  }

  /** So it is after every history of calls. */
  lemma RunEvicts<K, V>(cfg: Config, ops: seq<Op<K, V>>, k: K, v: V, size: nat)
    requires Has(Run(cfg, ops).items, k)
    ensures var s, r := Run(cfg, ops), Run(cfg, ops + [SetValue(k, v, size)]);
            var t := Stored(s.items, k, v, size);
            && Kept(t, IndexOf(s.items, k), cfg.maxSize, r.items) && |r.items| <= |t|
            && multiset(r.freed)
                 == multiset(s.freed) + multiset(Held(s.items[IndexOf(s.items, k)])) + multiset(Live(t[|r.items|..]))
  {
    hide Evict; hide Live; hide Total; hide Kept; hide Apply;
    var s := Run(cfg, ops);
    RunKeepsShape(cfg, ops);
    SetEvicts(cfg, s.items, k, v, size);
    assert (ops + [SetValue(k, v, size)])[..|ops|] == ops;
    SumOf(s.freed, Apply(cfg, s.items, SetValue(k, v, size)).freed);
  }

  // ----- the time of an entry -----

  /** In a timed cache an entry's mtime is the time of its latest find or create; in another it
      is never set. */
  ghost predicate Stamped<K, V>(cfg: Config, s: seq<Item<K, V>>, ops: seq<Op<K, V>>) {
    forall i :: 0 <= i < |s| ==>
      var u := LastUse(ops, s[i].key);
      u >= 0 && s[i].mtime == if cfg.timeout > 0 then ops[u].now else Time(0, 0)
  }

  /** Entry `j` of `t` is one of `s`, and is not used. */
  ghost predicate Stays<K, V>(s: seq<Item<K, V>>, t: seq<Item<K, V>>, j: nat, op: Op<K, V>)
    requires j < |t|
  {
    !Uses(op, t[j].key) && exists i :: 0 <= i < |s| && s[i].key == t[j].key && s[i].mtime == t[j].mtime
  }

  /** It is used now. */
  ghost predicate Renewed<K, V>(cfg: Config, s: seq<Item<K, V>>, t: seq<Item<K, V>>, j: nat, op: Op<K, V>)
    requires j < |t|
  {
    && Uses(op, t[j].key)
    && if cfg.timeout > 0 then t[j].mtime == op.now
       else t[j].mtime == Time(0, 0) || exists i :: 0 <= i < |s| && s[i].key == t[j].key && s[i].mtime == t[j].mtime
  }

  lemma OneStamp<K, V>(cfg: Config, s: seq<Item<K, V>>, t: seq<Item<K, V>>, p: seq<Op<K, V>>, op: Op<K, V>)
    requires Stamped(cfg, s, p) && forall j: nat :: j < |t| ==> Stays(s, t, j, op) || Renewed(cfg, s, t, j, op)
    ensures Stamped(cfg, t, p + [op])
  {
    LastUseExtends(p, op);
    hide LastUse;
    forall j | 0 <= j < |t|
      ensures var u := LastUse(p + [op], t[j].key);
              u >= 0 && t[j].mtime == if cfg.timeout > 0 then (p + [op])[u].now else Time(0, 0)
    {
      assert Stays(s, t, j, op) || Renewed(cfg, s, t, j, op);
    }
  }

  lemma UseStamps<K, V>(cfg: Config, s: seq<Item<K, V>>, op: Op<K, V>, j: nat)
    requires Shaped(s) && (op.Find? || op.Create?) && j < |Apply(cfg, s, op).items|
    ensures var t := Apply(cfg, s, op).items; Stays(s, t, j, op) || Renewed(cfg, s, t, j, op)
  {
    var t, i := Apply(cfg, s, op).items, IndexOf(s, op.key);
    if Has(s, op.key) {
      ShapeWithout(s, i);
      if j > 0 {
        assert t[j] == s[if j - 1 < i then j - 1 else j];
      }
    } else if op.Create? {
      if j > 0 { assert t[j] == s[j - 1]; }
    } else {
      assert t[j] == s[j];
    }
  }

  lemma StepStamps<K, V>(cfg: Config, s: seq<Item<K, V>>, p: seq<Op<K, V>>, op: Op<K, V>)
    requires Shaped(s) && Stamped(cfg, s, p)
    ensures Stamped(cfg, Apply(cfg, s, op).items, p + [op])
  {
    hide Stamped; hide Evict; hide PurgeTail; hide Live;
    var t := Apply(cfg, s, op).items;
    forall j: nat | j < |t| ensures Stays(s, t, j, op) || Renewed(cfg, s, t, j, op) {
      if op.Find? || op.Create? {
        UseStamps(cfg, s, op, j);
      } else {
        OtherCallKeeps(cfg, s, op, j);
      }
    }
    OneStamp(cfg, s, t, p, op);
  }

  lemma OtherCallKeeps<K, V>(cfg: Config, s: seq<Item<K, V>>, op: Op<K, V>, j: nat)
    requires !op.Find? && !op.Create? && j < |Apply(cfg, s, op).items|
    ensures Stays(s, Apply(cfg, s, op).items, j, op)
  {
    hide Evict; hide PurgeTail; hide Live;
    var t := Apply(cfg, s, op).items;
    match op {
      case SetValue(k, v, size) =>
        if Has(s, k) {
          EvictIsPrefix(Stored(s, k, v, size), k, cfg.maxSize);
        }
        assert s[j].key == t[j].key;
      case FlushEntry(k) =>
        assert t[j] == s[if j < IndexOf(s, k) then j else j + 1];
      case Purge(at) =>
        PurgeIsPrefix(s, at.Plus(-cfg.timeout));
        assert s[j] == t[j];
      case UnsetValue(k) => assert s[j].key == t[j].key;
      case Flush =>
    }
  }

  /** After any history every entry has the time it was last used at. */
  lemma {:induction false} TimeIsLastUse<K, V>(cfg: Config, ops: seq<Op<K, V>>)
    ensures Stamped(cfg, Run(cfg, ops).items, ops)
  {
    if ops != [] {
      var p, op := ops[..|ops| - 1], ops[|ops| - 1];
      TimeIsLastUse(cfg, p);
      RunKeepsShape(cfg, p);
      assert ops == p + [op];
      StepStamps(cfg, Run(cfg, p).items, p, op);
    }
  }
}
