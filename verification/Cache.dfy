/** The cache of nsd/cache.c as it is built: entries in a doubly linked list, least
    recently used last, and in a hash table. Every call refines CacheSpec.Apply. */
module Cache {
  import opened Common
  import opened CacheSpec
  import CacheLaws

  class Entry<K, V> {
    var nextPtr: Entry?<K, V>
    var prevPtr: Entry?<K, V>
    const key: K
    var mtime: Time
    var size: nat
    var value: Option<V>

    /** ns_calloc of a new entry. */
    constructor (key: K)
      ensures this.key == key && mtime == Time(0, 0) && size == 0 && value == None
    {
      this.key := key;
      mtime, size, value := Time(0, 0), 0, None;
      nextPtr, prevPtr := null, null;
    }

    ghost function Abs(): Item<K, V>
      reads this`mtime, this`size, this`value
    {
      Item(key, value, size, mtime)
    }
  }

  /** The links form one list from `first` to `last` that holds exactly `es`, in order. */
  ghost predicate Linked<K, V>(first: Entry?<K, V>, last: Entry?<K, V>, es: seq<Entry<K, V>>)
    reads es`nextPtr, es`prevPtr
  {
    && (forall i, j :: 0 <= i < j < |es| ==> es[i] != es[j])
    && first == (if es == [] then null else es[0])
    && last == (if es == [] then null else es[|es| - 1])
    && (forall i {:trigger es[i].nextPtr} :: 0 <= i < |es| ==>
          es[i].nextPtr == if i + 1 < |es| then es[i + 1] else null)
    && (forall i {:trigger es[i].prevPtr} :: 0 <= i < |es| ==>
          es[i].prevPtr == if i > 0 then es[i - 1] else null)
  }

  ghost function EntryAt<K, V>(es: seq<Entry<K, V>>, i: int): Entry?<K, V> {
    if 0 <= i < |es| then es[i] else null
  }

  lemma LinkedAt<K, V>(first: Entry?<K, V>, last: Entry?<K, V>, es: seq<Entry<K, V>>)
    requires Linked(first, last, es)
    ensures first == EntryAt(es, 0) && last == EntryAt(es, |es| - 1)
    ensures forall j, k :: 0 <= j < k < |es| ==> es[j] != es[k]
    ensures forall j {:trigger es[j].nextPtr} :: 0 <= j < |es| ==> es[j].nextPtr == EntryAt(es, j + 1)
    ensures forall j {:trigger es[j].prevPtr} :: 0 <= j < |es| ==> es[j].prevPtr == EntryAt(es, j - 1)
  {
  }

  /** The links pass over entry `i`. */
  lemma LinkedWithout<K, V>(first: Entry?<K, V>, last: Entry?<K, V>, es: seq<Entry<K, V>>, i: nat)
    requires i < |es| && forall j, k :: 0 <= j < k < |es| ==> es[j] != es[k]
    requires first == EntryAt(es, if i == 0 then 1 else 0)
    requires last == EntryAt(es, if i == |es| - 1 then |es| - 2 else |es| - 1)
    requires forall j {:trigger es[j].nextPtr} :: 0 <= j < |es| && j != i ==>
               es[j].nextPtr == EntryAt(es, if j + 1 == i then i + 1 else j + 1)
    requires forall j {:trigger es[j].prevPtr} :: 0 <= j < |es| && j != i ==>
               es[j].prevPtr == EntryAt(es, if j - 1 == i then i - 1 else j - 1)
    ensures Linked(first, last, Without(es, i)) && es[i] !in Without(es, i)
  {
    var t := Without(es, i);
    forall j {:trigger t[j].nextPtr} | 0 <= j < |t| ensures t[j].nextPtr == if j + 1 < |t| then t[j + 1] else null {
      assert t[j] == es[if j < i then j else j + 1];
    }
    forall j {:trigger t[j].prevPtr} | 0 <= j < |t| ensures t[j].prevPtr == if j > 0 then t[j - 1] else null {
      assert t[j] == es[if j < i then j else j + 1];
    }
  }

  lemma LinkedOnce<K, V>(first: Entry?<K, V>, last: Entry?<K, V>, es: seq<Entry<K, V>>, i: nat)
    requires Linked(first, last, es) && i < |es|
    ensures forall j :: 0 <= j < |es| && j != i ==> es[j] != es[i]
  {
  }

  /** `s` is what the entries hold. */
  ghost predicate Holds<K, V>(es: seq<Entry<K, V>>, s: seq<Item<K, V>>)
    reads es`mtime, es`size, es`value
  {
    |es| == |s| && forall i :: 0 <= i < |es| ==> s[i] == es[i].Abs()
  }

  lemma HoldsAt<K, V>(es: seq<Entry<K, V>>, s: seq<Item<K, V>>, i: nat)
    requires Holds(es, s) && i < |es|
    ensures |s| == |es| && s[i].size == es[i].size
  {
  }

  lemma HoldsMoved<K, V>(cfg: Config, es: seq<Entry<K, V>>, s: seq<Item<K, V>>, i: nat, now: Time)
    requires i < |es| == |s|
    requires forall j :: 0 <= j < |es| && j != i ==> s[j] == es[j].Abs()
    requires es[i].Abs() == Stamp(cfg, s[i], now)
    ensures Holds([es[i]] + Without(es, i), ToFront(cfg, s, i, now))
  {
  }

  /** The hash table holds exactly the entries `es`, each under its own key. */
  ghost predicate Tabled<K, V>(table: map<K, Entry<K, V>>, es: seq<Entry<K, V>>) {
    && (forall i :: 0 <= i < |es| ==> es[i].key in table && table[es[i].key] == es[i])
    && (forall k :: k in table ==> table[k] in es && table[k].key == k)
  }

  lemma TabledSame<K, V>(table: map<K, Entry<K, V>>, es: seq<Entry<K, V>>, i: nat)
    requires Tabled(table, es) && i < |es|
    ensures Tabled(table, [es[i]] + Without(es, i))
  {
    forall k | k in table ensures table[k] in [es[i]] + Without(es, i) {
      var j :| 0 <= j < |es| && es[j] == table[k];
      if j != i {
        assert Without(es, i)[if j < i then j else j - 1] == es[j];
      }
    }
  }

  lemma TabledNew<K, V>(table: map<K, Entry<K, V>>, es: seq<Entry<K, V>>, e: Entry<K, V>)
    requires Tabled(table, es) && e.key !in table
    ensures Tabled(table[e.key := e], [e] + es)
  {
  }

  lemma HoldsNew<K, V>(es: seq<Entry<K, V>>, s: seq<Item<K, V>>, e: Entry<K, V>)
    requires Holds(es, s)
    ensures Holds([e] + es, [e.Abs()] + s)
  {
  }

  lemma TabledWithout<K, V>(table: map<K, Entry<K, V>>, es: seq<Entry<K, V>>, i: nat)
    requires Tabled(table, es) && i < |es|
    requires forall j :: 0 <= j < |es| && j != i ==> es[j] != es[i]
    ensures Tabled(table - {es[i].key}, Without(es, i))
  {
    forall k | k in table - {es[i].key} ensures table[k] in Without(es, i) {
      var j :| 0 <= j < |es| && es[j] == table[k];
      assert Without(es, i)[if j < i then j else j - 1] == es[j];
    }
  }

  lemma HoldsUpdate<K, V>(es: seq<Entry<K, V>>, s: seq<Item<K, V>>, i: nat)
    requires i < |es| == |s|
    requires forall j :: 0 <= j < |es| && j != i ==> s[j] == es[j].Abs()
    ensures Holds(es, s[i := es[i].Abs()])
  {
  }

  lemma HoldsWithout<K, V>(es: seq<Entry<K, V>>, s: seq<Item<K, V>>, i: nat)
    requires Holds(es, s) && i < |es|
    ensures Holds(Without(es, i), Without(s, i))
  {
  }

  lemma TableFinds<K, V>(table: map<K, Entry<K, V>>, es: seq<Entry<K, V>>, s: seq<Item<K, V>>, k: K)
    requires Tabled(table, es) && Holds(es, s) && CacheLaws.Shaped(s)
    ensures k in table <==> Has(s, k)
    ensures k in table ==> IndexOf(s, k) < |es| && es[IndexOf(s, k)] == table[k] && table[k].key == k
  {
    assert Has(s, k) ==> es[IndexOf(s, k)].key == k;
    if k in table {
      var i :| 0 <= i < |es| && es[i] == table[k];
      assert s[i].key == k;
      CacheLaws.FindsIt(s, i);
    }
  }

  lemma FrontMembers<K, V>(es: seq<Entry<K, V>>, i: nat)
    requires i < |es|
    ensures var r := [es[i]] + Without(es, i); forall j :: 0 <= j < |r| ==> r[j] in es
  {
  }

  lemma WithoutIn<K, V>(es: seq<Entry<K, V>>, i: nat)
    requires i < |es|
    ensures forall j :: 0 <= j < |es| - 1 ==> Without(es, i)[j] in es
  {
  }

  class Cache<K(==), V> {
    var firstEntryPtr: Entry?<K, V>
    var lastEntryPtr: Entry?<K, V>
    var entriesTable: map<K, Entry<K, V>>
    const timeout: int
    const maxSize: nat
    var currentSize: nat
    var nhit: nat
    var nmiss: nat
    var nflush: nat
    /** The linked entries, most recently used first, and what they hold. */
    ghost var entries: seq<Entry<K, V>>
    ghost var contents: seq<Item<K, V>>
    /** The values handed to the free proc so far. */
    var freed: seq<V>

    ghost function Cfg(): Config {
      Config(maxSize, timeout)
    }

    /** List and table agree; nothing is said of currentSize. */
    ghost predicate Joined()
      reads this, entries
    {
      && Linked(firstEntryPtr, lastEntryPtr, entries)
      && Tabled(entriesTable, entries)
      && Holds(entries, contents)
      && CacheLaws.Shaped(contents)
    }

    ghost predicate Valid()
      reads this, entries
    {
      Joined() && currentSize == Total(contents)
    }

    lemma Parts()
      ensures Joined() <==>
                && Linked(firstEntryPtr, lastEntryPtr, entries) && Tabled(entriesTable, entries)
                && Holds(entries, contents) && CacheLaws.Shaped(contents)
    {
    }

    constructor (timeout: int, maxSize: nat)
      ensures Valid() && contents == [] && freed == []
      ensures Cfg() == Config(maxSize, timeout)
    {
      this.timeout, this.maxSize := timeout, maxSize;
      firstEntryPtr, lastEntryPtr, entriesTable := null, null, map[];
      currentSize, nhit, nmiss, nflush := 0, 0, 0, 0;
      freed, entries, contents := [], [], [];
    }

    /** Unlinks `e`. */
    method Delink(e: Entry<K, V>, ghost i: nat)
      requires Linked(firstEntryPtr, lastEntryPtr, entries) && i < |entries| && entries[i] == e
      modifies this`firstEntryPtr, this`lastEntryPtr, this`entries, entries`nextPtr, entries`prevPtr
      ensures entries == Without(old(entries), i) && e !in entries
      ensures Linked(firstEntryPtr, lastEntryPtr, entries)
    {
      hide Linked;
      LinkedAt(firstEntryPtr, lastEntryPtr, entries);
      if e.prevPtr != null {
        e.prevPtr.nextPtr := e.nextPtr;
      } else {
        firstEntryPtr := e.nextPtr;
      }
      if e.nextPtr != null {
        e.nextPtr.prevPtr := e.prevPtr;
      } else {
        lastEntryPtr := e.prevPtr;
      }
      e.prevPtr, e.nextPtr := null, null;
      LinkedWithout(firstEntryPtr, lastEntryPtr, entries, i);
      entries := Without(entries, i);
    }

    /** Links `e` in front and, in a timed cache, stamps it with the current time. */
    method Push(e: Entry<K, V>, now: Time)
      requires Linked(firstEntryPtr, lastEntryPtr, entries) && e !in entries
      modifies this`firstEntryPtr, this`lastEntryPtr, this`entries, entries`prevPtr, e`nextPtr, e`prevPtr, e`mtime
      ensures entries == [e] + old(entries)
      ensures Linked(firstEntryPtr, lastEntryPtr, entries)
      ensures e.mtime == if timeout > 0 then now else old(e.mtime)
    {
      if timeout > 0 {
        e.mtime := now;
      }
      if firstEntryPtr != null {
        firstEntryPtr.prevPtr := e;
      }
      e.prevPtr := null;
      e.nextPtr := firstEntryPtr;
      firstEntryPtr := e;
      if lastEntryPtr == null {
        lastEntryPtr := e;
      }
      entries := [e] + entries;
    }

    /** Delink then Push. */
    method Relink(e: Entry<K, V>, ghost i: nat, now: Time)
      requires Linked(firstEntryPtr, lastEntryPtr, entries) && i < |entries| && entries[i] == e
      modifies this`firstEntryPtr, this`lastEntryPtr, this`entries
      modifies entries`nextPtr, entries`prevPtr, e`mtime
      ensures Linked(firstEntryPtr, lastEntryPtr, entries)
      ensures entries == [e] + Without(old(entries), i)
      ensures e.mtime == if timeout > 0 then now else old(e.mtime)
    {
      Delink(e, i);
      Push(e, now);
    }

    /** The entry at `i` becomes the most recently used. */
    method MoveToFront(e: Entry<K, V>, ghost i: nat, now: Time)
      requires Valid() && i < |entries| && entries[i] == e
      modifies this`firstEntryPtr, this`lastEntryPtr, this`entries, this`contents
      modifies entries`nextPtr, entries`prevPtr, e`mtime
      ensures Valid() && contents == ToFront(Cfg(), old(contents), i, now)
      ensures entries == [e] + Without(old(entries), i)
      ensures forall j :: 0 <= j < |entries| ==> entries[j] in old(entries)
    {
      hide Linked; hide Tabled; hide CacheLaws.Shaped; hide Total; hide ToFront;
      FrontMembers(entries, i);
      ghost var s, es := contents, entries;
      LinkedOnce(firstEntryPtr, lastEntryPtr, es, i);
      TabledSame(entriesTable, es, i);
      CacheLaws.ShapeToFront(Cfg(), s, i, now);
      CacheLaws.TotalToFront(Cfg(), s, i, now);
      contents := ToFront(Cfg(), s, i, now);
      Relink(e, i, now);
      HoldsMoved(Cfg(), es, s, i, now);
      assert entries == [es[i]] + Without(es, i);
    }

    /** Ns_CacheFindEntry: NULL unless the key is present, else the entry, now in front. */
    method FindEntry(key: K, now: Time) returns (e: Entry?<K, V>)
      requires Valid()
      modifies this, entries
      ensures Valid()
      ensures contents == Apply(Cfg(), old(contents), CacheSpec.Find(key, now)).items && freed == old(freed)
      ensures e != null <==> Has(old(contents), key)
      ensures forall j :: 0 <= j < |entries| ==> entries[j] in old(entries)
      ensures e != null ==> |entries| > 0 && entries[0] == e && e.key == key
      ensures nhit + nmiss == old(nhit + nmiss) + 1 && (e == null <==> nmiss == old(nmiss) + 1)
    {
      hide Linked; hide Tabled; hide CacheLaws.Shaped; hide Total; hide ToFront;
      TableFinds(entriesTable, entries, contents, key);
      if key !in entriesTable {
        nmiss := nmiss + 1;
        return null;
      }
      nhit := nhit + 1;
      e := entriesTable[key];
      MoveToFront(e, IndexOf(contents, key), now);
    }

    /** Enters and links a newly allocated entry. */
    method Insert(e: Entry<K, V>, now: Time)
      requires Valid() && e !in entries && !Has(contents, e.key) && e.Abs() == Fresh(e.key)
      modifies this`firstEntryPtr, this`lastEntryPtr, this`entries, this`contents, this`entriesTable
      modifies entries`prevPtr, e`nextPtr, e`prevPtr, e`mtime
      ensures Valid() && contents == [Stamp(Cfg(), Fresh(e.key), now)] + old(contents)
      ensures entries == [e] + old(entries)
    {
      hide Linked; hide Tabled; hide CacheLaws.Shaped; hide Total;
      ghost var es, s, x := entries, contents, Stamp(Cfg(), Fresh<K, V>(e.key), now);
      TableFinds(entriesTable, es, s, e.key);
      TabledNew(entriesTable, es, e);
      CacheLaws.ShapePush(s, x);
      CacheLaws.TotalSplit([x], s);
      CacheLaws.TotalSingle(x);
      entriesTable := entriesTable[e.key := e];
      contents := [x] + s;
      Push(e, now);
      HoldsNew(es, s, e);
    }

    /** Ns_CacheCreateEntry: the entry of `key`, now in front, made first when `isNew`. */
    method CreateEntry(key: K, now: Time) returns (e: Entry<K, V>, isNew: bool)
      requires Valid()
      modifies this, entries
      ensures Valid()
      ensures contents == Apply(Cfg(), old(contents), CacheSpec.Create(key, now)).items && freed == old(freed)
      ensures isNew <==> !Has(old(contents), key)
      ensures |entries| > 0 && entries[0] == e && e.key == key
      ensures isNew ==> fresh(e) && entries == [e] + old(entries)
      ensures forall j :: 0 <= j < |entries| ==> fresh(entries[j]) || entries[j] in old(entries)
      ensures nhit + nmiss == old(nhit + nmiss) + 1 && (isNew <==> nmiss == old(nmiss) + 1)
    {
      hide Linked; hide Tabled; hide CacheLaws.Shaped; hide Total; hide ToFront; hide Holds;
      TableFinds(entriesTable, entries, contents, key);
      isNew := key !in entriesTable;
      if !isNew {
        e := entriesTable[key];
        nhit := nhit + 1;
        MoveToFront(e, IndexOf(contents, key), now);
      } else {
        e := new Entry(key);
        nmiss := nmiss + 1;
        Insert(e, now);
      }
    }

    /** Ns_CacheUnsetValue: a value there is goes to the free proc. */
    method UnsetValue(e: Entry<K, V>, ghost i: nat)
      requires Valid() && i < |entries| && entries[i] == e
      modifies this`currentSize, this`freed, this`contents, e`size, e`value
      ensures Valid() && e.value == None
      ensures contents == old(contents)[i := Cleared(old(contents)[i])]
      ensures freed == old(freed) + Held(old(contents)[i])
    {
      hide Linked; hide Tabled; hide CacheLaws.Shaped; hide Total;
      ghost var s, c := contents, Cleared(contents[i]);
      assert s[i] == e.Abs();
      LinkedOnce(firstEntryPtr, lastEntryPtr, entries, i);
      CacheLaws.TotalUpdate(s, i, c);
      CacheLaws.ShapeCleared(s, i);
      if e.value != None {
        currentSize := currentSize - e.size;
        freed := freed + [e.value.value];
        e.size := 0;
        e.value := None;
      }
      contents := s[i := c];
      assert e.Abs() == c;
      HoldsUpdate(entries, s, i);
      assert currentSize == Total(contents);
    }

    /** Ns_CacheDeleteEntry: a value there is stays unfreed, and counted in currentSize. */
    method DeleteEntry(e: Entry<K, V>, ghost i: nat)
      requires Joined() && i < |entries| && entries[i] == e
      modifies this`firstEntryPtr, this`lastEntryPtr, this`entries, this`contents, this`entriesTable
      modifies entries`nextPtr, entries`prevPtr
      ensures Joined() && currentSize - Total(contents) == old(currentSize - Total(contents)) + e.size
      ensures contents == Without(old(contents), i) && entries == Without(old(entries), i)
    {
      hide Linked; hide Tabled; hide Total; hide CacheLaws.Shaped; hide Holds; hide Joined;
      Parts();
      ghost var es, s := entries, contents;
      HoldsAt(es, s, i);
      LinkedOnce(firstEntryPtr, lastEntryPtr, es, i);
      TabledWithout(entriesTable, es, i);
      CacheLaws.ShapeWithout(s, i);
      CacheLaws.TotalWithout(s, i);
      Delink(e, i);
      entriesTable := entriesTable - {e.key};
      HoldsWithout(es, s, i);
      contents := Without(s, i);
      Parts();
    }

    /** What an entry without a value counts for. */
    lemma Unsized(i: nat)
      requires Joined() && i < |entries| && entries[i].value == None
      ensures entries[i].size == 0
    {
      assert contents[i] == entries[i].Abs();
    }

    /** Ns_CacheFlushEntry: unset, then delete. */
    method FlushEntry(e: Entry<K, V>, ghost i: nat)
      requires Valid() && i < |entries| && entries[i] == e
      modifies this, entries
      ensures Valid() && entries == Without(old(entries), i)
      ensures contents == Without(old(contents), i) && freed == old(freed) + Held(old(contents)[i])
      ensures contents == Apply(Cfg(), old(contents), CacheSpec.FlushEntry(e.key)).items
      ensures freed == old(freed) + Apply(Cfg(), old(contents), CacheSpec.FlushEntry(e.key)).freed
      ensures nflush == old(nflush) + 1
      ensures e.key == old(contents)[i].key
    {
      hide Linked; hide Tabled; hide Total;
      ghost var s := contents;
      CacheLaws.FindsIt(s, i);
      nflush := nflush + 1;
      UnsetValue(e, i);
      Unsized(i);
      DeleteEntry(e, i);
      assert contents == Without(s, i);
    }

    /** Stores a value in an entry that has none. */
    method Store(e: Entry<K, V>, ghost i: nat, value: V, size: nat)
      requires Valid() && i < |entries| && entries[i] == e && e.value == None
      modifies this`currentSize, this`contents, e`size, e`value
      ensures Valid()
      ensures contents == old(contents)[i := old(contents)[i].(value := Some(value), size := size)]
    {
      hide Linked; hide Tabled; hide CacheLaws.Shaped; hide Total;
      ghost var s, x := contents, contents[i].(value := Some(value), size := size);
      assert s[i] == e.Abs();
      LinkedOnce(firstEntryPtr, lastEntryPtr, entries, i);
      CacheLaws.ShapeCleared(s, i);
      CacheLaws.ShapeUpdate(s, i, x);
      CacheLaws.TotalUpdate(s, i, x);
      e.value := Some(value);
      e.size := size;
      currentSize := currentSize + size;
      contents := s[i := x];
      assert e.Abs() == x;
      HoldsUpdate(entries, s, i);
      assert currentSize == Total(contents);
    }

    /** What the list tail says about the abstract value. */
    lemma LastEntry()
      requires Valid()
      ensures |entries| == |contents| && currentSize == Total(contents)
      ensures lastEntryPtr == null <==> entries == []
      ensures entries != [] ==> lastEntryPtr == entries[|entries| - 1]
      ensures entries != [] ==> contents[|entries| - 1] == lastEntryPtr.Abs()
    {
    }

    lemma SameKeySameEntry(i: nat, j: nat)
      requires Valid() && i < |entries| && j < |entries|
      ensures |contents| == |entries| && contents[i].key == entries[i].key
      ensures entries[i] == entries[j] <==> contents[i].key == contents[j].key
    {
    }

    lemma TableIsList()
      requires Valid()
      ensures |contents| == |entries|
      ensures entriesTable == map[] ==> contents == []
      ensures forall k :: k in entriesTable ==> entriesTable[k] in entries
    {
      assert entries != [] ==> entries[0].key in entriesTable;
    }

    /** Flushes the least recently used entry. */
    method FlushLast()
      requires Valid() && lastEntryPtr != null
      modifies this, entries
      ensures Valid() && old(entries) != [] && |old(entries)| == |old(contents)|
      ensures entries == old(entries)[..|old(entries)| - 1]
      ensures contents == old(contents)[..|old(entries)| - 1]
      ensures freed == old(freed) + Held(old(contents)[|old(entries)| - 1])
    {
      hide Linked; hide Tabled; hide Holds; hide CacheLaws.Shaped; hide Total; hide Valid;
      LastEntry();
      ghost var n := |entries| - 1;
      assert Without(contents, n) == contents[..n];
      assert Without(entries, n) == entries[..n];
      FlushEntry(lastEntryPtr, n);
    }

    /** The eviction loop of Ns_CacheSetValueSz. */
    method Prune(e: Entry<K, V>, ghost i: nat)
      requires Valid() && i < |entries| && entries[i] == e
      modifies this, entries
      ensures Valid() && i < |entries| && entries[i] == e
      ensures contents == Evict(old(contents), e.key, maxSize).items
      ensures freed == old(freed) + Evict(old(contents), e.key, maxSize).freed
      ensures currentSize <= maxSize || lastEntryPtr == e
    {
      hide Linked; hide Tabled; hide CacheLaws.Shaped; hide Total; hide Valid; hide Evict;
      ghost var s, f := contents, freed;
      LastEntry();
      while currentSize > maxSize && lastEntryPtr != e
        invariant Valid() && i < |entries| && entries[i] == e
        invariant entries <= old(entries) && |entries| == |contents|
        invariant currentSize == Total(contents) && lastEntryPtr == entries[|entries| - 1]
        invariant Evict(s, e.key, maxSize).items == Evict(contents, e.key, maxSize).items
        invariant f + Evict(s, e.key, maxSize).freed == freed + Evict(contents, e.key, maxSize).freed
        decreases |entries|
      {
        LastEntry();
        SameKeySameEntry(i, |entries| - 1);
        CacheLaws.EvictOne(contents, e.key, maxSize, freed);
        FlushLast();
        LastEntry();
      }
      SameKeySameEntry(i, |entries| - 1);
      CacheLaws.EvictNone(contents, e.key, maxSize);
    }

    /** Ns_CacheSetValueSz. */
    method SetValueSz(e: Entry<K, V>, ghost i: nat, value: V, size: nat)
      requires Valid() && i < |entries| && entries[i] == e
      modifies this, entries
      ensures Valid() && i < |entries| && entries[i] == e
      ensures contents == Apply(Cfg(), old(contents), CacheSpec.SetValue(e.key, value, size)).items
      ensures freed == old(freed) + Apply(Cfg(), old(contents), CacheSpec.SetValue(e.key, value, size)).freed
      ensures maxSize > 0 ==> currentSize <= maxSize || lastEntryPtr == e
    {
      hide Linked; hide Tabled; hide Total; hide Evict; hide Joined; hide Holds; hide Valid;
      hide Without;
      KeyAt(i);
      ghost var s := contents;
      CacheLaws.FindsIt(s, i);
      UnsetValue(e, i);
      Store(e, i, value, size);
      assert contents == s[i := s[i].(value := Some(value), size := size)];
      if maxSize > 0 {
        Prune(e, i);
      }
    }

    lemma KeyAt(i: nat)
      requires Valid() && i < |entries|
      ensures |contents| == |entries| && contents[i].key == entries[i].key && CacheLaws.Shaped(contents)
    {
    }

    /** Flushes an entry of the hash table, whichever comes first. */
    method FlushAny(ghost live: seq<V>, ghost given: seq<V>)
      requires Valid() && entriesTable != map[] && CacheLaws.Balanced(live, given, Live(contents), freed)
      modifies this, entries
      ensures Valid() && |entries| < |old(entries)|
      ensures forall j :: 0 <= j < |entries| ==> entries[j] in old(entries)
      ensures CacheLaws.Balanced(live, given, Live(contents), freed)
    {
      hide Linked; hide Tabled; hide Holds; hide CacheLaws.Shaped; hide Total; hide Valid; hide CacheLaws.Balanced;
      hide Live;
      TableIsList();
      var k :| k in entriesTable;
      var e := entriesTable[k];
      ghost var i :| 0 <= i < |entries| && entries[i] == e;
      CacheLaws.BalanceSteps(live, given, contents, freed, i);
      WithoutIn(entries, i);
      FlushEntry(e, i);
    }

    /** Ns_CacheFlush walks the hash table, whose order is unspecified. */
    method Flush()
      requires Valid()
      modifies this, entries
      ensures Valid() && contents == []
      ensures CacheLaws.Balanced(Live(old(contents)), old(freed), [], freed)
    {
      hide Linked; hide Tabled; hide Holds; hide CacheLaws.Shaped; hide Total; hide Valid;
      ghost var s, f := contents, freed;
      TableIsList();
      while entriesTable != map[]
        invariant Valid()
        invariant forall j :: 0 <= j < |entries| ==> entries[j] in old(entries)
        invariant entriesTable == map[] ==> contents == []
        invariant CacheLaws.Balanced(Live(s), f, Live(contents), freed)
        decreases |entries|
      {
        FlushAny(Live(s), f);
        TableIsList();
      }
    }

    /** NsCachePurge, when not stopped. */
    method Purge(now: Time)
      requires Valid() && timeout > 0
      modifies this, entries
      ensures Valid()
      ensures contents == Apply(Cfg(), old(contents), CacheSpec.Purge(now)).items
      ensures freed == old(freed) + Apply(Cfg(), old(contents), CacheSpec.Purge(now)).freed
    {
      hide Linked; hide Tabled; hide CacheLaws.Shaped; hide Total; hide Valid; hide PurgeTail;
      var expired := now.Plus(-timeout);
      LastEntry();
      ghost var s, f := contents, freed;
      while lastEntryPtr != null
        invariant Valid()
        invariant entries <= old(entries)
        invariant lastEntryPtr == null <==> entries == []
        invariant PurgeTail(s, expired).items == PurgeTail(contents, expired).items
        invariant f + PurgeTail(s, expired).freed == freed + PurgeTail(contents, expired).freed
        decreases |entries|
      {
        LastEntry();
        var e := lastEntryPtr;
        if e.mtime.sec > expired.sec {
          break;
        }
        if e.mtime.sec == expired.sec && e.mtime.usec > expired.usec {
          break;
        }
        CacheLaws.PurgeOne(contents, expired, freed);
        FlushLast();
        LastEntry();
      }
      LastEntry();
      CacheLaws.PurgeNone(contents, expired);
    }
  }
}
