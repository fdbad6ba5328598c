/** Deleting nodes from linked lists in place (nsd/lisp.c). */
module ListDelete {
  import opened ListSpec
  import opened Lists

  /** The nodes the test is true of, or not. */
  function Hit<T>(elem: T, equal: (T, T) -> bool): Node<T> -> bool {
    (x: Node<T>) => equal(elem, x.first)
  }

  function Miss<T>(elem: T, equal: (T, T) -> bool): Node<T> -> bool {
    (x: Node<T>) => !equal(elem, x.first)
  }

  /** `a` then `b` is one list; `last` is the end of `a`, or NULL for the variable `l`. */
  ghost predicate At<T>(l: Node?<T>, last: Node?<T>, a: seq<Node<T>>, b: seq<Node<T>>)
    reads (a + b)`rest
  {
    Linked(a + b) && l == Head(a + b) && last == (if a == [] then null else a[|a| - 1])
  }

  lemma SomeLeft<T>(s: seq<Node<T>>, i: nat)
    requires i <= |s| && Head(s[i..]) != null
    ensures i < |s| && Head(s[i..]) == s[i] && s[i..] != []
  {
  }

  lemma NoneLeft<T>(s: seq<Node<T>>, i: nat)
    requires i <= |s| && Head(s[i..]) == null
    ensures s[..i] == s && s[i..] == []
  {
  }

  lemma Advance<T>(s: seq<Node<T>>, i: nat, p: Node<T> -> bool)
    requires i < |s|
    ensures s[i..][1..] == s[i + 1..] && s[i..][0] == s[i]
    ensures Filter(s[..i + 1], p) == if p(s[i]) then Filter(s[..i], p) + [s[i]] else Filter(s[..i], p)
  {
    assert s[..i + 1] == s[..i] + [s[i]];
    FilterSnoc(s[..i], s[i], p);
  }

  /** Where *lastPtrPtr points. */
  lemma NextIs<T>(l: Node?<T>, last: Node?<T>, a: seq<Node<T>>, b: seq<Node<T>>)
    requires At(l, last, a, b)
    ensures (if last == null then l else last.rest) == Head(b)
    ensures last != null ==> last in a
    ensures b != [] ==> b[0].rest == Head(b[1..]) && b[0] !in a
  {
    var s := a + b;
    if last != null {
      assert s[|a| - 1] == last;
      assert b != [] ==> s[|a|] == b[0];
    }
    if b != [] {
      assert s[|a|] == b[0];
      assert |b| > 1 ==> s[|a| + 1] == b[1];
      forall i | 0 <= i < |a| ensures a[i] != b[0] {
        assert s[i] == a[i];
      }
    }
  }

  lemma Kept<T>(l: Node?<T>, last: Node?<T>, a: seq<Node<T>>, b: seq<Node<T>>)
    requires b != [] && At(l, last, a, b)
    ensures At(l, b[0], a + [b[0]], b[1..])
  {
    assert a + b == (a + [b[0]]) + b[1..];
  }

  lemma DropOne<T>(a: seq<Node<T>>, b: seq<Node<T>>)
    requires b != [] && NoDup(a + b)
    ensures NoDup(a + b[1..])
  {
    var s, t := a + b, a + b[1..];
    forall i, j | 0 <= i < j < |t| ensures t[i] != t[j] {
      assert t[i] == s[if i < |a| then i else i + 1] && t[j] == s[if j < |a| then j else j + 1];
    }
  }

  /** *lastPtrPtr = mPtr->rest. */
  method Unlink<T>(l: Node?<T>, last: Node?<T>, m: Node<T>, ghost a: seq<Node<T>>, ghost b: seq<Node<T>>)
    returns (r: Node?<T>)
    requires b != [] && m == b[0] && At(l, last, a, b)
    modifies (if last == null then {} else {last})`rest
    ensures At(r, last, a, b[1..])
  {
    NextIs(l, last, a, b);
    DropOne(a, b);
    ghost var s, t := a + b, a + b[1..];
    r := l;
    assert forall i :: 0 <= i < |s| - 1 ==> s[i].rest == s[i + 1];
    if last == null {
      assert s == b && t == b[1..];
      r := m.rest;
    } else {
      LastTwice(a, b);
      last.rest := m.rest;
      forall i | 0 <= i < |t| - 1 ensures t[i].rest == t[i + 1] {
        if i < |a| - 1 {
          assert s[i] == t[i] && s[i + 1] == t[i + 1];
        } else if i >= |a| {
          assert s[i + 1] == t[i] && s[i + 2] == t[i + 1];
        }
      }
      assert t[|t| - 1] == if |b| > 1 then s[|s| - 1] else last;
    }
  }

  lemma LastTwice<T>(a: seq<Node<T>>, b: seq<Node<T>>)
    requires a != [] && NoDup(a + b)
    ensures forall i :: 0 <= i < |a + b| && i != |a| - 1 ==> (a + b)[i] != a[|a| - 1]
  {
    assert (a + b)[|a| - 1] == a[|a| - 1];
  }

  /** Ns_ListDeleteWithTest: the nodes whose element the test equates with `elem` are unlinked
      and freed, each once, and the others stay in order. */
  method DeleteWithTest<T>(elem: T, l: Node?<T>, equal: (T, T) -> bool, ghost s: seq<Node<T>>)
    returns (r: Node?<T>, freed: seq<Node<T>>, ghost t: seq<Node<T>>)
    requires l == Head(s) && Linked(s)
    modifies s`rest
    ensures t == Filter<Node<T>>(s, Miss(elem, equal)) && r == Head(t) && Linked(t)
    ensures freed == Filter<Node<T>>(s, Hit(elem, equal))
    ensures Deleted(s, elem, equal, t, freed)
  {
    ghost var miss: Node<T> -> bool, hit: Node<T> -> bool := Miss(elem, equal), Hit(elem, equal);
    r, freed, t := l, [], [];
    var m := l;
    var last: Node?<T> := null;
    ghost var i := 0;
    NothingDone(l, s, miss, hit);
    hide *;
    while m != null
      invariant 0 <= i <= |s| && m == Head(s[i..])
      invariant At(r, last, t, s[i..])
      invariant Sifted(s, i, miss, hit, t, freed)
      decreases |s| - i
    {
      SomeLeft(s, i);
      HitOrMiss(elem, equal, s[i]);
      SiftOne(s, i, miss, hit, t, freed);
      NextIs(r, last, t, s[i..]);
      if last != null { InList(t, last, s); }
      if equal(elem, m.first) {
        r := Unlink(r, last, m, t, s[i..]);
        freed := freed + [m];
        NextIs(r, last, t, s[i + 1..]);
        m := if last == null then r else last.rest;
      } else {
        Kept(r, last, t, s[i..]);
        last := m;
        t := t + [m];
        m := m.rest;
      }
      i := i + 1;
    }
    NoneLeft(s, i);
    AllDone(r, last, t);
    SiftedAll(s, i, miss, hit, t, freed);
    SiftedBy(elem, s, equal);
  }

  /** The first `i` nodes have been kept or freed. */
  ghost predicate Sifted<T>(s: seq<Node<T>>, i: nat, p: Node<T> -> bool, q: Node<T> -> bool, t: seq<Node<T>>,
                            freed: seq<Node<T>>)
  {
    i <= |s| && t == Filter<Node<T>>(s[..i], p) && freed == Filter<Node<T>>(s[..i], q) && Within(t, s)
  }

  lemma SiftOne<T>(s: seq<Node<T>>, i: nat, p: Node<T> -> bool, q: Node<T> -> bool, t: seq<Node<T>>,
                   freed: seq<Node<T>>)
    requires i < |s| && Sifted(s, i, p, q, t, freed) && p(s[i]) == !q(s[i])
    ensures s[i..][1..] == s[i + 1..] && s[i..][0] == s[i] && Within(t, s)
    ensures p(s[i]) ==> Sifted(s, i + 1, p, q, t + [s[i]], freed)
    ensures q(s[i]) ==> Sifted(s, i + 1, p, q, t, freed + [s[i]])
  {
    Advance(s, i, p);
    Advance(s, i, q);
    WithinOne(t, s[i], s);
    hide Filter; hide Within;
  }

  lemma SiftedAll<T>(s: seq<Node<T>>, i: nat, p: Node<T> -> bool, q: Node<T> -> bool, t: seq<Node<T>>,
                     freed: seq<Node<T>>)
    requires Sifted(s, i, p, q, t, freed) && i <= |s| && s[..i] == s
    ensures t == Filter<Node<T>>(s, p) && freed == Filter<Node<T>>(s, q)
  {
  }

  lemma NothingDone<T>(l: Node?<T>, s: seq<Node<T>>, p: Node<T> -> bool, q: Node<T> -> bool)
    requires l == Head(s) && Linked(s)
    ensures s[0..] == s && At(l, null, [], s[0..]) && Sifted(s, 0, p, q, [], [])
  {
    assert [] + s[0..] == s;
  }

  lemma AllDone<T>(r: Node?<T>, last: Node?<T>, t: seq<Node<T>>)
    requires At(r, last, t, [])
    ensures r == Head(t) && Linked(t)
  {
    assert t + [] == t;
  }

  lemma InList<T>(t: seq<Node<T>>, x: Node<T>, s: seq<Node<T>>)
    requires Within(t, s) && x in t
    ensures x in s
  {
  }

  /** Just the nodes equated with `elem` are freed, and the others are left in order. */
  ghost predicate Deleted<T>(s: seq<Node<T>>, elem: T, equal: (T, T) -> bool, t: seq<Node<T>>, freed: seq<Node<T>>) {
    && Within(t, s) && Within(freed, s)
    && (forall x :: x in s ==> (x in freed <==> equal(elem, x.first)) && (x in t <==> !equal(elem, x.first)))
    && (forall x, y :: x in t && y in t ==> (Precedes<Node<T>>(t, x, y) <==> Precedes<Node<T>>(s, x, y)))
  }

  lemma SiftedBy<T>(elem: T, s: seq<Node<T>>, equal: (T, T) -> bool)
    ensures Deleted(s, elem, equal, Filter<Node<T>>(s, Miss(elem, equal)), Filter<Node<T>>(s, Hit(elem, equal)))
  {
    var t := Filter<Node<T>>(s, Miss(elem, equal));
    hide Precedes;
    forall x, y | x in t && y in t ensures Precedes<Node<T>>(t, x, y) <==> Precedes<Node<T>>(s, x, y) {
      FilterPrecedes<Node<T>>(s, Miss(elem, equal), x, y);
    }
  }

  lemma HitOrMiss<T>(elem: T, equal: (T, T) -> bool, x: Node<T>)
    ensures Hit(elem, equal)(x) == equal(elem, x.first) && Miss(elem, equal)(x) == !equal(elem, x.first)
  {
  }

  // ----- duplicates -----

  /** Each node kept takes all later ones it equates with away. */
  function Unique<T>(s: seq<Node<T>>, equal: (T, T) -> bool): (r: seq<Node<T>>)
    decreases |s|
  {
    if s == [] then [] else [s[0]] + Unique(Filter<Node<T>>(s[1..], Miss(s[0].first, equal)), equal)
  }

  lemma {:induction false} UniqueWithin<T>(s: seq<Node<T>>, equal: (T, T) -> bool)
    ensures Within(Unique(s, equal), s)
    decreases |s|
  {
    if s != [] {
      var t := Filter<Node<T>>(s[1..], Miss(s[0].first, equal));
      UniqueWithin(t, equal);
      var u := Unique(t, equal);
      forall i | 0 <= i < |u| ensures u[i] in s {
        assert u[i] in t;
        assert u[i] in s[1..];
      }
    }
  }

  ghost predicate NoTwins<T>(u: seq<Node<T>>, equal: (T, T) -> bool) {
    forall i, j :: 0 <= i < j < |u| ==> !equal(u[i].first, u[j].first)
  }

  lemma NoTwinsCons<T>(x: Node<T>, u: seq<Node<T>>, equal: (T, T) -> bool)
    requires NoTwins(u, equal) && forall j :: 0 <= j < |u| ==> !equal(x.first, u[j].first)
    ensures NoTwins([x] + u, equal)
  {
  }

  /** No node left is equated with a later one. */
  lemma {:induction false} UniqueHasNoTwins<T>(s: seq<Node<T>>, equal: (T, T) -> bool)
    ensures NoTwins(Unique(s, equal), equal)
    decreases |s|
  {
    if s != [] {
      var t := Filter<Node<T>>(s[1..], Miss(s[0].first, equal));
      var u := Unique(t, equal);
      UniqueHasNoTwins(t, equal);
      UniqueWithin(t, equal);
      forall j | 0 <= j < |u| ensures !equal(s[0].first, u[j].first) {
        assert u[j] in t;
        HitOrMiss(s[0].first, equal, u[j]);
      }
      NoTwinsCons(s[0], u, equal);
    }
  }

  /** The node is in `u`, or equated with one that is. */
  ghost predicate Stands<T>(u: seq<Node<T>>, x: Node<T>, equal: (T, T) -> bool) {
    exists k :: 0 <= k < |u| && (u[k] == x || equal(u[k].first, x.first))
  }

  lemma StandsCons<T>(y: Node<T>, u: seq<Node<T>>, x: Node<T>, equal: (T, T) -> bool)
    requires y == x || equal(y.first, x.first) || Stands(u, x, equal)
    ensures Stands([y] + u, x, equal)
  {
    var v := [y] + u;
    if y == x || equal(y.first, x.first) {
      assert v[0] == y;
    } else {
      var k :| 0 <= k < |u| && (u[k] == x || equal(u[k].first, x.first));
      assert v[k + 1] == u[k];
    }
  }

  /** Every node of the list is left, or equated with one that is: only twins went. */
  lemma {:induction false} UniqueCovers<T>(s: seq<Node<T>>, equal: (T, T) -> bool, i: nat)
    requires i < |s|
    ensures Stands(Unique(s, equal), s[i], equal)
    decreases |s|
  {
    var t := Filter<Node<T>>(s[1..], Miss(s[0].first, equal));
    if i != 0 && !equal(s[0].first, s[i].first) {
      assert s[i] == s[1..][i - 1];
      HitOrMiss(s[0].first, equal, s[i]);
      assert s[i] in t;
      var j :| 0 <= j < |t| && t[j] == s[i];
      UniqueCovers(t, equal, j);
    }
    StandsCons(s[0], Unique(t, equal), s[i], equal);
  }

  /** Which nodes are left: those that no node left before them is equated with. */
  lemma {:induction false} UniqueIsFirst<T>(s: seq<Node<T>>, equal: (T, T) -> bool, x: Node<T>)
    requires x in s && Distinct<Node<T>>(s)
    ensures x in Unique(s, equal)
       <==> forall y :: y in Unique(s, equal) && Precedes<Node<T>>(s, y, x) ==> !equal(y.first, x.first)
    decreases |s|
  {
    var z, p := s[0], Miss(s[0].first, equal);
    var t := Filter<Node<T>>(s[1..], p);
    var u := Unique(t, equal);
    UniqueWithin(t, equal);
    FilteredRest<Node<T>>(s, p);
    HitOrMiss(z.first, equal, x);
    assert Unique(s, equal) == [z] + u && z in [z] + u;
    assert x in t <==> x != z && !equal(z.first, x.first);
    hide Filter; hide Precedes; hide Distinct; hide Unique; hide Miss;
    if x in t {
      UniqueIsFirst(t, equal, x);
      assert forall y :: y in u ==> y in t;
    } else if x != z {
      assert Precedes<Node<T>>(s, z, x);
    }
  }

  /** And they stay in order. */
  lemma {:induction false} UniqueKeepsOrder<T>(s: seq<Node<T>>, equal: (T, T) -> bool, x: Node<T>, y: Node<T>)
    requires Precedes<Node<T>>(Unique(s, equal), x, y)
    ensures Precedes<Node<T>>(s, x, y)
    decreases |s|
  {
    var p := Miss(s[0].first, equal);
    var t := Filter<Node<T>>(s[1..], p);
    var u := Unique(t, equal);
    assert Unique(s, equal) == [s[0]] + u;
    PrecedesCons<Node<T>>([s[0]] + u, x, y);
    assert ([s[0]] + u)[1..] == u;
    PrecedesCons<Node<T>>(s, x, y);
    if Precedes<Node<T>>(u, x, y) {
      UniqueKeepsOrder(t, equal, x, y);
      FilterPrecedes<Node<T>>(s[1..], p, x, y);
    } else {
      UniqueWithin(t, equal);
      assert y in t;
    }
  }

  /** Ns_ListDeleteDuplicates. */
  method DeleteDuplicates<T>(l: Node?<T>, equal: (T, T) -> bool, ghost s: seq<Node<T>>)
    returns (r: Node?<T>, ghost t: seq<Node<T>>)
    requires l == Head(s) && Linked(s)
    modifies s`rest
    ensures t == Unique(s, equal) && r == Head(t) && Linked(t)
  {
    r := l;
    var cur := l;
    ghost var a: seq<Node<T>>, b := [], s;
    assert a + b == s;
    while cur != null
      invariant cur == Head(b) && Linked(a + b) && r == Head(a + b)
      invariant a + Unique(b, equal) == Unique(s, equal)
      invariant Within(a + b, s)
      decreases |b|
    {
      cur, a, b := ThinRest(cur, equal, a, b, s);
    }
    t := a;
    assert a + b == a && a + [] == a;
  }

  lemma InWhole<T>(a: seq<Node<T>>, b: seq<Node<T>>, s: seq<Node<T>>)
    requires forall i :: 0 <= i < |a + b| ==> (a + b)[i] in s
    ensures forall i :: 0 <= i < |b| ==> b[i] in s
    ensures forall i :: 0 <= i < |a| ==> a[i] in s
  {
    forall i | 0 <= i < |b| ensures b[i] in s {
      assert b[i] == (a + b)[|a| + i];
    }
    forall i | 0 <= i < |a| ensures a[i] in s {
      assert a[i] == (a + b)[i];
    }
  }

  lemma Parts<T>(a: seq<Node<T>>, b: seq<Node<T>>)
    ensures forall i :: 0 <= i < |b| ==> b[i] == (a + b)[|a| + i]
    ensures forall i :: 0 <= i < |a| ==> a[i] == (a + b)[i]
  {
  }

  lemma DistinctParts<T>(a: seq<Node<T>>, b: seq<Node<T>>)
    requires b != [] && NoDup(a + b)
    ensures NoDup(a) && NoDup(b) && b[0] !in b[1..] && b[0] !in a && forall i :: 0 <= i < |a| ==> a[i] !in b
  {
    Parts(a, b);
    forall i | 0 <= i < |a| ensures a[i] !in b {
      forall j | 0 <= j < |b| ensures a[i] != b[j] {
        assert (a + b)[i] != (a + b)[|a| + j];
      }
    }
    forall i, j | 0 <= i < j < |b| ensures b[i] != b[j] {
      assert (a + b)[|a| + i] != (a + b)[|a| + j];
    }
  }

  lemma LinkedTail<T>(a: seq<Node<T>>, b: seq<Node<T>>)
    requires b != [] && Linked(a + b)
    ensures Linked(b) && b[0] !in b[1..] && b[0] !in a
    ensures forall i :: 0 <= i < |a| ==> a[i] !in b
    ensures Chained(a) && NoDup(a) && (a != [] ==> a[|a| - 1].rest == b[0])
  {
    var s, n := a + b, |a|;
    DistinctParts(a, b);
    forall i | 0 <= i < |b| - 1 ensures b[i].rest == b[i + 1] {
      assert s[n + i] == b[i] && s[n + i + 1] == b[i + 1];
      assert s[n + i].rest == s[n + i + 1];
    }
    assert s[|s| - 1] == b[|b| - 1];
    hide NoDup;
    forall i | 0 <= i < |a| - 1 ensures a[i].rest == a[i + 1] {
      assert s[i] == a[i] && s[i + 1] == a[i + 1];
    }
    if a != [] {
      assert s[n - 1] == a[n - 1] && s[n] == b[0];
      assert s[n - 1].rest == s[n];
    }
  }

  /** The list can be continued with `x` and then `t`. */
  ghost predicate Open<T>(a: seq<Node<T>>, x: Node<T>, t: seq<Node<T>>)
    reads a`rest
  {
    && Chained(a) && NoDup(a) && (a != [] ==> a[|a| - 1].rest == x)
    && x !in a && x !in t && forall i :: 0 <= i < |t| ==> t[i] !in a
  }

  lemma Rejoin<T>(a: seq<Node<T>>, x: Node<T>, t: seq<Node<T>>)
    requires Open(a, x, t) && Linked(t) && x.rest == Head(t)
    ensures Linked((a + [x]) + t)
  {
    var s, n := (a + [x]) + t, |a|;
    assert s[n] == x;
    assert forall i :: 0 <= i < n ==> s[i] == a[i];
    assert forall i :: 0 <= i < |t| ==> s[n + 1 + i] == t[i];
    forall i | 0 <= i < |s| - 1 ensures s[i].rest == s[i + 1] {
      if i < n {
        assert s[i] == a[i];
      } else if i > n {
        assert s[i] == t[i - n - 1] && s[i + 1] == t[i - n];
      }
    }
    forall i, j | 0 <= i < j < |s| ensures s[i] != s[j] {
      if j > n {
        assert s[j] == t[j - n - 1];
      }
    }
  }

  /** One turn: lPtr->rest = Ns_ListDeleteWithTest(lPtr->first, lPtr->rest). */
  method ThinRest<T>(cur: Node<T>, equal: (T, T) -> bool, ghost a: seq<Node<T>>, ghost b: seq<Node<T>>,
                     ghost s: seq<Node<T>>)
    returns (next: Node?<T>, ghost a': seq<Node<T>>, ghost b': seq<Node<T>>)
    requires b != [] && cur == b[0] && Linked(a + b) && Within(a + b, s)
    modifies s`rest
    ensures a' == a + [cur] && b' == Filter<Node<T>>(b[1..], Miss(cur.first, equal)) && |b'| < |b|
    ensures next == Head(b') && Linked(a' + b') && Head(a' + b') == Head(a + b)
    ensures Within(a' + b', s)
    ensures a' + Unique(b', equal) == a + Unique(b, equal)
  {
    ThinFacts(a, b, s, equal);
    hide *;
    b' := Thin(cur, equal, b);
    a' := a + [cur];
    Rejoin(a, cur, b');
    next := cur.rest;
  }

  method Thin<T>(cur: Node<T>, equal: (T, T) -> bool, ghost b: seq<Node<T>>) returns (ghost t: seq<Node<T>>)
    requires b != [] && cur == b[0] && Linked(b)
    modifies b`rest
    ensures t == Filter<Node<T>>(b[1..], Miss(cur.first, equal)) && Linked(t) && cur.rest == Head(t)
  {
    LinkedRest(b);
    PartsWithin(b[1..], Miss(cur.first, equal));
    InRest(b);
    hide *;
    var rest, freed;
    rest, freed, t := DeleteWithTest(cur.first, cur.rest, equal, b[1..]);
    NotIn(cur, t, b[1..]);
    cur.rest := rest;
  }

  lemma InRest<T>(b: seq<Node<T>>)
    requires b != []
    ensures b[0] in b && forall i :: 0 <= i < |b[1..]| ==> b[1..][i] in b
  {
  }

  lemma NotIn<T>(x: Node<T>, t: seq<Node<T>>, s: seq<Node<T>>)
    requires Within(t, s) && x !in s
    ensures x !in t
  {
  }

  /** What is known before the rest of the list is thinned out. */
  lemma ThinFacts<T>(a: seq<Node<T>>, b: seq<Node<T>>, s: seq<Node<T>>, equal: (T, T) -> bool)
    requires b != [] && Linked(a + b) && Within(a + b, s)
    ensures Linked(b)
    ensures forall i :: 0 <= i < |a| ==> a[i] !in b
    ensures forall i :: 0 <= i < |b| ==> b[i] in s
    ensures var t := Filter<Node<T>>(b[1..], Miss(b[0].first, equal));
            && |t| < |b| && Open(a, b[0], t)
            && Within((a + [b[0]]) + t, s)
            && (a + [b[0]]) + Unique(t, equal) == a + Unique(b, equal)
            && Head((a + [b[0]]) + t) == Head(a + b)
  {
    LinkedTail(a, b);
    InWhole(a, b, s);
    UniqueStep(a, b, equal);
    FilteredApart(a, b, s, Miss(b[0].first, equal));
    hide Filter; hide Unique; hide Linked; hide Chained; hide NoDup;
    HeadStays(a, b, Filter<Node<T>>(b[1..], Miss(b[0].first, equal)));
  }

  lemma HeadStays<T>(a: seq<Node<T>>, b: seq<Node<T>>, t: seq<Node<T>>)
    requires b != []
    ensures Head((a + [b[0]]) + t) == Head(a + b)
  {
  }

  lemma UniqueStep<T>(a: seq<Node<T>>, b: seq<Node<T>>, equal: (T, T) -> bool)
    requires b != []
    ensures (a + [b[0]]) + Unique(Filter<Node<T>>(b[1..], Miss(b[0].first, equal)), equal) == a + Unique(b, equal)
  {
  }

  lemma FilteredApart<T>(a: seq<Node<T>>, b: seq<Node<T>>, s: seq<Node<T>>, p: Node<T> -> bool)
    requires b != [] && b[0] !in b[1..]
    requires (forall i :: 0 <= i < |b| ==> b[i] in s) && (forall i :: 0 <= i < |a| ==> a[i] in s)
    requires forall i :: 0 <= i < |a| ==> a[i] !in b
    ensures var t := Filter<Node<T>>(b[1..], p);
            && |t| < |b| && b[0] !in t
            && (forall i :: 0 <= i < |t| ==> t[i] !in a)
            && Within((a + [b[0]]) + t, s)
    ensures forall i :: 0 <= i < |b[1..]| ==> b[1..][i] in s
    ensures forall i :: 0 <= i < |a| ==> a[i] !in b[1..]
  {
    var t := Filter<Node<T>>(b[1..], p);
    forall i | 0 <= i < |t| ensures t[i] in b && t[i] in s && t[i] !in a {
      assert t[i] in t;
      assert t[i] in b[1..];
    }
  }
}
