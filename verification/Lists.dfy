/** Linked lists and their in-place sorts (nsd/lisp.c). */
module Lists {
  import opened ListSpec

  class Node<T> {
    const first: T
    const weight: real
    var rest: Node?<T>

    constructor (first: T, weight: real, rest: Node?<T>)
      ensures this.first == first && this.weight == weight && this.rest == rest
    {
      this.first, this.weight, this.rest := first, weight, rest;
    }
  }

  ghost predicate NoDup<T>(s: seq<Node<T>>) {
    forall i, j :: 0 <= i < j < |s| ==> s[i] != s[j]
  }

  function Head<T>(s: seq<Node<T>>): Node?<T> {
    if s == [] then null else s[0]
  }

  /** Each node but the last links to the next; where the last one does may be stale. */
  ghost predicate Chained<T>(s: seq<Node<T>>)
    reads s`rest
  {
    forall i :: 0 <= i < |s| - 1 ==> s[i].rest == s[i + 1]
  }

  /** `s` are the nodes of a proper list: distinct, linked, and ended by NULL. */
  ghost predicate Linked<T>(s: seq<Node<T>>)
    reads s`rest
  {
    NoDup(s) && Chained(s) && (s != [] ==> s[|s| - 1].rest == null)
  }

  /** Ns_ListNconc: the second list is appended to the first. */
  method Nconc<T>(l1: Node?<T>, l2: Node?<T>, ghost s1: seq<Node<T>>, ghost s2: seq<Node<T>>) returns (r: Node?<T>)
    requires l1 == Head(s1) && l2 == Head(s2) && Linked(s1) && Linked(s2) && NoDup(s1 + s2)
    modifies (if s1 == [] then {} else {s1[|s1| - 1]})`rest
    ensures r == Head(s1 + s2) && Linked(s1 + s2)
  {
    if l1 == null {
      assert s1 + s2 == s2;
      return l2;
    }
    var p: Node<T> := l1;
    ghost var i := 0;
    while p.rest != null
      invariant i < |s1| && p == s1[i]
      decreases |s1| - i
    {
      p, i := p.rest, i + 1;
    }
    LinkIsNext(s1, i);
    Apart(s1, s2);
    p.rest := l2;
    JoinedChain(s1, s2);
    return l1;
  }

  lemma LinkIsNext<T>(s: seq<Node<T>>, i: nat)
    requires Linked(s) && i < |s|
    ensures s[i].rest == null <==> i == |s| - 1
  {
    if i < |s| - 1 {
      var next: Node<T> := s[i + 1];
    }
  }

  lemma BeforeOrAfter<T>(le: (T, T) -> bool, axis: T, x: T)
    ensures Before(le, axis)(x) == le(x, axis) && After(le, axis)(x) == !le(x, axis)
  {
  }

  lemma Apart<T>(s1: seq<Node<T>>, s2: seq<Node<T>>)
    requires NoDup(s1 + s2)
    ensures forall i, j :: 0 <= i < |s1| && 0 <= j < |s2| ==> s1[i] != s2[j]
  {
    forall i, j | 0 <= i < |s1| && 0 <= j < |s2| ensures s1[i] != s2[j] {
      assert (s1 + s2)[i] == s1[i] && (s1 + s2)[|s1| + j] == s2[j];
    }
  }

  lemma JoinedChain<T>(s1: seq<Node<T>>, s2: seq<Node<T>>)
    requires Chained(s1) && Chained(s2) && s1 != [] && s1[|s1| - 1].rest == Head(s2)
    ensures Chained(s1 + s2)
  {
  }

  /** Ns_ListNreverse. */
  method Nreverse<T>(l: Node?<T>, ghost s: seq<Node<T>>) returns (r: Node?<T>)
    requires l == Head(s) && Linked(s)
    modifies s`rest
    ensures r == Head(Reversed(s)) && Linked(Reversed(s))
  {
    r := l;
    if r != null {
      var next := r.rest;
      r.rest := null;
      ghost var i := 1;
      while next != null
        invariant 1 <= i <= |s| && r == s[i - 1] && next == Head(s[i..])
        invariant forall j :: i <= j < |s| - 1 ==> s[j].rest == s[j + 1]
        invariant s[|s| - 1].rest == if i == |s| && i > 1 then s[i - 2] else null
        invariant forall j :: 0 < j < i ==> s[j].rest == s[j - 1]
        invariant s[0].rest == null
        decreases |s| - i
      {
        var nextRest := next.rest;
        next.rest := r;
        r := next;
        next := nextRest;
        i := i + 1;
      }
    }
  }

  /** A list under construction: `last` is its last node, whose link may be stale; NULL
      stands for the address of the variable `l` itself. */
  ghost predicate Building<T>(l: Node?<T>, last: Node?<T>, s: seq<Node<T>>)
    reads s`rest
  {
    && l == Head(s) && Chained(s) && NoDup(s)
    && last == (if s == [] then null else s[|s| - 1])
  }

  /** *lastPtrPtr = x; lastPtrPtr = &(x->rest). */
  method AddTail<T>(l: Node?<T>, last: Node?<T>, x: Node<T>, ghost s: seq<Node<T>>) returns (r: Node?<T>)
    requires Building(l, last, s) && x !in s
    modifies (if last == null then {} else {last})`rest
    ensures Building(r, x, s + [x])
  {
    r := l;
    if last == null {
      r := x;
    } else {
      last.rest := x;
    }
  }

  /** *lastPtrPtr = NULL. */
  method EndTail<T>(l: Node?<T>, last: Node?<T>, ghost s: seq<Node<T>>)
    requires Building(l, last, s)
    modifies (if last == null then {} else {last})`rest
    ensures l == Head(s) && Linked(s)
  {
    if last != null {
      last.rest := null;
    }
  }

  /** The nodes done and the nodes to do are all different. */
  ghost predicate Apart3<T>(ms: seq<Node<T>>, ns: seq<Node<T>>, todo: seq<Node<T>>) {
    && (forall x :: x in ms ==> x !in ns && x !in todo)
    && (forall x :: x in ns ==> x !in todo)
  }

  lemma LinkedRest<T>(s: seq<Node<T>>)
    requires s != [] && Linked(s)
    ensures Linked(s[1..]) && s[0].rest == Head(s[1..]) && s[0] !in s[1..]
  {
  }

  /** One turn of the quicksorts' loop for the node `cur`, which goes to the list `m` under
      construction; the nodes of the other list and those to come are left alone. */
  method Give<T>(cur: Node<T>, m: Node?<T>, lastM: Node?<T>, ghost ms: seq<Node<T>>, ghost n: Node?<T>,
                 ghost lastN: Node?<T>, ghost ns: seq<Node<T>>, ghost todo: seq<Node<T>>)
    returns (r: Node?<T>, next: Node?<T>)
    requires todo != [] && cur == todo[0] && Linked(todo) && Apart3(ms, ns, todo)
    requires Building(m, lastM, ms) && Building(n, lastN, ns)
    modifies (if lastM == null then {} else {lastM})`rest
    ensures Building(r, cur, ms + [cur]) && Building(n, lastN, ns)
    ensures next == Head(todo[1..]) && Linked(todo[1..])
    ensures Apart3(ms + [cur], ns, todo[1..]) && Apart3(ns, ms + [cur], todo[1..])
    ensures lastM == null || lastM in ms
  {
    LinkedRest(todo);
    LastApart(m, lastM, ms, ns, todo);
    assert forall x :: x in todo[1..] ==> x in todo;
    r := AddTail(m, lastM, cur, ms);
    next := cur.rest;
  }

  /** *lastmPtrPtr = NULL; *lastnPtrPtr = NULL. */
  method EndTails<T>(m: Node?<T>, lastM: Node?<T>, ghost ms: seq<Node<T>>, n: Node?<T>, lastN: Node?<T>,
                     ghost ns: seq<Node<T>>)
    requires Building(m, lastM, ms) && Building(n, lastN, ns) && Apart3(ms, ns, []) && Apart3(ns, ms, [])
    modifies (if lastM == null then {} else {lastM})`rest, (if lastN == null then {} else {lastN})`rest
    ensures m == Head(ms) && n == Head(ns) && Linked(ms) && Linked(ns)
  {
    hide *;
    LastApart(m, lastM, ms, ns, []);
    LastApart(n, lastN, ns, ms, []);
    EndTail(m, lastM, ms);
    EndTail(n, lastN, ns);
  }

  /** The quicksorts' loop: the nodes of the list are relinked at the tails of two lists, the
      old links being followed one step behind. `m` gets the nodes that go before the axis. */
  method Partition<T>(l: Node?<T>, axis: Node<T>, le: (Node<T>, Node<T>) -> bool, ghost s: seq<Node<T>>)
    returns (m: Node?<T>, n: Node?<T>, ghost ms: seq<Node<T>>, ghost ns: seq<Node<T>>)
    requires l == Head(s) && Linked(s)
    modifies s`rest
    ensures ms == Filter<Node<T>>(s, Before<Node<T>>(le, axis)) && ns == Filter<Node<T>>(s, After<Node<T>>(le, axis))
    ensures m == Head(ms) && n == Head(ns) && Linked(ms) && Linked(ns)
    ensures Apart3(ms, ns, [])
  {
    hide *;
    ghost var p: Node<T> -> bool, q: Node<T> -> bool := Before<Node<T>>(le, axis), After<Node<T>>(le, axis);
    m, n, ms, ns := null, null, [], [];
    var cur := l;
    var lastM: Node?<T>, lastN: Node?<T> := null, null;
    ghost var past: seq<Node<T>>, todo: seq<Node<T>> := [], s;
    NothingGiven(s, p, q);
    while cur != null
      invariant s == past + todo && cur == Head(todo) && Linked(todo)
      invariant ms == Filter(past, p) && ns == Filter(past, q)
      invariant Within(ms, s) && Within(ns, s)
      invariant Building(m, lastM, ms)
      invariant Building(n, lastN, ns)
      invariant Apart3(ms, ns, todo) && Apart3(ns, ms, todo)
      decreases |todo|
    {
      var x: Node<T> := cur;
      SomeToDo(s, past, todo);
      Classified(past, x, le, axis);
      if le(x, axis) {
        LastIn(m, lastM, ms, s);
        WithinOne(ms, x, s);
        m, cur := Give(x, m, lastM, ms, n, lastN, ns, todo);
        lastM, ms := x, ms + [x];
      } else {
        LastIn(n, lastN, ns, s);
        WithinOne(ns, x, s);
        n, cur := Give(x, n, lastN, ns, m, lastM, ms, todo);
        lastN, ns := x, ns + [x];
      }
      past, todo := past + [x], todo[1..];
    }
    NoneToDo(past, todo);
    LastIn(m, lastM, ms, s);
    LastIn(n, lastN, ns, s);
    EndTails(m, lastM, ms, n, lastN, ns);
  }

  /** The next node goes to one of the lists. */
  lemma Classified<T>(past: seq<Node<T>>, x: Node<T>, le: (Node<T>, Node<T>) -> bool, axis: Node<T>)
    ensures var p := Before<Node<T>>(le, axis);
            Filter(past + [x], p) == if le(x, axis) then Filter(past, p) + [x] else Filter(past, p)
    ensures var q := After<Node<T>>(le, axis);
            Filter(past + [x], q) == if le(x, axis) then Filter(past, q) else Filter(past, q) + [x]
  {
    hide Filter;
    BeforeOrAfter<Node<T>>(le, axis, x);
    FilterSnoc(past, x, Before<Node<T>>(le, axis));
    FilterSnoc(past, x, After<Node<T>>(le, axis));
    assert Filter(past, Before<Node<T>>(le, axis)) + [] == Filter(past, Before<Node<T>>(le, axis));
    assert Filter(past, After<Node<T>>(le, axis)) + [] == Filter(past, After<Node<T>>(le, axis));
  }

  lemma NothingGiven<T>(s: seq<Node<T>>, p: Node<T> -> bool, q: Node<T> -> bool)
    ensures [] + s == s && Filter<Node<T>>([], p) == [] && Filter<Node<T>>([], q) == []
    ensures Apart3([], [], s) && Within<Node<T>>([], s) && Building<T>(null, null, [])
  {
  }

  lemma SomeToDo<T>(s: seq<Node<T>>, past: seq<Node<T>>, todo: seq<Node<T>>)
    requires s == past + todo && Head(todo) != null
    ensures todo != [] && Head(todo) == todo[0] && todo[0] in s && s == (past + [todo[0]]) + todo[1..]
  {
  }

  lemma NoneToDo<T>(past: seq<Node<T>>, todo: seq<Node<T>>)
    requires Head(todo) == null
    ensures todo == [] && past + todo == past
  {
  }

  lemma WithinOne<T>(a: seq<Node<T>>, x: Node<T>, s: seq<Node<T>>)
    requires Within(a, s) && x in s
    ensures Within(a + [x], s)
  {
  }

  lemma LastIn<T>(l: Node?<T>, last: Node?<T>, a: seq<Node<T>>, s: seq<Node<T>>)
    requires Building(l, last, a) && Within(a, s)
    ensures last == null || last in s
  {
  }

  lemma LastApart<T>(l: Node?<T>, last: Node?<T>, a: seq<Node<T>>, b: seq<Node<T>>, todo: seq<Node<T>>)
    requires Building(l, last, a) && Apart3(a, b, todo)
    ensures last == null || (last !in b && last !in todo)
  {
  }

  // ----- the sorts -----

  /** The comparison of Ns_ListSort. */
  function ProcOrder<T>(sortProc: (T, T) -> int): (Node<T>, Node<T>) -> bool {
    (x: Node<T>, y: Node<T>) => sortProc(x.first, y.first) <= 0
  }

  /** The comparison of Ns_ListWeightSort: larger weights first. */
  function WeightOrder<T>(): (Node<T>, Node<T>) -> bool {
    (x: Node<T>, y: Node<T>) => x.weight >= y.weight
  }

  ghost predicate SameNodes<T>(a: seq<Node<T>>, b: seq<Node<T>>) {
    Within(a, b) && Within(b, a)
  }

  lemma SortedNodes<T>(s: seq<Node<T>>, le: (Node<T>, Node<T>) -> bool)
    ensures SameNodes(QuickSort<Node<T>>(s, le), s)
  {
    QuickSortElements<Node<T>>(s, le);
  }

  /** The sorted list of the nodes after the axis can be appended to it, and the nodes
      before it are elsewhere. */
  lemma AxisApart<T>(s: seq<Node<T>>, ms: seq<Node<T>>, ns: seq<Node<T>>, ts: seq<Node<T>>)
    requires s != [] && s[0] !in ms && s[0] !in ns && Apart3(ms, ns, [])
    requires SameNodes(ts, ns) && NoDup(ts)
    ensures NoDup([s[0]] + ts) && Disjoint(ms, [s[0]] + ts)
  {
    var a := [s[0]] + ts;
    forall i | 0 <= i < |ts| ensures ts[i] != s[0] && ts[i] !in ms {
      assert ts[i] in ns;
    }
    forall i, j | 0 <= i < |ms| && 0 <= j < |a| ensures ms[i] != a[j] {
      assert j > 0 ==> a[j] == ts[j - 1];
    }
  }

  ghost predicate Disjoint<T>(a: seq<Node<T>>, b: seq<Node<T>>) {
    forall i, j :: 0 <= i < |a| && 0 <= j < |b| ==> a[i] != b[j]
  }

  /** And the sorted list of those can be put before. */
  lemma AllApart<T>(ms: seq<Node<T>>, us: seq<Node<T>>, a: seq<Node<T>>)
    requires SameNodes(us, ms) && NoDup(us) && NoDup(a) && Disjoint(ms, a)
    ensures NoDup(us + a) && Disjoint(us, a)
    ensures us != [] ==> us[|us| - 1] in ms
    ensures forall i :: 0 <= i < |a| ==> a[i] !in ms
  {
    forall i, j | 0 <= i < |us| && 0 <= j < |a| ensures us[i] != a[j] {
      assert us[i] in ms;
    }
    if us != [] {
      assert us[|us| - 1] in ms;
    }
  }

  lemma WithinRest<T>(a: seq<Node<T>>, s: seq<Node<T>>)
    requires s != [] && Within(a, s[1..])
    ensures Within(a, s) && (NoDup(s) ==> s[0] !in a)
  {
    assert forall x :: x in s[1..] ==> x in s;
  }

  lemma PartsWithin<T>(s: seq<Node<T>>, p: Node<T> -> bool)
    ensures Within(Filter<Node<T>>(s, p), s)
  {
  }

  /** What is known of a list of two nodes or more before it is split. */
  lemma SplitFacts<T>(s: seq<Node<T>>, le: (Node<T>, Node<T>) -> bool)
    requires |s| > 1 && Linked(s)
    ensures Linked(s[1..]) && s[0].rest == Head(s[1..]) && s[0] !in s[1..] && Head(s) == s[0]
    ensures forall i :: 0 <= i < |s[1..]| ==> s[1..][i] in s
    ensures var ms := Filter<Node<T>>(s[1..], Before<Node<T>>(le, s[0]));
            var ns := Filter<Node<T>>(s[1..], After<Node<T>>(le, s[0]));
            && Within(ms, s) && Within(ns, s)
            && (forall i :: 0 <= i < |ms| ==> ms[i] in s && ms[i] !in ns) && (forall i :: 0 <= i < |ns| ==> ns[i] in s)
            && s[0] !in ms && s[0] !in ns && |ms| < |s| && |ns| < |s|
            && SameNodes(QuickSort<Node<T>>(ms, le), ms) && SameNodes(QuickSort<Node<T>>(ns, le), ns)
            && QuickSort<Node<T>>(s, le) == QuickSort<Node<T>>(ms, le) + [s[0]] + QuickSort<Node<T>>(ns, le)
  {
    var ms := Filter<Node<T>>(s[1..], Before<Node<T>>(le, s[0]));
    var ns := Filter<Node<T>>(s[1..], After<Node<T>>(le, s[0]));
    LinkedRest(s);
    PartsWithin(s[1..], Before<Node<T>>(le, s[0]));
    PartsWithin(s[1..], After<Node<T>>(le, s[0]));
    WithinRest(ms, s);
    WithinRest(ns, s);
    WithinRest(s[1..], s);
    forall i | 0 <= i < |ms| ensures ms[i] !in ns {
      assert ms[i] in ms;
    }
    SortedNodes(ms, le);
    SortedNodes(ns, le);
    hide Filter; hide SameNodes; hide Linked;
  }

  lemma Short<T>(w: Node?<T>, s: seq<Node<T>>, le: (Node<T>, Node<T>) -> bool)
    requires w == Head(s) && Linked(s)
    ensures w == null <==> s == []
    ensures w != null ==> w == s[0] && (w.rest == null <==> |s| == 1)
    ensures |s| <= 1 ==> QuickSort<Node<T>>(s, le) == s
  {
    if s != [] { LinkIsNext(s, 0); }
  }

  /** Both quicksorts, but for the comparison. */
  method SortBy<T>(w: Node?<T>, le: (Node<T>, Node<T>) -> bool, ghost s: seq<Node<T>>)
    returns (r: Node?<T>, ghost t: seq<Node<T>>)
    requires w == Head(s) && Linked(s)
    modifies s`rest
    ensures t == QuickSort<Node<T>>(s, le) && r == Head(t) && Linked(t)
    decreases |s|, 0
  {
    hide *;
    Short(w, s, le);
    if w == null || w.rest == null {
      return w, s;
    }
    SplitFacts(s, le);
    var cur := w.rest;
    var axis: Node<T> := w;
    ghost var ms: seq<Node<T>>, ns: seq<Node<T>>, ts: seq<Node<T>>;
    axis.rest := null;
    var m: Node?<T>, n: Node?<T>;
    m, n, ms, ns := Partition(cur, axis, le, s[1..]);
    ts := SortAfter(axis, n, le, ns);
    AxisApart(s, ms, ns, ts);
    HeadIs(axis, ts);
    r, t := SortBefore(m, axis, le, ms, [axis] + ts);
    Associates(QuickSort<Node<T>>(ms, le), [axis], ts);
  }

  /** Ns_ListNconc(axisnodePtr, Ns_ListSort(nPtr)). */
  method SortAfter<T>(axis: Node<T>, n: Node?<T>, le: (Node<T>, Node<T>) -> bool, ghost ns: seq<Node<T>>)
    returns (ghost ts: seq<Node<T>>)
    requires n == Head(ns) && Linked(ns) && axis.rest == null && axis !in ns
    modifies ns`rest, axis`rest
    ensures ts == QuickSort<Node<T>>(ns, le) && NoDup(ts) && Linked([axis] + ts)
    decreases |ns|, 1
  {
    var sorted: Node?<T>;
    SortedNodes(ns, le);
    sorted, ts := SortBy(n, le, ns);
    SingleLinked(axis);
    AxisFirst(axis, ns, ts);
    sorted := Nconc(axis, sorted, [axis], ts);
  }

  lemma AxisFirst<T>(axis: Node<T>, ns: seq<Node<T>>, ts: seq<Node<T>>)
    requires axis !in ns && SameNodes(ts, ns) && NoDup(ts)
    ensures NoDup([axis] + ts) && Head([axis]) == axis
  {
    forall i | 0 <= i < |ts| ensures ts[i] != axis {
      assert ts[i] in ns;
    }
  }

  /** Ns_ListNconc(Ns_ListSort(mPtr), axisnodePtr), the axis having been given its rest. */
  method SortBefore<T>(m: Node?<T>, axis: Node<T>, le: (Node<T>, Node<T>) -> bool, ghost ms: seq<Node<T>>,
                       ghost a: seq<Node<T>>)
    returns (r: Node?<T>, ghost t: seq<Node<T>>)
    requires m == Head(ms) && Linked(ms) && Head(a) == axis && Linked(a) && NoDup(a) && Disjoint(ms, a)
    modifies ms`rest
    ensures t == QuickSort<Node<T>>(ms, le) + a && r == Head(t) && Linked(t)
    decreases |ms|, 1
  {
    hide *;
    var sorted: Node?<T>;
    ghost var us: seq<Node<T>> := QuickSort<Node<T>>(ms, le);
    SortedNodes(ms, le);
    AllApartNow(ms, a);
    sorted, us := SortBy(m, le, ms);
    LinkedIsDistinct(us);
    AllApart(ms, us, a);
    r := Nconc(sorted, axis, us, a);
    t := us + a;
  }

  lemma AllApartNow<T>(ms: seq<Node<T>>, a: seq<Node<T>>)
    requires Disjoint(ms, a)
    ensures forall i :: 0 <= i < |a| ==> a[i] !in ms
  {
  }

  lemma Associates<T>(a: seq<Node<T>>, b: seq<Node<T>>, c: seq<Node<T>>)
    ensures a + (b + c) == a + b + c
  {
  }

  lemma HeadIs<T>(x: Node<T>, s: seq<Node<T>>)
    ensures Head([x] + s) == x && [x] + [] == [x]
  {
  }

  lemma LinkedIsDistinct<T>(s: seq<Node<T>>)
    requires Linked(s)
    ensures NoDup(s)
  {
  }

  lemma SingleLinked<T>(x: Node<T>)
    requires x.rest == null
    ensures Linked([x])
  {
  }

  /** sortProc answers at most zero as a total preorder would, on the elements of the nodes. */
  ghost predicate Consistent<T>(s: seq<Node<T>>, sortProc: (T, T) -> int) {
    && (forall x, y :: x in s && y in s ==> sortProc(x.first, y.first) <= 0 || sortProc(y.first, x.first) <= 0)
    && (forall x, y, z ::
          x in s && y in s && z in s && sortProc(x.first, y.first) <= 0 && sortProc(y.first, z.first) <= 0
          ==> sortProc(x.first, z.first) <= 0)
  }

  /** In ascending order, and where sortProc tells no two nodes apart, in the reverse of theirs. */
  lemma ProcSorted<T>(s: seq<Node<T>>, sortProc: (T, T) -> int)
    ensures var t := QuickSort<Node<T>>(s, ProcOrder(sortProc));
            && multiset(t) == multiset(s)
            && (Consistent(s, sortProc) ==> forall i, j :: 0 <= i < j < |t| ==>
                  && sortProc(t[i].first, t[j].first) <= 0
                  && (sortProc(t[j].first, t[i].first) <= 0 ==> Precedes<Node<T>>(s, t[j], t[i])))
  {
    var le := ProcOrder(sortProc);
    QuickSortPermutes<Node<T>>(s, le);
    if Consistent(s, sortProc) {
      ProcPreorder(s, sortProc);
      hide Consistent; hide Preorder; hide Precedes; hide QuickSort;
      forall i, j | 0 <= i < j < |QuickSort<Node<T>>(s, le)|
        ensures var t := QuickSort<Node<T>>(s, le);
                le(t[i], t[j]) && (le(t[j], t[i]) ==> Precedes<Node<T>>(s, t[j], t[i]))
      {
        PlacesSorted<Node<T>>(s, le, i, j);
      }
    }
  }

  lemma ProcPreorder<T>(s: seq<Node<T>>, sortProc: (T, T) -> int)
    requires Consistent(s, sortProc)
    ensures Preorder<Node<T>>(s, ProcOrder(sortProc))
  {
  }

  /** The heaviest nodes first, and those of the same weight in the reverse of their order. */
  lemma WeightSorted<T>(s: seq<Node<T>>)
    ensures var t := QuickSort<Node<T>>(s, WeightOrder());
            && multiset(t) == multiset(s)
            && forall i, j :: 0 <= i < j < |t| ==>
                 && t[i].weight >= t[j].weight
                 && (t[i].weight == t[j].weight ==> Precedes<Node<T>>(s, t[j], t[i]))
  {
    var le := WeightOrder<T>();
    QuickSortPermutes<Node<T>>(s, le);
    assert Preorder<Node<T>>(s, le);
    hide Preorder; hide Precedes; hide QuickSort;
    forall i, j | 0 <= i < j < |QuickSort<Node<T>>(s, le)|
      ensures var t := QuickSort<Node<T>>(s, le);
              le(t[i], t[j]) && (le(t[j], t[i]) ==> Precedes<Node<T>>(s, t[j], t[i]))
    {
      PlacesSorted<Node<T>>(s, le, i, j);
    }
  }

  /** Ns_ListSort. */
  method ListSort<T>(w: Node?<T>, sortProc: (T, T) -> int, ghost s: seq<Node<T>>)
    returns (r: Node?<T>, ghost t: seq<Node<T>>)
    requires w == Head(s) && Linked(s)
    modifies s`rest
    ensures r == Head(t) && Linked(t) && t == QuickSort<Node<T>>(s, ProcOrder(sortProc))
    ensures multiset(t) == multiset(s)
    ensures Consistent(s, sortProc) ==> forall i, j :: 0 <= i < j < |t| ==>
              && sortProc(t[i].first, t[j].first) <= 0
              && (sortProc(t[j].first, t[i].first) <= 0 ==> Precedes<Node<T>>(s, t[j], t[i]))
  {
    hide *;
    ProcSorted(s, sortProc);
    r, t := SortBy(w, ProcOrder(sortProc), s);
  }

  /** Ns_ListWeightSort. */
  method ListWeightSort<T>(w: Node?<T>, ghost s: seq<Node<T>>) returns (r: Node?<T>, ghost t: seq<Node<T>>)
    requires w == Head(s) && Linked(s)
    modifies s`rest
    ensures r == Head(t) && Linked(t) && t == QuickSort<Node<T>>(s, WeightOrder())
    ensures multiset(t) == multiset(s)
    ensures forall i, j :: 0 <= i < j < |t| ==>
              && t[i].weight >= t[j].weight
              && (t[i].weight == t[j].weight ==> Precedes<Node<T>>(s, t[j], t[i]))
  {
    hide *;
    WeightSorted(s);
    r, t := SortBy(w, WeightOrder(), s);
  }

  /** Weights need no assumption: they are a total preorder. */
  lemma WeightSortLaw<T>(s: seq<Node<T>>)
    ensures QuickSort<Node<T>>(s, WeightOrder()) == StableSort<Node<T>>(Reversed(s), WeightOrder())
    ensures Sorted<Node<T>>(QuickSort<Node<T>>(s, WeightOrder()), WeightOrder())
  {
    QuickSortLaw<Node<T>>(s, WeightOrder());
    QuickSortSorts<Node<T>>(s, WeightOrder());
  }
}
