/** The order that the list quicksorts of nsd/lisp.c produce. */
module ListSpec {

  /** `le(x, y)`: x goes before the pivot y. */
  function Filter<T>(s: seq<T>, p: T -> bool): (r: seq<T>)
    ensures |r| <= |s| && (forall x :: x in r ==> x in s && p(x)) && (forall x :: x in s && p(x) ==> x in r)
  {
    if s == [] then []
    else Filter(s[..|s| - 1], p) + if p(s[|s| - 1]) then [s[|s| - 1]] else []
  }

  function Reversed<T>(s: seq<T>): (r: seq<T>)
    ensures |r| == |s| && forall i :: 0 <= i < |s| ==> r[i] == s[|s| - 1 - i]
  {
    if s == [] then [] else Reversed(s[1..]) + [s[0]]
  }

  /** What goes before the pivot `x`, and what after it. */
  function Before<T>(le: (T, T) -> bool, x: T): (p: T -> bool) {
    y => le(y, x)
  }

  function After<T>(le: (T, T) -> bool, x: T): (p: T -> bool) {
    y => !le(y, x)
  }

  /** The first node is the pivot; those not after it go before it. */
  function QuickSort<T>(s: seq<T>, le: (T, T) -> bool): (r: seq<T>)
    decreases |s|
  {
    if |s| <= 1 then s
    else
      QuickSort(Filter(s[1..], Before(le, s[0])), le) + [s[0]] + QuickSort(Filter(s[1..], After(le, s[0])), le)
  }

  // ----- the reference: a stable insertion sort -----

  /** `x` after everything that may be before it. */
  function Insert<T>(s: seq<T>, x: T, le: (T, T) -> bool): (r: seq<T>)
    ensures |r| == |s| + 1 && x in r && (forall y :: y in r ==> y in s || y == x) && (forall y :: y in s ==> y in r)
  {
    if s == [] || le(s[|s| - 1], x) then s + [x]
    else Insert(s[..|s| - 1], x, le) + [s[|s| - 1]]
  }

  function StableSort<T>(s: seq<T>, le: (T, T) -> bool): (r: seq<T>)
    ensures |r| == |s| && (forall y :: y in r ==> y in s) && (forall y :: y in s ==> y in r)
  {
    if s == [] then [] else Insert(StableSort(s[..|s| - 1], le), s[|s| - 1], le)
  }

  ghost predicate Sorted<T>(s: seq<T>, le: (T, T) -> bool) {
    forall i, j :: 0 <= i < j < |s| ==> le(s[i], s[j])
  }

  /** On the elements of `s`: total and transitive, with ties allowed. */
  ghost predicate Preorder<T>(s: seq<T>, le: (T, T) -> bool) {
    && (forall x, y :: x in s && y in s ==> le(x, y) || le(y, x))
    && (forall x, y, z :: x in s && y in s && z in s && le(x, y) && le(y, z) ==> le(x, z))
  }

  lemma PreorderPart<T>(s: seq<T>, t: seq<T>, le: (T, T) -> bool)
    requires Preorder(s, le) && forall x :: x in t ==> x in s
    ensures Preorder(t, le)
  {
  }

  // ----- the reference sorts -----

  lemma {:induction false} InsertSorted<T>(s: seq<T>, x: T, le: (T, T) -> bool)
    requires Preorder(s + [x], le) && Sorted(s, le)
    ensures Sorted(Insert(s, x, le), le)
  {
    assert x in s + [x] && forall y :: y in s ==> y in s + [x];
    if s != [] && !le(s[|s| - 1], x) {
      var t, n := s[..|s| - 1], |s| - 1;
      PreorderPart(s + [x], t + [x], le);
      InsertSorted(t, x, le);
      var r := Insert(t, x, le);
      assert forall i :: 0 <= i < |r| ==> r[i] in r;
      assert forall y :: y in r ==> le(y, s[n]);
    } else if s != [] {
      assert forall i :: 0 <= i < |s| ==> s[i] in s && le(s[i], x);
    }
  }

  lemma {:induction false} StableSortSorts<T>(s: seq<T>, le: (T, T) -> bool)
    requires Preorder(s, le)
    ensures Sorted(StableSort(s, le), le)
  {
    if s != [] {
      var t, x := s[..|s| - 1], s[|s| - 1];
      PreorderPart(s, t, le);
      StableSortSorts(t, le);
      PreorderPart(s, StableSort(t, le) + [x], le);
      InsertSorted(StableSort(t, le), x, le);
    }
  }

  lemma {:induction false} InsertMultiset<T>(s: seq<T>, x: T, le: (T, T) -> bool)
    ensures multiset(Insert(s, x, le)) == multiset(s) + multiset{x}
  {
    if s != [] && !le(s[|s| - 1], x) {
      InsertMultiset(s[..|s| - 1], x, le);
      assert s == s[..|s| - 1] + [s[|s| - 1]];
    }
  }

  lemma {:induction false} StableSortPermutes<T>(s: seq<T>, le: (T, T) -> bool)
    ensures multiset(StableSort(s, le)) == multiset(s)
  {
    if s != [] {
      StableSortPermutes(s[..|s| - 1], le);
      InsertMultiset(StableSort(s[..|s| - 1], le), s[|s| - 1], le);
      assert s == s[..|s| - 1] + [s[|s| - 1]];
    }
  }

  // ----- filters and sorting -----

  lemma FilterSnoc<T>(s: seq<T>, x: T, p: T -> bool)
    ensures Filter(s + [x], p) == Filter(s, p) + if p(x) then [x] else []
  {
    assert (s + [x])[..|s|] == s;
  }

  lemma Snoc<T>(s: seq<T>)
    requires s != []
    ensures s == s[..|s| - 1] + [s[|s| - 1]] == [s[0]] + s[1..]
  {
  }

  lemma {:induction false} FilterAll<T>(s: seq<T>, p: T -> bool)
    requires forall i :: 0 <= i < |s| ==> p(s[i])
    ensures Filter(s, p) == s
  {
    if s != [] {
      FilterAll(s[..|s| - 1], p);
      Snoc(s);
      FilterSnoc(s[..|s| - 1], s[|s| - 1], p);
      hide Filter;
    }
  }

  lemma {:induction false} FilterNone<T>(s: seq<T>, p: T -> bool)
    requires forall i :: 0 <= i < |s| ==> !p(s[i])
    ensures Filter(s, p) == []
  {
    if s != [] {
      FilterNone(s[..|s| - 1], p);
      Snoc(s);
      FilterSnoc(s[..|s| - 1], s[|s| - 1], p);
      hide Filter;
    }
  }

  lemma SortedPart<T>(s: seq<T>, le: (T, T) -> bool)
    requires s != [] && Sorted(s, le)
    ensures Sorted(s[..|s| - 1], le)
  {
  }

  lemma InsertSnoc<T>(s: seq<T>, z: T, x: T, le: (T, T) -> bool)
    ensures Insert(s + [z], x, le) == if le(z, x) then (s + [z]) + [x] else Insert(s, x, le) + [z]
  {
    assert (s + [z])[..|s|] == s;
  }

  /** Where an element goes among some of the others does not depend on the rest. */
  lemma {:induction false} FilterInsert<T>(s: seq<T>, x: T, le: (T, T) -> bool, p: T -> bool)
    requires Preorder(s + [x], le) && Sorted(s, le)
    ensures Filter(Insert(s, x, le), p) == if p(x) then Insert(Filter(s, p), x, le) else Filter(s, p)
  {
    hide Preorder; hide Sorted;
    if s == [] {
      FilterSnoc(s, x, p);
    } else if le(s[|s| - 1], x) {
      FilterInsertLast(s, x, le, p);
    } else {
      var t, z := s[..|s| - 1], s[|s| - 1];
      Snoc(s);
      PreorderPart(s + [x], t + [x], le);
      SortedPart(s, le);
      FilterInsert(t, x, le, p);
      FilterInsertInner(t, z, x, le, p);
    }
  }

  lemma FilterInsertInner<T>(t: seq<T>, z: T, x: T, le: (T, T) -> bool, p: T -> bool)
    requires !le(z, x) && Filter(Insert(t, x, le), p) == if p(x) then Insert(Filter(t, p), x, le) else Filter(t, p)
    ensures Filter(Insert(t + [z], x, le), p)
         == if p(x) then Insert(Filter(t + [z], p), x, le) else Filter(t + [z], p)
  {
    hide Filter; hide Insert;
    InsertSnoc(t, z, x, le);
    FilterSnoc(Insert(t, x, le), z, p);
    FilterSnoc(t, z, p);
    InsertSnoc(Filter(t, p), z, x, le);
    Unit(Filter(t, p));
    Unit(Filter(Insert(t, x, le), p));
  }

  lemma Unit<T>(a: seq<T>)
    ensures a + [] == a && [] + a == a
  {
  }

  lemma InsertEnd<T>(s: seq<T>, x: T, le: (T, T) -> bool)
    requires s != [] ==> le(s[|s| - 1], x)
    ensures Insert(s, x, le) == s + [x]
  {
  }

  lemma FilterInsertLast<T>(s: seq<T>, x: T, le: (T, T) -> bool, p: T -> bool)
    requires s != [] && Preorder(s + [x], le) && Sorted(s, le) && le(s[|s| - 1], x)
    ensures Filter(Insert(s, x, le), p) == if p(x) then Insert(Filter(s, p), x, le) else Filter(s, p)
  {
    hide *;
    var f := Filter(s, p);
    InsertEnd(s, x, le);
    FilterSnoc(s, x, p);
    if f != [] {
      BelowLast(s, x, le, f[|f| - 1]);
    }
    InsertEnd(f, x, le);
    Unit(f);
  }

  lemma BelowLast<T>(s: seq<T>, x: T, le: (T, T) -> bool, y: T)
    requires s != [] && Preorder(s + [x], le) && Sorted(s, le) && le(s[|s| - 1], x) && y in s
    ensures le(y, x)
  {
    var r := s + [x];
    assert x in r && y in r && s[|s| - 1] in r;
    var i :| 0 <= i < |s| && s[i] == y;
  }

  lemma StableSortSnoc<T>(s: seq<T>, x: T, le: (T, T) -> bool)
    ensures StableSort(s + [x], le) == Insert(StableSort(s, le), x, le)
  {
    assert (s + [x])[..|s|] == s;
  }

  lemma {:induction false} FilterStableSort<T>(s: seq<T>, le: (T, T) -> bool, p: T -> bool)
    requires Preorder(s, le)
    ensures Filter(StableSort(s, le), p) == StableSort(Filter(s, p), le)
  {
    if s != [] {
      var t, x := s[..|s| - 1], s[|s| - 1];
      assert s == t + [x];
      PreorderPart(s, t, le);
      FilterStableSort(t, le, p);
      StableSortSorts(t, le);
      PreorderPart(s, StableSort(t, le) + [x], le);
      hide Filter; hide StableSort; hide Insert;
      FilterInsert(StableSort(t, le), x, le, p);
      StableSortSnoc(t, x, le);
      FilterSnoc(t, x, p);
      StableSortSnoc(Filter(t, p), x, le);
      assert Filter(t, p) + [] == Filter(t, p);
    }
  }

  lemma {:induction false} TiesStay<T>(s: seq<T>, le: (T, T) -> bool)
    requires forall x, y :: x in s && y in s ==> le(x, y)
    ensures StableSort(s, le) == s
  {
    if s != [] {
      var n := |s| - 1;
      assert s[n] in s && (n > 0 ==> s[n - 1] in s && le(s[n - 1], s[n]));
      TiesStay(s[..n], le);
      hide StableSort; hide Insert;
      Snoc(s);
      StableSortSnoc(s[..n], s[n], le);
      InsertEnd(s[..n], s[n], le);
    }
  }

  /** The reference sort is stable: elements that compare equal keep their order. */
  lemma StableSortIsStable<T>(s: seq<T>, le: (T, T) -> bool, x: T)
    requires Preorder(s, le) && x in s
    ensures var tied := (y: T) => le(x, y) && le(y, x);
            Filter(StableSort(s, le), tied) == Filter(s, tied)
  {
    var tied := (y: T) => le(x, y) && le(y, x);
    FilterStableSort(s, le, tied);
    TiesStay(Filter(s, tied), le);
  }

  // ----- the quicksort law -----

  lemma InsertSplitsLast<T>(s: seq<T>, x: T, le: (T, T) -> bool, before: T -> bool, after: T -> bool)
    requires s != [] && Preorder(s + [x], le) && Sorted(s, le) && le(s[|s| - 1], x)
    requires forall y :: y in s ==> before(y) == le(y, x) && after(y) == !le(y, x)
    ensures Insert(s, x, le) == Filter(s, before) + [x] + Filter(s, after)
  {
    hide Preorder; hide Sorted;
    forall i | 0 <= i < |s| ensures before(s[i]) && !after(s[i]) { BelowLast(s, x, le, s[i]); }
    FilterAll(s, before);
    FilterNone(s, after);
    Unit(s + [x]);
    hide Filter;
  }

  lemma Appended<T>(a: seq<T>, b: seq<T>, c: seq<T>, z: T)
    ensures (a + b + c) + [z] == a + b + (c + [z]) && a + [] == a
  {
  }

  lemma {:induction false} InsertSplits<T>(s: seq<T>, x: T, le: (T, T) -> bool, before: T -> bool, after: T -> bool)
    requires Preorder(s + [x], le) && Sorted(s, le)
    requires forall y :: y in s ==> before(y) == le(y, x) && after(y) == !le(y, x)
    ensures Insert(s, x, le) == Filter(s, before) + [x] + Filter(s, after)
  {
    hide Preorder; hide Sorted;
    if s != [] && le(s[|s| - 1], x) {
      InsertSplitsLast(s, x, le, before, after);
    } else if s != [] {
      var t, z := s[..|s| - 1], s[|s| - 1];
      assert s == t + [z];
      PreorderPart(s + [x], t + [x], le);
      SortedPart(s, le);
      InsertSplits(t, x, le, before, after);
      hide Filter; hide Insert;
      InsertSnoc(t, z, x, le);
      FilterSnoc(t, z, before);
      FilterSnoc(t, z, after);
      Appended(Filter(t, before), [x], Filter(t, after), z);
    }
  }

  lemma ReversedCons<T>(x: T, a: seq<T>)
    ensures Reversed([x] + a) == Reversed(a) + [x]
  {
    assert ([x] + a)[1..] == a;
  }

  lemma {:induction false} FilterReversed<T>(s: seq<T>, p: T -> bool)
    ensures Filter(Reversed(s), p) == Reversed(Filter(s, p))
  {
    if s != [] {
      FilterReversed(s[1..], p);
      Snoc(s);
      FilterCons(s, p);
      hide Filter; hide Reversed;
      ReversedCons(s[0], s[1..]);
      FilterSnoc(Reversed(s[1..]), s[0], p);
      ReversedCons(s[0], Filter(s[1..], p));
      Unit(Filter(s[1..], p));
      Unit(Filter(Reversed(s[1..]), p));
    }
  }

  lemma ConsSnoc<T>(x: T, mid: seq<T>, z: T, p: T -> bool)
    requires Filter([x] + mid, p) == (if p(x) then [x] else []) + Filter(mid, p)
    ensures Filter([x] + (mid + [z]), p) == (if p(x) then [x] else []) + Filter(mid + [z], p)
  {
    hide Filter;
    FilterSnoc([x] + mid, z, p);
    FilterSnoc(mid, z, p);
    assert [x] + (mid + [z]) == ([x] + mid) + [z];
    Regrouped(if p(x) then [x] else [], Filter(mid, p), if p(z) then [z] else []);
  }

  lemma Regrouped<T>(a: seq<T>, b: seq<T>, c: seq<T>)
    ensures (a + b) + c == a + (b + c)
  {
  }

  lemma FirstAndLast<T>(s: seq<T>)
    requires |s| > 1
    ensures var n := |s| - 1;
            && s[..n] == [s[0]] + s[1..n] && s[..n][1..] == s[1..n]
            && s == [s[0]] + (s[1..n] + [s[n]]) && s[1..] == s[1..n] + [s[n]]
  {
  }

  lemma {:induction false} FilterCons<T>(s: seq<T>, p: T -> bool)
    requires s != []
    ensures Filter(s, p) == (if p(s[0]) then [s[0]] else []) + Filter(s[1..], p)
  {
    var n := |s| - 1;
    if n > 0 {
      hide Filter;
      FirstAndLast(s);
      FilterCons(s[..n], p);
      ConsSnoc(s[0], s[1..n], s[n], p);
    }
  }

  lemma SplitSorts<T>(t: seq<T>, x: T, le: (T, T) -> bool, before: T -> bool, after: T -> bool)
    requires Preorder(t + [x], le)
    requires forall y :: y in t ==> before(y) == le(y, x) && after(y) == !le(y, x)
    ensures StableSort(t + [x], le) == StableSort(Filter(t, before), le) + [x] + StableSort(Filter(t, after), le)
  {
    hide Filter; hide StableSort; hide Insert;
    PreorderPart(t + [x], t, le);
    StableSortSorts(t, le);
    PreorderPart(t + [x], StableSort(t, le) + [x], le);
    FilterStableSort(t, le, before);
    FilterStableSort(t, le, after);
    InsertSplits(StableSort(t, le), x, le, before, after);
    StableSortSnoc(t, x, le);
  }

  lemma ReversedPreorder<T>(s: seq<T>, le: (T, T) -> bool)
    requires s != [] && Preorder(s, le)
    ensures Preorder(Reversed(s[1..]) + [s[0]], le)
  {
    var r := Reversed(s[1..]);
    forall y | y in r + [s[0]] ensures y in s {
      if y in r {
        var i :| 0 <= i < |r| && r[i] == y;
        assert y == s[1..][|r| - 1 - i];
      }
    }
    hide Reversed;
    PreorderPart(s, r + [s[0]], le);
  }

  /** The list quicksort is a stable sort of the reversed list: in order, and those that
      compare equal in the reverse of their input order. */
  lemma {:induction false} QuickSortLaw<T>(s: seq<T>, le: (T, T) -> bool)
    requires Preorder(s, le)
    ensures QuickSort(s, le) == StableSort(Reversed(s), le)
    decreases |s|
  {
    if |s| <= 1 {
      TiesStay(s, le);
    } else {
      var x := s[0];
      var before, after := Before(le, x), After(le, x);
      var m, n := Filter(s[1..], before), Filter(s[1..], after);
      PreorderPart(s, m, le);
      PreorderPart(s, n, le);
      QuickSortLaw(m, le);
      QuickSortLaw(n, le);
      FilterReversed(s[1..], before);
      FilterReversed(s[1..], after);
      ReversedPreorder(s, le);
      hide Filter; hide StableSort; hide Preorder; hide Insert;
      SplitSorts(Reversed(s[1..]), x, le, before, after);
      assert QuickSort(s, le) == QuickSort(m, le) + [x] + QuickSort(n, le);
    }
  }

  /** As many of each element. */
  ghost predicate Balanced<T>(a: seq<T>, b: seq<T>) {
    multiset(a) == multiset(b)
  }

  lemma BalancedMoves<T>(a: seq<T>, b: seq<T>, s: seq<T>, x: T)
    requires Balanced(a + b, s)
    ensures Balanced((a + [x]) + b, s + [x]) && Balanced(a + (b + [x]), s + [x]) && Balanced(a + [x] + b, [x] + s)
    ensures a + [] == a && b + [] == b
  {
  }

  lemma BalancedParts<T>(a: seq<T>, b: seq<T>, c: seq<T>, d: seq<T>, s: seq<T>)
    requires Balanced(a, b) && Balanced(c, d) && Balanced(b + d, s)
    ensures Balanced(a + c, s)
  {
  }

  lemma {:induction false} FiltersShare<T>(s: seq<T>, p: T -> bool, q: T -> bool)
    requires forall x :: x in s ==> q(x) == !p(x)
    ensures Balanced(Filter(s, p) + Filter(s, q), s)
  {
    if s != [] {
      var t, x := s[..|s| - 1], s[|s| - 1];
      FiltersShare(t, p, q);
      Snoc(s);
      hide Filter; hide Balanced;
      BalancedMoves(Filter(t, p), Filter(t, q), t, x);
      FilterSnoc(t, x, p);
      FilterSnoc(t, x, q);
    }
  }

  /** Whatever the comparison answers, no node is lost or doubled. */
  lemma {:induction false} QuickSortPermutes<T>(s: seq<T>, le: (T, T) -> bool)
    ensures Balanced(QuickSort(s, le), s)
    decreases |s|
  {
    if |s| > 1 {
      var m, n := Filter(s[1..], Before(le, s[0])), Filter(s[1..], After(le, s[0]));
      QuickSortPermutes(m, le);
      QuickSortPermutes(n, le);
      FiltersShare(s[1..], Before(le, s[0]), After(le, s[0]));
      Snoc(s);
      assert QuickSort(s, le) == QuickSort(m, le) + [s[0]] + QuickSort(n, le);
      hide Filter; hide Balanced; hide QuickSort;
      BalancedParts(QuickSort(m, le), m, QuickSort(n, le), n, s[1..]);
      BalancedMoves(QuickSort(m, le), QuickSort(n, le), s[1..], s[0]);
    }
  }

  ghost predicate Within<T>(a: seq<T>, b: seq<T>) {
    forall i :: 0 <= i < |a| ==> a[i] in b
  }

  lemma QuickSortElements<T>(s: seq<T>, le: (T, T) -> bool)
    ensures Within(QuickSort(s, le), s) && Within(s, QuickSort(s, le))
  {
    var r := QuickSort(s, le);
    QuickSortPermutes(s, le);
    forall i | 0 <= i < |r| ensures r[i] in s {
      assert r[i] in multiset(r);
    }
    forall i | 0 <= i < |s| ensures s[i] in r {
      assert s[i] in multiset(s);
    }
  }

  /** In order, for any total preorder. */
  lemma QuickSortSorts<T>(s: seq<T>, le: (T, T) -> bool)
    requires Preorder(s, le)
    ensures Sorted(QuickSort(s, le), le)
  {
    QuickSortLaw(s, le);
    PreorderPart(s, Reversed(s), le);
    StableSortSorts(Reversed(s), le);
  }

  /** Elements that compare equal come out in the reverse of their input order. */
  lemma TiesAreReversed<T>(s: seq<T>, le: (T, T) -> bool, x: T)
    requires Preorder(s, le) && x in s
    ensures var tied := (y: T) => le(x, y) && le(y, x);
            Filter(QuickSort(s, le), tied) == Reversed(Filter(s, tied))
  {
    QuickSortLaw(s, le);
    PreorderPart(s, Reversed(s), le);
    InReversed(s, x);
    StableSortIsStable(Reversed(s), le, x);
    FilterReversed(s, (y: T) => le(x, y) && le(y, x));
  }

  lemma InReversed<T>(s: seq<T>, x: T)
    requires x in s
    ensures x in Reversed(s)
  {
    var i :| 0 <= i < |s| && s[i] == x;
    assert Reversed(s)[|s| - 1 - i] == x;
  }

  // ----- the law, place by place -----

  /** Some place with `x` comes before some place with `y`. */
  ghost predicate Precedes<T>(s: seq<T>, x: T, y: T) {
    exists i, j :: 0 <= i < j < |s| && s[i] == x && s[j] == y
  }

  lemma PrecedesIn<T>(s: seq<T>, x: T, y: T)
    requires Precedes(s, x, y)
    ensures x in s && y in s
  {
  }

  lemma PrecedesCons<T>(s: seq<T>, x: T, y: T)
    requires s != []
    ensures Precedes(s, x, y) <==> (x == s[0] && y in s[1..]) || Precedes(s[1..], x, y)
  {
    var t := s[1..];
    if Precedes(s, x, y) {
      var i, j :| 0 <= i < j < |s| && s[i] == x && s[j] == y;
      assert t[j - 1] == y && (i > 0 ==> t[i - 1] == x);
    }
    if Precedes(t, x, y) {
      var i, j :| 0 <= i < j < |t| && t[i] == x && t[j] == y;
      assert s[i + 1] == x && s[j + 1] == y;
    }
    if x == s[0] && y in t {
      var j :| 0 <= j < |t| && t[j] == y;
      assert s[j + 1] == y;
    }
  }

  ghost predicate Distinct<T>(s: seq<T>) {
    forall x :: x in s ==> !Precedes(s, x, x)
  }

  /** The filtered rest of distinct elements. */
  lemma FilteredRest<T>(s: seq<T>, p: T -> bool)
    requires s != [] && Distinct(s)
    ensures var t := Filter(s[1..], p);
            && Distinct(t)
            && s[0] !in s[1..]
            && (forall x :: x in t <==> x in s && x != s[0] && p(x))
            && (forall x, y :: x in t && y in t ==> (Precedes(t, x, y) <==> Precedes(s, x, y)))
            && (forall x :: x in s && x != s[0] ==> Precedes(s, s[0], x))
            && (forall x :: x in s ==> !Precedes(s, x, s[0]))
  {
    var t := Filter(s[1..], p);
    PrecedesCons(s, s[0], s[0]);
    hide Precedes;
    assert s[0] in s;
    forall x, y | x in t && y in t ensures Precedes(t, x, y) <==> Precedes(s, x, y) {
      FilterPrecedes(s[1..], p, x, y);
      PrecedesCons(s, x, y);
    }
    forall x | x in s && x != s[0] ensures Precedes(s, s[0], x) {
      PrecedesCons(s, s[0], x);
    }
    forall x | x in s ensures !Precedes(s, x, s[0]) {
      PrecedesCons(s, x, s[0]);
      if Precedes(s[1..], x, s[0]) { PrecedesIn(s[1..], x, s[0]); }
    }
  }

  lemma PrecedesSnoc<T>(s: seq<T>, z: T, x: T, y: T)
    ensures Precedes(s + [z], x, y) <==> Precedes(s, x, y) || (x in s && y == z)
  {
    var t := s + [z];
    if Precedes(t, x, y) {
      var i, j :| 0 <= i < j < |t| && t[i] == x && t[j] == y;
      if j < |s| {
        assert s[i] == x && s[j] == y;
      }
    }
    if Precedes(s, x, y) {
      var i, j :| 0 <= i < j < |s| && s[i] == x && s[j] == y;
      assert t[i] == x && t[j] == y;
    }
    if x in s && y == z {
      var i :| 0 <= i < |s| && s[i] == x;
      assert t[i] == x && t[|s|] == y;
    }
  }

  lemma {:induction false} FilterPrecedes<T>(s: seq<T>, p: T -> bool, x: T, y: T)
    ensures Precedes(Filter(s, p), x, y) <==> Precedes(s, x, y) && p(x) && p(y)
  {
    if s != [] {
      var t, z := s[..|s| - 1], s[|s| - 1];
      FilterPrecedes(t, p, x, y);
      Snoc(s);
      FilterSnoc(t, z, p);
      PrecedesSnoc(t, z, x, y);
      PrecedesSnoc(Filter(t, p), z, x, y);
      Unit(Filter(t, p));
      hide Precedes;
    }
  }

  lemma ReversedPrecedes<T>(s: seq<T>, x: T, y: T)
    ensures Precedes(Reversed(s), x, y) <==> Precedes(s, y, x)
  {
    var r, n := Reversed(s), |s| - 1;
    if Precedes(r, x, y) {
      var i, j :| 0 <= i < j < |r| && r[i] == x && r[j] == y;
      assert s[n - j] == y && s[n - i] == x;
    }
    if Precedes(s, y, x) {
      var i, j :| 0 <= i < j < |s| && s[i] == y && s[j] == x;
      assert r[n - j] == x && r[n - i] == y;
    }
  }

  /** Of two places of the result, the first is no later in the order, and if the two tie, is
      from behind the second. */
  lemma PlacesSorted<T>(s: seq<T>, le: (T, T) -> bool, i: nat, j: nat)
    requires Preorder(s, le) && i < j < |QuickSort(s, le)|
    ensures var t := QuickSort(s, le); le(t[i], t[j]) && (le(t[j], t[i]) ==> Precedes(s, t[j], t[i]))
  {
    var t := QuickSort(s, le);
    QuickSortSorts(s, le);
    QuickSortElements(s, le);
    var x, y := t[i], t[j];
    if le(y, x) {
      var tied := (y: T) => le(x, y) && le(y, x);
      assert tied(x) && tied(y) by { assert x in s; assert le(x, x) || le(x, x); }
      TiesAreReversed(s, le, x);
      assert Precedes(t, x, y);
      FilterPrecedes(t, tied, x, y);
      ReversedPrecedes(Filter(s, tied), x, y);
      FilterPrecedes(s, tied, y, x);
    }
  }
}
