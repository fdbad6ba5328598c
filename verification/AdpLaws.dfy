/** The ADP parser loses nothing, and cuts where it should. */
module AdpLaws {
  import opened Common
  import opened AdpSpec

  ghost predicate AllInPage(page: string, blocks: seq<Block>) {
    forall i :: 0 <= i < |blocks| ==> InPage(page, blocks[i])
  }

  // ----- nothing is lost -----

  /** The stretch of the page a block stands for, with its delimiters. */
  ghost function Source(page: string, b: Block): string
    requires InPage(page, b)
  {
    match b.kind
    case Text => page[b.lo..b.hi]
    case Code => "<%" + page[b.lo..b.hi] + "%>"
    case Echo => "<%=" + page[b.lo..b.hi] + "%>"
  }

  ghost function Sources(page: string, blocks: seq<Block>): string
    requires AllInPage(page, blocks)
  {
    if blocks == [] then "" else Source(page, blocks[0]) + Sources(page, blocks[1..])
  }

  lemma SourcesCons(page: string, b: Block, blocks: seq<Block>)
    requires InPage(page, b) && AllInPage(page, blocks)
    ensures AllInPage(page, [b] + blocks) && Sources(page, [b] + blocks) == Source(page, b) + Sources(page, blocks)
  {
    assert ([b] + blocks)[1..] == blocks;
  }

  lemma Delimiters(page: string, p: nat, n: nat)
    requires p + n <= |page|
    ensures n == 2 && Opens(page, p) ==> page[p..p + n] == "<%"
    ensures n == 2 && Closes(page, p) ==> page[p..p + n] == "%>"
    ensures n == 3 && Opens(page, p) && page[p + 2] == '=' ==> page[p..p + n] == "<%="
  {
  }

  lemma Spliced(page: string, a: nat, b: nat, c: nat)
    requires a <= b <= c <= |page|
    ensures page[a..b] + page[b..c] == page[a..c] && page[c..|page|] == page[c..]
  {
  }

  lemma Between(page: string, s: nat, lo: nat, e: nat, open: string)
    requires s <= lo <= e && e + 2 <= |page| && page[s..lo] == open && page[e..e + 2] == "%>"
    ensures open + page[lo..e] + "%>" == page[s..e + 2]
  {
    Spliced(page, s, lo, e);
    Spliced(page, s, e, e + 2);
  }

  lemma ScriptSource(page: string, s: nat, e: nat)
    requires Begins(page, s) && s + 2 <= e && Closes(page, e)
    ensures InPage(page, ScriptAt(page, s, e)) && Source(page, ScriptAt(page, s, e)) == page[s..e + 2]
  {
    Delimiters(page, e, 2);
    if page[s + 2] == '=' {
      Delimiters(page, s, 3);
      Between(page, s, s + 3, e, "<%=");
    } else {
      Delimiters(page, s, 2);
      Between(page, s, s + 2, e, "<%");
    }
  }

  /** A cut covers what it passes. */
  lemma CutCovers(page: string, text: nat, s: nat)
    requires text <= s && Begins(page, s)
    ensures var c := Cut(page, text, s); AllInPage(page, c.0) && Sources(page, c.0) == page[text..c.1]
  {
    match EndOf(page, s)
    case None => OneSource(page, Block(Text, text, s + 2));
    case Some(e) =>
      ScriptSource(page, s, e);
      hide Source;
      OneSource(page, ScriptAt(page, s, e));
      SourcesCons(page, Block(Text, text, s), [ScriptAt(page, s, e)]);
      assert [Block(Text, text, s), ScriptAt(page, s, e)] == [Block(Text, text, s)] + [ScriptAt(page, s, e)];
      TextSource(page, text, s);
      Spliced(page, text, s, e + 2);
  }

  lemma TextSource(page: string, lo: nat, hi: nat)
    requires lo <= hi <= |page|
    ensures Source(page, Block(Text, lo, hi)) == page[lo..hi]
  {
  }

  lemma OneSource(page: string, b: Block)
    requires InPage(page, b)
    ensures AllInPage(page, [b]) && Sources(page, [b]) == Source(page, b)
  {
    SourcesCons(page, b, []);
    assert [b] + [] == [b] && Source(page, b) + "" == Source(page, b);
  }

  lemma {:induction false} SourcesAppend(page: string, a: seq<Block>, b: seq<Block>)
    requires AllInPage(page, a) && AllInPage(page, b)
    ensures AllInPage(page, a + b) && Sources(page, a + b) == Sources(page, a) + Sources(page, b)
  {
    hide Source;
    if a == [] {
      assert a + b == b && "" + Sources(page, b) == Sources(page, b);
    } else {
      SourcesAppend(page, a[1..], b);
      assert (a + b)[1..] == a[1..] + b;
      assert Source(page, a[0]) + (Sources(page, a[1..]) + Sources(page, b))
          == (Source(page, a[0]) + Sources(page, a[1..])) + Sources(page, b);
    }
  }

  lemma LastCovers(page: string, text: nat)
    requires text <= |page|
    ensures var blocks := [Block(Text, text, |page|)]; AllInPage(page, blocks) && Sources(page, blocks) == page[text..]
  {
    OneSource(page, Block(Text, text, |page|));
  }

  /** Put back together with their delimiters, the blocks are the page, from first to last. */
  lemma {:induction false} BlocksCover(page: string, text: nat, at: nat)
    requires text <= at <= |page|
    ensures AllInPage(page, Blocks(page, text, at))
    ensures Sources(page, Blocks(page, text, at)) == page[text..]
    decreases |page| - at
  {
    hide Sources; hide AllInPage; hide Cut; hide Tag; hide Begins;
    match Tag(page, at)
    case None => LastCovers(page, text);
    case Some(s) =>
      if !Begins(page, s) {
        BlocksCover(page, text, s + 1);
      } else {
        var c := Cut(page, text, s);
        BlocksCover(page, c.1, c.1);
        CutCovers(page, text, s);
        SourcesAppend(page, c.0, Blocks(page, c.1, c.1));
        Spliced(page, text, c.1, |page|);
      }
  }

  // ----- where scripts end -----

  lemma {:induction false} CountSplits(page: string, from: nat, mid: nat, to: nat)
    requires from <= mid <= to
    ensures CountCloses(page, from, to) == CountCloses(page, from, mid) + CountCloses(page, mid, to)
    decreases mid - from
  {
    if from < mid {
      CountSplits(page, from + 1, mid, to);
    }
  }

  lemma {:induction false} CountNone(page: string, from: nat, to: nat)
    requires from <= to && forall i :: from <= i < to ==> !Closes(page, i)
    ensures CountCloses(page, from, to) == 0
    decreases if from < to then to - from else 0
  {
    if from < to {
      CountNone(page, from + 1, to);
    }
  }

  /** Passing over `n` closings: exactly `n` of them lie between. */
  lemma {:induction false} PassCounts(page: string, e: nat, n: nat, f: nat)
    requires Closes(page, e) && e <= f
    ensures Pass(page, e, n) == Some(f) <==> Closes(page, f) && CountCloses(page, e, f) == n
    decreases n
  {
    if f == e {
      if n > 0 && FindClose(page, e + 2).Some? {
        PassGrows(page, FindClose(page, e + 2).value, n - 1);
      }
    } else {
      assert CountCloses(page, e, f) == 1 + CountCloses(page, e + 1, f);
      assert !Closes(page, e + 1);
      if n > 0 {
        var g := FindClose(page, e + 2);
        if g.Some? && g.value <= f {
          CountSplits(page, e + 1, g.value, f);
          CountNone(page, e + 1, g.value);
          PassCounts(page, g.value, n - 1, f);
        } else {
          if g.Some? { PassGrows(page, g.value, n - 1); }
        }
      }
    }
  }

  lemma PassGrows(page: string, e: nat, n: nat)
    requires Closes(page, e)
    ensures Pass(page, e, n).Some? ==> Pass(page, e, n).value >= e
  {
  }

  lemma EndCounts(page: string, s: nat, e: nat)
    requires s + 2 <= e
    ensures EndOf(page, s) == Some(e) <==>
              && Closes(page, e)
              && FindClose(page, s + 2).Some?
              && CountCloses(page, s + 2, e) == CountOpens(page, s + 2, FindClose(page, s + 2).value)
  {
    var first := FindClose(page, s + 2);
    if first.Some? {
      var k := CountOpens(page, s + 2, first.value);
      if first.value <= e {
        PassCounts(page, first.value, k, e);
        CountSplits(page, s + 2, first.value, e);
        CountNone(page, s + 2, first.value);
      } else {
        PassGrows(page, first.value, k);
      }
    }
  }

  ghost predicate At(page: string, p: int, text: string) {
    0 <= p && p + |text| <= |page| && page[p..p + |text|] == text
  }

  /** Where `text` begins in [from, to). */
  ghost function Places(page: string, text: string, from: nat, to: nat): set<int> {
    set p | from <= p < to && At(page, p, text)
  }

  lemma AtDelimiter(page: string, p: int)
    ensures Opens(page, p) <==> At(page, p, "<%")
    ensures Closes(page, p) <==> At(page, p, "%>")
  {
    if 0 <= p < |page| - 1 {
      assert page[p..p + 2] == [page[p], page[p + 1]];
    }
  }

  lemma PlacesCons(page: string, text: string, from: nat, to: nat)
    requires from < to
    ensures |Places(page, text, from, to)|
         == (if At(page, from, text) then 1 else 0) + |Places(page, text, from + 1, to)|
  {
    hide At;
    var a, rest := if At(page, from, text) then {from} else {}, Places(page, text, from + 1, to);
    assert Places(page, text, from, to) == a + rest && a * rest == {};
  }

  lemma {:induction false} CountsAreSizes(page: string, from: nat, to: nat)
    ensures CountOpens(page, from, to) == |Places(page, "<%", from, to)|
    ensures CountCloses(page, from, to) == |Places(page, "%>", from, to)|
    decreases if from < to then to - from else 0
  {
    hide At; hide Opens; hide Closes;
    if from < to {
      CountsAreSizes(page, from + 1, to);
      AtDelimiter(page, from);
      PlacesCons(page, "<%", from, to);
      PlacesCons(page, "%>", from, to);
      hide Places;
    } else {
      assert Places(page, "<%", from, to) == {} == Places(page, "%>", from, to);
    }
  }

  /** The first "%>" from `from` on. */
  ghost predicate FirstClosing(page: string, from: nat, f: nat) {
    from <= f && At(page, f, "%>") && Places(page, "%>", from, f) == {}
  }

  lemma FirstIsFound(page: string, from: nat, f: nat)
    ensures FindClose(page, from) == Some(f) <==> FirstClosing(page, from, f)
  {
    var g := FindClose(page, from);
    AtDelimiter(page, f);
    if g.Some? { AtDelimiter(page, g.value); }
    hide At; hide Closes;
    if g == Some(f) {
      forall p | from <= p < f ensures !At(page, p, "%>") { AtDelimiter(page, p); }
    }
    if g.Some? && from <= g.value < f {
      assert g.value in Places(page, "%>", from, f);
    }
  }

  /** The "%>" at `e` has before it as many others, behind an opening at `s`, as there are "<%"
      before the first of all, which is at `f`. */
  ghost predicate Matches(page: string, s: nat, e: nat, f: nat) {
    && At(page, e, "%>") && FirstClosing(page, s + 2, f)
    && |Places(page, "%>", s + 2, e)| == |Places(page, "<%", s + 2, f)|
  }

  /** That is where a script begun at `s` ends. */
  lemma EndIsMatched(page: string, s: nat, e: nat)
    requires s + 2 <= e
    ensures EndOf(page, s) == Some(e) <==> exists f: nat :: Matches(page, s, e, f)
  {
    EndCounts(page, s, e);
    CountsAreSizes(page, s + 2, e);
    AtDelimiter(page, e);
    var first := FindClose(page, s + 2);
    forall f: nat ensures Matches(page, s, e, f) <==> first == Some(f) && EndOf(page, s) == Some(e) {
      FirstIsFound(page, s + 2, f);
      CountsAreSizes(page, s + 2, f);
      hide CountOpens; hide CountCloses; hide FindClose; hide EndOf; hide At; hide Places; hide Closes;
      hide FirstClosing;
    }
    hide *;
    if first.Some? {
      assert Matches(page, s, e, first.value) <==> EndOf(page, s) == Some(e);
    }
  }

  /** A script can begin at `p`: at "<%", but not at "<%>". */
  ghost predicate Script(page: string, p: int) {
    0 <= p < |page| - 2 && page[p] == '<' && page[p + 1] == '%' && page[p + 2] != '>'
  }

  /** A script block lies between an opening and the closing that matches it. */
  ghost predicate Delimited(page: string, b: Block) {
    var s := b.lo - (if b.kind == Echo then 3 else 2);
    s >= 0 && Script(page, s) && EndOf(page, s) == Some(b.hi) && (b.kind == Echo <==> page[s + 2] == '=')
  }

  /** No script that has an end begins in a text block. */
  ghost predicate Plain(page: string, b: Block) {
    forall p :: b.lo <= p && p + 1 < b.hi && Script(page, p) ==> EndOf(page, p) == None
  }

  ghost predicate Right(page: string, b: Block) {
    if b.kind == Text then Plain(page, b) else Delimited(page, b)
  }

  /** The text passed over so far holds no script. */
  ghost predicate Passed(page: string, text: nat, at: nat) {
    forall p :: text <= p < at && Begins(page, p) ==> EndOf(page, p) == None
  }

  /** No tag before `s`, from `at` on. */
  lemma TagSkips(page: string, text: nat, at: nat)
    requires text <= at <= |page| && Passed(page, text, at)
    ensures Tag(page, at).Some? ==> Passed(page, text, Tag(page, at).value)
    ensures Tag(page, at).None? ==> Plain(page, Block(Text, text, |page|))
  {
    var s := FindChar(page, '<', at);
    if s.Some? && FindChar(page, '>', s.value).None? {
      forall p | s.value <= p < |page| && Begins(page, p) ensures EndOf(page, p) == None {
        NeverClosed(page, s.value, p);
      }
    }
  }

  lemma NeverClosed(page: string, s: nat, p: nat)
    requires s <= p && Begins(page, p) && FindChar(page, '>', s) == None
    ensures EndOf(page, p) == None
  {
    forall i | p + 2 <= i < |page| - 1 ensures !Closes(page, i) {
      assert page[i + 1] != '>';
    }
  }

  ghost predicate AllRight(page: string, blocks: seq<Block>) {
    forall i :: 0 <= i < |blocks| ==> Right(page, blocks[i])
  }

  lemma RightAppend(page: string, a: seq<Block>, b: seq<Block>)
    requires AllRight(page, a) && AllRight(page, b)
    ensures AllRight(page, a + b)
  {
    hide Right;
  }

  lemma CutIsRight(page: string, text: nat, s: nat)
    requires text <= s && Begins(page, s) && Passed(page, text, s)
    ensures AllRight(page, Cut(page, text, s).0)
    ensures Passed(page, Cut(page, text, s).1, Cut(page, text, s).1)
  {
    assert !Begins(page, s + 1);
    match EndOf(page, s)
    case None => assert Plain(page, Block(Text, text, s + 2));
    case Some(e) =>
      assert Plain(page, Block(Text, text, s));
      assert Delimited(page, ScriptAt(page, s, e));
      hide Plain; hide Delimited;
  }

  lemma PassOne(page: string, text: nat, s: nat)
    requires text <= s && Passed(page, text, s) && !Begins(page, s)
    ensures Passed(page, text, s + 1)
  {
  }

  lemma OneRight(page: string, b: Block)
    requires b.kind == Text && Plain(page, b)
    ensures AllRight(page, [b])
  {
  }

  /** Every script of the result is delimited as it should be, and no script was missed. */
  lemma {:induction false} BlocksAreRight(page: string, text: nat, at: nat)
    requires text <= at <= |page| && Passed(page, text, at)
    ensures AllRight(page, Blocks(page, text, at))
    decreases |page| - at
  {
    hide Passed; hide AllRight; hide Plain; hide Cut; hide Tag; hide Begins;
    TagSkips(page, text, at);
    match Tag(page, at)
    case None => OneRight(page, Block(Text, text, |page|));
    case Some(s) =>
      if !Begins(page, s) {
        PassOne(page, text, s);
        BlocksAreRight(page, text, s + 1);
      } else {
        var c := Cut(page, text, s);
        CutIsRight(page, text, s);
        BlocksAreRight(page, c.1, c.1);
        RightAppend(page, c.0, Blocks(page, c.1, c.1));
      }
  }

  // ----- lengths and lines -----

  ghost function Abs(n: int): nat {
    if n < 0 then -n else n
  }

  ghost function Total(lens: seq<int>): nat {
    if lens == [] then 0 else Total(lens[..|lens| - 1]) + Abs(lens[|lens| - 1])
  }

  lemma {:induction false} NewlinesAppend(a: string, b: string)
    ensures Newlines(a + b) == Newlines(a) + Newlines(b)
  {
    if b == "" {
      assert a + b == a;
    } else {
      var n := |b| - 1;
      NewlinesAppend(a, b[..n]);
      assert (a + b)[..|a| + n] == a + b[..n];
    }
  }

  /** Cutting the compiled text by the lengths gives each block that is not empty, in order,
      and the lengths are negative for scripts only. */
  ghost predicate Cuts(page: string, text: string, lens: seq<int>, blocks: seq<Block>)
    requires AllInPage(page, blocks)
  {
    if blocks == [] then text == "" && lens == []
    else
      var b, rest := blocks[|blocks| - 1], blocks[..|blocks| - 1];
      if b.lo == b.hi then Cuts(page, text, lens, rest)
      else
        var s := (if b.kind == Echo then "ns_adp_append " else "") + page[b.lo..b.hi];
        && lens != [] && |s| <= |text| && text[|text| - |s|..] == s
        && lens[|lens| - 1] == (if b.kind == Text then |s| else -|s|)
        && Cuts(page, text[..|text| - |s|], lens[..|lens| - 1], rest)
  }

  lemma TotalSnoc(a: seq<int>, b: seq<int>)
    requires |b| == |a| + 1 && b[..|a|] == a
    ensures Total(b) == Total(a) + Abs(b[|a|])
  {
  }

  lemma AddedLast(page: string, c: Compilation, b: Block)
    requires InPage(page, b) && b.lo != b.hi
    ensures var s, d := (if b.kind == Echo then "ns_adp_append " else "") + page[b.lo..b.hi], Add(page, c, b);
            && |s| <= |d.text| && d.text[|d.text| - |s|..] == s && d.text[..|d.text| - |s|] == c.text
            && |d.lens| == |c.lens| + 1 && |d.lines| == |c.lines| + 1
            && d.lens[|c.lens|] == (if b.kind == Text then |s| else -|s|) && d.lens[..|c.lens|] == c.lens
            && |d.text| == |c.text| + |s|
  {
    hide Newlines;
  }

  lemma {:induction false} CompilationCuts(page: string, blocks: seq<Block>)
    requires AllInPage(page, blocks)
    ensures var c := AddAll(page, NOTHING, blocks); Cuts(page, c.text, c.lens, blocks) && Total(c.lens) == |c.text|
    ensures |AddAll(page, NOTHING, blocks).lens| == |AddAll(page, NOTHING, blocks).lines|
  {
    if blocks != [] {
      var b, rest := blocks[|blocks| - 1], blocks[..|blocks| - 1];
      CompilationCuts(page, rest);
      if b.lo != b.hi {
        AddedLast(page, AddAll(page, NOTHING, rest), b);
        TotalSnoc(AddAll(page, NOTHING, rest).lens, AddAll(page, NOTHING, blocks).lens);
        hide Add; hide Total;
      }
    }
  }

  ghost predicate Gap(page: string, from: nat, to: nat) {
    from <= to <= |page| && Newlines(page[from..to]) == 0
  }

  ghost predicate GapBefore(page: string, text: nat, blocks: seq<Block>, i: nat)
    requires i < |blocks|
  {
    Gap(page, if i == 0 then text else blocks[i - 1].hi, blocks[i].lo)
  }

  /** The blocks follow one another, separated by text without newlines. */
  ghost predicate InOrder(page: string, text: nat, blocks: seq<Block>) {
    forall i :: 0 <= i < |blocks| ==> GapBefore(page, text, blocks, i)
  }

  /** Where the blocks end, `text` if there are none. */
  ghost function EndsAt(text: nat, blocks: seq<Block>): nat {
    if blocks == [] then text else blocks[|blocks| - 1].hi
  }

  lemma InOrderAppend(page: string, text: nat, a: seq<Block>, b: seq<Block>)
    requires InOrder(page, text, a) && b != [] && InOrder(page, b[0].lo, b) && Gap(page, EndsAt(text, a), b[0].lo)
    ensures InOrder(page, text, a + b)
  {
    hide Gap;
    var s := a + b;
    forall i | 0 <= i < |s| ensures GapBefore(page, text, s, i) {
      if i < |a| {
        assert GapBefore(page, text, a, i);
      } else if i > |a| {
        assert GapBefore(page, b[0].lo, b, i - |a|);
      }
    }
  }

  lemma NoGap(page: string, p: nat)
    requires p <= |page|
    ensures Gap(page, p, p)
  {
    assert page[p..p] == "";
  }

  lemma {:induction false} FewNewlines(s: string)
    requires '\n' !in s
    ensures Newlines(s) == 0
  {
    if s != "" {
      FewNewlines(s[..|s| - 1]);
    }
  }

  lemma DelimiterGaps(page: string, s: nat, e: nat)
    requires Begins(page, s) && s + 2 <= e && Closes(page, e)
    ensures Gap(page, s, ScriptAt(page, s, e).lo) && Gap(page, e, e + 2)
  {
    FewNewlines(page[s..ScriptAt(page, s, e).lo]);
    FewNewlines(page[e..e + 2]);
  }

  lemma {:induction false} FirstBlock(page: string, text: nat, at: nat)
    requires text <= at <= |page|
    ensures Blocks(page, text, at) != [] && Blocks(page, text, at)[0].lo == text
    decreases |page| - at
  {
    hide Tag; hide Begins; hide EndOf;
    match Tag(page, at) {
      case Some(s) => if !Begins(page, s) { FirstBlock(page, text, s + 1); }
      case None =>
    }
  }

  lemma CutInOrder(page: string, text: nat, s: nat)
    requires text <= s && Begins(page, s)
    ensures var c := Cut(page, text, s); InOrder(page, text, c.0) && Gap(page, EndsAt(text, c.0), c.1)
  {
    NoGap(page, text);
    match EndOf(page, s)
    case None =>
      NoGap(page, s + 2);
      hide Gap;
    case Some(e) =>
      DelimiterGaps(page, s, e);
      hide Gap;
  }

  /** The blocks of a page follow one another so. */
  lemma {:induction false} BlocksInOrder(page: string, text: nat, at: nat)
    requires text <= at <= |page|
    ensures InOrder(page, text, Blocks(page, text, at))
    decreases |page| - at
  {
    hide InOrder; hide Gap; hide Begins; hide Cut; hide Tag; hide EndsAt;
    match Tag(page, at)
    case None =>
      NoGap(page, text);
      OneInOrder(page, Block(Text, text, |page|));
    case Some(s) =>
      if !Begins(page, s) {
        BlocksInOrder(page, text, s + 1);
      } else {
        var c := Cut(page, text, s);
        BlocksInOrder(page, c.1, c.1);
        FirstBlock(page, c.1, c.1);
        CutInOrder(page, text, s);
        InOrderAppend(page, text, c.0, Blocks(page, c.1, c.1));
      }
  }

  lemma OneInOrder(page: string, b: Block)
    requires Gap(page, b.lo, b.lo)
    ensures InOrder(page, b.lo, [b])
  {
  }

  /** The lines recorded for the blocks that are not empty. */
  ghost function LinesOf(page: string, blocks: seq<Block>): seq<nat>
    requires AllInPage(page, blocks)
  {
    if blocks == [] then []
    else
      var b, rest := blocks[|blocks| - 1], blocks[..|blocks| - 1];
      LinesOf(page, rest) + if b.lo == b.hi then [] else [multiset(page[..b.lo])['\n']]
  }

  lemma {:induction false} NewlinesAre(s: string)
    ensures Newlines(s) == multiset(s)['\n']
  {
    if s != "" {
      NewlinesAre(s[..|s| - 1]);
      assert s == s[..|s| - 1] + [s[|s| - 1]];
    }
  }

  lemma NewlinesBefore(page: string, a: nat, b: nat, c: nat)
    requires a <= b <= c <= |page| && Newlines(page[a..b]) == 0
    ensures Newlines(page[..b]) == Newlines(page[..a])
    ensures Newlines(page[..c]) == Newlines(page[..b]) + Newlines(page[b..c])
  {
    NewlinesAppend(page[..a], page[a..b]);
    NewlinesAppend(page[..b], page[b..c]);
    assert page[..a] + page[a..b] == page[..b] && page[..b] + page[b..c] == page[..c];
  }

  /** Each line recorded is the number of newlines before the block in the page, although only
      those in blocks are counted. */
  lemma {:induction false} LinesAreRight(page: string, blocks: seq<Block>)
    requires AllInPage(page, blocks) && InOrder(page, 0, blocks)
    ensures var c := AddAll(page, NOTHING, blocks);
            && c.lines == LinesOf(page, blocks)
            && c.line == Newlines(page[..if blocks == [] then 0 else blocks[|blocks| - 1].hi])
  {
    hide Newlines;
    if blocks == [] {
      NoLines(page);
    } else {
      var b, rest := blocks[|blocks| - 1], blocks[..|blocks| - 1];
      assert GapBefore(page, 0, blocks, |rest|);
      forall i | 0 <= i < |rest| ensures GapBefore(page, 0, rest, i) {
        assert GapBefore(page, 0, blocks, i);
      }
      LinesAreRight(page, rest);
      NewlinesBefore(page, if rest == [] then 0 else rest[|rest| - 1].hi, b.lo, b.hi);
      NoLines(page[b.lo..]);
      NewlinesAre(page[..b.lo]);
      hide Compiled;
    }
  }

  lemma NoLines(s: string)
    ensures Newlines(s[..0]) == 0
  {
  }

  /** The compilation of a whole page: its blocks with their delimiters are the page; scripts
      are delimited as they should be and none was missed; the lengths, which add up to that of
      the compiled text, cut it into the blocks; and each block's line is its line in the page. */
  lemma PageIsCompiled(page: string)
    ensures var blocks := Blocks(page, 0, 0);
            && AllInPage(page, blocks) && Sources(page, blocks) == page
            && AllRight(page, blocks)
            && var c := AddAll(page, NOTHING, blocks);
            && Cuts(page, c.text, c.lens, blocks) && Total(c.lens) == |c.text|
            && c.lines == LinesOf(page, blocks) && |c.lines| == |c.lens|
  {
    hide AllRight; hide Cuts; hide InOrder; hide Blocks; hide Sources;
    BlocksCover(page, 0, 0);
    BlocksAreRight(page, 0, 0);
    BlocksInOrder(page, 0, 0);
    CompilationCuts(page, Blocks(page, 0, 0));
    LinesAreRight(page, Blocks(page, 0, 0));
    assert page[0..] == page;
  }
}
