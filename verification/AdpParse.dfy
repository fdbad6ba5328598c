/** NsAdpParse (nsd/adpparse.c): one pass over the page, appending to growing buffers. */
module AdpParse {
  import opened Common
  import opened AdpSpec
  import opened AdpLaws

  /** The Parse structure and the AdpCode it fills. */
  class Parse {
    var text: string
    var lens: seq<int>
    var lines: seq<nat>
    var line: nat
    var nblocks: nat
    var nscripts: nat

    constructor ()
      ensures View() == NOTHING && Counted()
    {
      text, lens, lines, line, nblocks, nscripts := "", [], [], 0, 0, 0;
    }

    ghost function View(): Compilation
      reads this
    {
      Compilation(text, lens, lines, line)
    }

    /** The counts of blocks and of scripts among them. */
    ghost predicate Counted()
      reads this
    {
      nblocks == |lens| && nscripts == Scripts(lens)
    }

    method CountLines(page: string, lo: nat, hi: nat)
      requires lo <= hi <= |page|
      modifies this`line
      ensures line == old(line) + Newlines(page[lo..hi])
    {
      var s := lo;
      assert page[lo..lo] == "";
      while s < hi
        invariant lo <= s <= hi
        invariant line == old(line) + Newlines(page[lo..s])
      {
        assert page[lo..s + 1][..s - lo] == page[lo..s];
        if page[s] == '\n' {
          line := line + 1;
        }
        s := s + 1;
      }
    }

    /** AppendBlock. */
    method AppendBlock(page: string, b: Block)
      requires InPage(page, b) && Counted()
      modifies this
      ensures View() == Add(page, old(View()), b) && Counted()
    {
      if b.lo < b.hi {
        CompiledIs(page, b, text);
        AddIs(page, View(), b);
        hide Compiled; hide Add; hide Newlines; hide APPEND; hide Scripts;
        ScriptsSnoc(lens, |Compiled(page, b)|);
        ScriptsSnoc(lens, -|Compiled(page, b)|);
        nblocks := nblocks + 1;
        var len: int := b.hi - b.lo;
        if b.kind == Echo {
          len := len + |APPEND|;
          text := text + APPEND;
        }
        text := text + page[b.lo..b.hi];
        if b.kind != Text {
          nscripts := nscripts + 1;
          len := -len;
        }
        lens := lens + [len];
        lines := lines + [line];
        CountLines(page, b.lo, b.hi);
      }
    }

    /** The position of the "%>" that ends the script begun at `s`, if there is one. */
    method FindEnd(page: string, s: nat, close: nat) returns (r: Option<nat>)
      requires Begins(page, s) && FindChar(page, '>', s) == Some(close)
      ensures r == EndOf(page, s)
    {
      BracketCloses(page, s, close);
      r := FindClose(page, close - 1);
      if r.None? {
        return;
      }
      var level := CountLevel(page, s + 2, r.value);
      while r.Some? && level > 0
        invariant r.Some? ==> Closes(page, r.value) && Pass(page, r.value, level) == EndOf(page, s)
        invariant r.None? ==> EndOf(page, s) == None
      {
        r := FindClose(page, r.value + 2);
        level := level - 1;
      }
    }

    /** How many "<%" come before `e`. */
    method CountLevel(page: string, from: nat, e: nat) returns (level: nat)
      requires from <= e < |page|
      ensures level == CountOpens(page, from, e)
    {
      level := 0;
      var at := from;
      var n := FindOpen(page, at);
      OpensSkip(page, at, n, e);
      while n.Some? && n.value < e
        invariant from <= at
        invariant n == FindOpen(page, at)
        invariant level + CountOpens(page, at, e) == CountOpens(page, from, e)
        decreases |page| - at
      {
        OpensSkip(page, at, n, e);
        level := level + 1;
        at := n.value + 2;
        n := FindOpen(page, at);
      }
      OpensSkip(page, at, n, e);
    }

    /** The whole page, without registered tags and <script> tags for the server. */
    method ParsePage(page: string)
      requires View() == NOTHING && Counted()
      modifies this
      ensures AllInPage(page, Blocks(page, 0, 0))
      ensures View() == AddAll(page, NOTHING, Blocks(page, 0, 0)) && Counted()
    {
      hide Blocks; hide Add; hide AddAll; hide EndOf; hide ScriptAt; hide Begins; hide FindChar;
      var text, adp := 0, 0;
      ghost var done: seq<Block> := [];
      StartOf(page);
      var s := FindChar(page, '<', adp);
      while s.Some? && FindChar(page, '>', s.value).Some?
        invariant 0 <= text <= adp <= |page| && s == FindChar(page, '<', adp)
        invariant done + Blocks(page, text, adp) == Blocks(page, 0, 0)
        invariant AllInPage(page, done) && View() == AddAll(page, NOTHING, done) && Counted()
        decreases |page| - adp
      {
        var p := s.value;
        BlocksUnfold(page, text, adp, p);
        if Begins(page, p) {
          var e := FindEnd(page, p, FindChar(page, '>', p).value);
          CutIs(page, text, p, done);
          hide Cut;
          if e.None? {
            AppendBlock(page, Block(Text, text, p + 2));
            done := Appended(page, done, Block(Text, text, p + 2));
            text := p + 2;
          } else {
            AppendBlock(page, Block(Text, text, p));
            done := Appended(page, done, Block(Text, text, p));
            AppendBlock(page, ScriptAt(page, p, e.value));
            done := Appended(page, done, ScriptAt(page, p, e.value));
            text := e.value + 2;
          }
          adp := text;
        } else {
          adp := p + 1;
        }
        s := FindChar(page, '<', adp);
      }
      LastBlock(page, text, adp);
      AppendBlock(page, Block(Text, text, |page|));
      done := Appended(page, done, Block(Text, text, |page|));
    }
  }

  lemma CompiledIs(page: string, b: Block, text: string)
    requires InPage(page, b) && b.lo < b.hi
    ensures |Compiled(page, b)| == b.hi - b.lo + if b.kind == Echo then |APPEND| else 0
    ensures text + Compiled(page, b) == (if b.kind == Echo then text + APPEND else text) + page[b.lo..b.hi]
  {
    assert (text + APPEND) + page[b.lo..b.hi] == text + (APPEND + page[b.lo..b.hi]);
    assert "" + page[b.lo..b.hi] == page[b.lo..b.hi];
  }

  lemma AddIs(page: string, c: Compilation, b: Block)
    requires InPage(page, b) && b.lo < b.hi
    ensures var d, n := Add(page, c, b), |Compiled(page, b)|;
            && d.text == c.text + Compiled(page, b)
            && d.lens == c.lens + [if b.kind == Text then n else -n]
            && d.lines == c.lines + [c.line] && d.line == c.line + Newlines(page[b.lo..b.hi])
  {
    hide Compiled; hide Newlines;
  }

  lemma StartOf(page: string)
    ensures [] + Blocks(page, 0, 0) == Blocks(page, 0, 0) && AllInPage(page, []) && AllInPage(page, Blocks(page, 0, 0))
    ensures AddAll(page, NOTHING, []) == NOTHING
  {
    BlocksCover(page, 0, 0);
    hide Blocks;
  }

  lemma LastBlock(page: string, text: nat, at: nat)
    requires text <= at <= |page|
    requires var s := FindChar(page, '<', at); s.None? || FindChar(page, '>', s.value).None?
    ensures Blocks(page, text, at) == [Block(Text, text, |page|)]
  {
  }

  /** How the blocks to come begin at a tag. */
  lemma BlocksUnfold(page: string, text: nat, at: nat, s: nat)
    requires text <= at <= |page| && FindChar(page, '<', at) == Some(s) && FindChar(page, '>', s).Some?
    ensures at <= s < |page|
    ensures !Begins(page, s) ==> Blocks(page, text, at) == Blocks(page, text, s + 1)
    ensures Begins(page, s) ==>
              Blocks(page, text, at) == Cut(page, text, s).0 + Blocks(page, Cut(page, text, s).1, Cut(page, text, s).1)
  {
    assert Tag(page, at) == Some(s);
    hide Tag; hide Cut; hide Begins; hide FindChar;
  }

  /** What a cut adds to the blocks done. */
  lemma CutIs(page: string, text: nat, s: nat, done: seq<Block>)
    requires text <= s && Begins(page, s)
    ensures s + 2 <= |page|
    ensures EndOf(page, s).None? ==>
              Cut(page, text, s).1 == s + 2 && done + (Cut(page, text, s).0 + Blocks(page, s + 2, s + 2))
                == (done + [Block(Text, text, s + 2)]) + Blocks(page, s + 2, s + 2)
    ensures EndOf(page, s).Some? ==>
              var e := EndOf(page, s).value;
              && s + 2 <= e && e + 2 <= |page| && Closes(page, e) && InPage(page, ScriptAt(page, s, e))
              && Cut(page, text, s).1 == e + 2
              && done + (Cut(page, text, s).0 + Blocks(page, e + 2, e + 2))
                 == ((done + [Block(Text, text, s)]) + [ScriptAt(page, s, e)]) + Blocks(page, e + 2, e + 2)
  {
    match EndOf(page, s)
    case None => ChainOne(done, Block(Text, text, s + 2), Blocks(page, s + 2, s + 2));
    case Some(e) => ChainTwo(done, Block(Text, text, s), ScriptAt(page, s, e), Blocks(page, e + 2, e + 2));
  }

  lemma ChainOne(a: seq<Block>, b: Block, d: seq<Block>)
    ensures a + ([b] + d) == (a + [b]) + d
  {
  }

  lemma ChainTwo(a: seq<Block>, t: Block, b: Block, d: seq<Block>)
    ensures a + ([t, b] + d) == ((a + [t]) + [b]) + d
  {
  }

  ghost function Scripts(lens: seq<int>): nat {
    if lens == [] then 0 else Scripts(lens[..|lens| - 1]) + if lens[|lens| - 1] < 0 then 1 else 0
  }

  lemma ScriptsSnoc(lens: seq<int>, n: int)
    ensures Scripts(lens + [n]) == Scripts(lens) + if n < 0 then 1 else 0
  {
    assert (lens + [n])[..|lens|] == lens;
  }

  ghost function Appended(page: string, done: seq<Block>, b: Block): (r: seq<Block>)
    requires AllInPage(page, done) && InPage(page, b)
    ensures AllInPage(page, r) && r == done + [b]
    ensures AddAll(page, NOTHING, r) == Add(page, AddAll(page, NOTHING, done), b)
  {
    assert (done + [b])[..|done|] == done;
    done + [b]
  }

  /** No "%>" lies before the first '>'. */
  lemma BracketCloses(page: string, s: nat, close: nat)
    requires Begins(page, s) && FindChar(page, '>', s) == Some(close)
    ensures close >= s + 3 && FindClose(page, close - 1) == FindClose(page, s + 2)
  {
    forall i | s + 2 <= i < close - 1 ensures !Closes(page, i) {
      assert page[i + 1] != '>';
    }
    SkipTo(page, s + 2, close - 1);
  }

  lemma {:induction false} SkipTo(page: string, from: nat, to: nat)
    requires from <= to && forall i :: from <= i < to ==> !Closes(page, i)
    ensures FindClose(page, to) == FindClose(page, from)
    decreases if from < to then to - from else 0
  {
    if from < to {
      SkipTo(page, from + 1, to);
    }
  }

  lemma {:induction false} CountNoOpens(page: string, from: nat, to: nat)
    requires forall i :: from <= i < to ==> !Opens(page, i)
    ensures CountOpens(page, from, to) == 0
    decreases if from < to then to - from else 0
  {
    if from < to {
      CountNoOpens(page, from + 1, to);
    }
  }

  lemma {:induction false} CountFrom(page: string, from: nat, mid: nat, to: nat)
    requires from <= mid <= to && forall i :: from <= i < mid ==> !Opens(page, i)
    ensures CountOpens(page, from, to) == CountOpens(page, mid, to)
    decreases mid - from
  {
    if from < mid {
      CountFrom(page, from + 1, mid, to);
    }
  }

  /** The first "<%" from `at`, if it is before `e`, is the next to be counted. */
  lemma OpensSkip(page: string, at: nat, n: Option<nat>, e: nat)
    requires n == FindOpen(page, at)
    ensures n.Some? && n.value < e ==> CountOpens(page, at, e) == 1 + CountOpens(page, n.value + 2, e)
    ensures n.None? || n.value >= e ==> CountOpens(page, at, e) == 0
  {
    if n.Some? && n.value < e {
      CountFrom(page, at, n.value, e);
      assert !Opens(page, n.value + 1);
      if n.value + 1 < e {
        CountFrom(page, n.value + 1, n.value + 2, e);
      }
    } else {
      CountNoOpens(page, at, e);
    }
  }
}
