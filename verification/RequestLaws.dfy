/** However the network splits a request, SockRead makes the same of it. */
module RequestLaws {
  import opened Common
  import opened RequestSpec

  // ----- scanning piece by piece -----

  lemma {:induction false} NewlineAppend(s: string, more: string)
    ensures Newline(s).Some? ==> Newline(s + more) == Newline(s)
  {
    if s != [] && s[0] != '\0' && s[0] != '\n' {
      NewlineAppend(s[1..], more);
      assert (s + more)[1..] == s[1..] + more;
    }
  }

  lemma NextLineAppend(g: Config, buf: string, more: string, h: Head)
    requires h.roff <= |buf|
    ensures NextLine(g, buf, h).Some? ==> NextLine(g, buf + more, h) == NextLine(g, buf, h)
  {
    var s := buf[h.roff..];
    NewlineAppend(s, more);
    assert (buf + more)[h.roff..] == s + more;
    if Newline(s).Some? {
      assert (s + more)[..Newline(s).value] == s[..Newline(s).value];
    }
    hide Newline; hide TakeLine; hide Trimmed;
  }

  /** What has been scanned of the first bytes stands when more bytes come. */
  lemma {:induction false} ScanAppend(g: Config, buf: string, more: string, h: Head)
    requires h.roff <= |buf|
    ensures Scan(g, buf, h).Err? ==> Scan(g, buf + more, h) == Scan(g, buf, h)
    ensures Scan(g, buf, h).Ok? ==> Scan(g, buf + more, h) == Scan(g, buf + more, Scan(g, buf, h).value)
    decreases |buf| - h.roff
  {
    hide NextLine;
    NextLineAppend(g, buf, more, h);
    match NextLine(g, buf, h) {
      case Some(Ok(next)) => ScanAppend(g, buf, more, next);
      case _ =>
    }
  }

  /** The bytes seen so far end the head or are an error. */
  ghost predicate Settled(g: Config, buf: string) {
    var r := Scan(g, buf, START);
    r.Err? || r.value.done
  }

  lemma ScanDone(g: Config, buf: string, h: Head)
    requires h.roff <= |buf| && h.done
    ensures Scan(g, buf, h) == Ok(h)
  {
  }

  lemma SettledStays(g: Config, buf: string, more: string)
    ensures Settled(g, buf) ==> Scan(g, buf + more, START) == Scan(g, buf, START) && Settled(g, buf + more)
  {
    ScanAppend(g, buf, more, START);
    var r := Scan(g, buf, START);
    if r.Ok? && r.value.done {
      ScanDone(g, buf + more, r.value);
    }
  }

  lemma SettledPrefix(g: Config, input: string, m: nat, n: nat)
    requires m <= n <= |input| && Settled(g, input[..m])
    ensures Settled(g, input[..n]) && Scan(g, input[..n], START) == Scan(g, input[..m], START)
  {
    assert input[..n] == input[..m] + input[m..n];
    SettledStays(g, input[..m], input[m..n]);
  }

  // ----- the buffer -----

  /** The buffer's size from the second receive on. */
  ghost function Cap(g: Config, spaceAvl: nat): (r: nat)
    requires spaceAvl > 0
  {
    Room(g, Grown(spaceAvl, Room(g, spaceAvl)))
  }

  /** It does not change any more, and only a first size of maxinput can be exceeded. */
  lemma RoomSettles(g: Config, spaceAvl: nat)
    requires spaceAvl > 0 && Sane(g)
    ensures var sp := Grown(spaceAvl, Room(g, spaceAvl));
            && Grown(sp, Cap(g, spaceAvl)) == sp
            && 0 < Room(g, spaceAvl) <= Cap(g, spaceAvl)
            && (Room(g, spaceAvl) < Cap(g, spaceAvl) ==> Room(g, spaceAvl) == g.maxinput)
  {
  }

  // ----- the reference: one look at the whole input -----

  datatype Verdict = Accepted(req: Request, body: string) | Rejected(error: ReadErr) | Waiting

  ghost function Outcome(s: State): Verdict {
    match s
    case Ready(req, body, _) => Accepted(req, body)
    case Failed(e, _) => Rejected(e)
    case _ => Waiting
  }

  /** The end of the input where more was needed. */
  ghost function AtEnd(g: Config): Verdict {
    if g.ssl then Waiting else Rejected(CLOSE)
  }

  ghost function WholeBody(g: Config, req: Request, content: string): Verdict {
    if |content| >= req.contentLength then Accepted(req, content[..req.contentLength]) else AtEnd(g)
  }

  /** The part of the input that can ever be looked at as a head. */
  ghost function Seen(g: Config, spaceAvl: nat, input: string): (r: string)
    requires spaceAvl > 0
    ensures |r| <= |input| && r == input[..|r|]
  {
    input[..Min(Cap(g, spaceAvl), |input|)]
  }

  ghost function Whole(g: Config, spaceAvl: nat, input: string): Verdict
    requires spaceAvl > 0
  {
    var r := Scan(g, Seen(g, spaceAvl, input), START);
    if r.Err? then Rejected(r.error)
    else if !r.value.done || r.value.line.None? then
      if |input| >= g.maxinput && Cap(g, spaceAvl) >= g.maxinput then Rejected(RRANGE) else AtEnd(g)
    else
      var h := r.value;
      match Setup(g, h.line.value, h.headers)
      case Err(e) => Rejected(e)
      case Ok(n) => WholeBody(g, Request(h.line.value, h.headers, h.skip, h.roff + n + 2 >= g.maxinput, n),
                              input[h.roff..])
  }

  /** Only a head that ends beyond maxinput but within an oversized buffer is a matter of luck. */
  ghost predicate Fair(g: Config, spaceAvl: nat, input: string)
    requires spaceAvl > 0
  {
    Settled(g, Seen(g, spaceAvl, input)) ==> Settled(g, input[..Min(g.maxinput, |input|)])
  }

  /** Receives of at least one byte, and enough of them to take all of the input. */
  ghost predicate Enough(rest: string, wishes: seq<nat>) {
    |wishes| > |rest| && forall i :: 0 <= i < |wishes| ==> wishes[i] > 0
  }

  // ----- reading the content -----

  lemma {:induction false} StuckContent(g: Config, req: Request, got: string, sp: nat, wishes: seq<nat>)
    requires Sane(g) && |got| < req.contentLength && g.ssl
    ensures Outcome(ReadAll(g, Receiving(req, got, sp), "", wishes)) == Waiting
  {
    if wishes != [] {
      StuckContent(g, req, got, sp, wishes[1..]);
    }
  }

  lemma {:induction false} Finished(g: Config, s: State, rest: string, wishes: seq<nat>)
    requires Sane(g) && (s.Ready? || s.Failed?)
    ensures ReadAll(g, s, rest, wishes) == s
  {
    if wishes != [] {
      Finished(g, s, rest, wishes[1..]);
    }
  }

  lemma {:induction false} ReadsContent(g: Config, req: Request, got: string, sp: nat, rest: string, wishes: seq<nat>)
    requires Sane(g) && Enough(rest, wishes)
    ensures Outcome(ReadAll(g, Finish(req, got, sp), rest, wishes)) == WholeBody(g, req, got + rest)
    decreases |wishes|
  {
    var s := Finish(req, got, sp);
    if s.Ready? {
      Finished(g, s, rest, wishes);
      assert (got + rest)[..req.contentLength] == got[..req.contentLength];
    } else {
      var r := SockRead(g, s, rest, wishes[0]);
      if r.1 == 0 {
        assert rest == "";
        if g.ssl { StuckContent(g, req, got, sp, wishes); } else { Finished(g, r.0, rest, wishes[1..]); }
      } else {
        var n := r.1;
        assert got + rest == (got + rest[..n]) + rest[n..];
        ReadsContent(g, req, got + rest[..n], sp, rest[n..], wishes[1..]);
      }
    }
  }

  // ----- reading the head -----

  /** `buf` has been received and scanned, and the head is not complete. */
  ghost predicate Halfway(g: Config, spaceAvl: nat, s: State, rest: string, input: string)
    requires spaceAvl > 0
  {
    && s.Reading? && s.buf + rest == input && !Settled(g, s.buf) && Scan(g, s.buf, START) == Ok(s.head)
    && Fits(g, s)
    && |s.buf| <= Cap(g, spaceAvl)
    && (s.spaceAvl == Grown(spaceAvl, Room(g, spaceAvl)) || (s.spaceAvl == spaceAvl && s.buf == ""))
  }

  lemma {:induction false} StuckHead(g: Config, spaceAvl: nat, s: State, rest: string, input: string, wishes: seq<nat>)
    requires spaceAvl > 0 && Sane(g) && Halfway(g, spaceAvl, s, rest, input) && g.ssl
    requires |s.buf| < g.maxinput && (rest == "" || |s.buf| == Cap(g, spaceAvl))
    ensures Outcome(ReadAll(g, s, rest, wishes)) == Waiting
    decreases |wishes|
  {
    if wishes != [] {
      RoomSettles(g, spaceAvl);
      StuckHead(g, spaceAvl, SockRead(g, s, rest, wishes[0]).0, rest, input, wishes[1..]);
    }
  }

  lemma HeadIsNot(g: Config, spaceAvl: nat, s: State, rest: string, input: string)
    requires spaceAvl > 0 && Sane(g) && Halfway(g, spaceAvl, s, rest, input) && Fair(g, spaceAvl, input)
    requires |s.buf| >= g.maxinput
    ensures Whole(g, spaceAvl, input) == Rejected(RRANGE)
  {
    assert input[..|s.buf|] == s.buf;
    if Settled(g, Seen(g, spaceAvl, input)) {
      SettledPrefix(g, input, g.maxinput, |s.buf|);
      assert false;
    }
  }

  /** The verdict on the lines now complete. */
  lemma Settles(g: Config, spaceAvl: nat, buf: string, rest: string, input: string, sp: nat, wishes: seq<nat>)
    requires spaceAvl > 0 && Sane(g) && buf + rest == input && |buf| <= Cap(g, spaceAvl) && Settled(g, buf)
    requires Enough(rest, wishes)
    ensures Fits(g, Scanned(g, buf, sp, Scan(g, buf, START)))
    ensures Outcome(ReadAll(g, Scanned(g, buf, sp, Scan(g, buf, START)), rest, wishes)) == Whole(g, spaceAvl, input)
  {
    hide NextLine; hide Setup; hide SockRead; hide Room; hide Grown;
    var r := Scan(g, buf, START);
    assert input[..|buf|] == buf;
    SettledPrefix(g, input, |buf|, |Seen(g, spaceAvl, input)|);
    if r.Err? {
      Finished(g, Failed(r.error, sp), rest, wishes);
    } else {
      LineFound(g, buf, START);
      var h := r.value;
      match Setup(g, h.line.value, h.headers)
      case Err(e) => Finished(g, Failed(e, sp), rest, wishes);
      case Ok(n) =>
        assert input[h.roff..] == buf[h.roff..] + rest;
        var req := Request(h.line.value, h.headers, h.skip, h.roff + n + 2 >= g.maxinput, n);
        ReadsContent(g, req, buf[h.roff..], Sized(g, sp, h.roff, n), rest, wishes);
    }
  }

  lemma {:induction false} LineFound(g: Config, buf: string, h: Head)
    requires h.roff <= |buf| && (h.done ==> h.line.Some?)
    ensures var r := Scan(g, buf, h); r.Ok? && r.value.done ==> r.value.line.Some?
    decreases |buf| - h.roff
  {
    match NextLine(g, buf, h) {
      case Some(Ok(next)) => LineFound(g, buf, next);
      case _ =>
    }
  }

  lemma NextHead(g: Config, spaceAvl: nat, s: State, rest: string, input: string, wish: nat)
    requires spaceAvl > 0 && Sane(g) && Halfway(g, spaceAvl, s, rest, input) && |s.buf| < g.maxinput && wish > 0
    ensures var r := SockRead(g, s, rest, wish);
            && Fits(g, r.0)
            && (r.1 == 0 ==> (rest == "" || |s.buf| == Cap(g, spaceAvl))
                             && (if g.ssl then Halfway(g, spaceAvl, r.0, rest, input)
                                 else Outcome(r.0) == Rejected(CLOSE)))
            && (r.1 > 0 ==> var buf := s.buf + rest[..r.1];
                            |buf| <= Cap(g, spaceAvl) && exists sp :: r.0 == Scanned(g, buf, sp, Scan(g, buf, START)))
  {
    RoomSettles(g, spaceAvl);
    StepFits(g, s, rest, wish);
    var r := SockRead(g, s, rest, wish);
    hide Room; hide Grown; hide Scanned; hide Settled;
    if r.1 > 0 {
      ScanAppend(g, s.buf, rest[..r.1], START);
      var buf := s.buf + rest[..r.1];
      assert r.0 == Scanned(g, buf, Grown(s.spaceAvl, Room(g, s.spaceAvl)), Scan(g, buf, START));
    }
  }

  lemma Rejoined(a: string, b: string, n: nat)
    requires n <= |b|
    ensures (a + b[..n]) + b[n..] == a + b
  {
    assert b == b[..n] + b[n..];
  }

  lemma StillHalfway(g: Config, spaceAvl: nat, s: State, rest: string, input: string, wish: nat)
    requires spaceAvl > 0 && Sane(g) && Halfway(g, spaceAvl, s, rest, input) && |s.buf| < g.maxinput && wish > 0
    requires var r := SockRead(g, s, rest, wish); r.1 > 0 && !Settled(g, s.buf + rest[..r.1])
    ensures var r := SockRead(g, s, rest, wish); Halfway(g, spaceAvl, r.0, rest[r.1..], input)
  {
    NextHead(g, spaceAvl, s, rest, input, wish);
    RoomSettles(g, spaceAvl);
    var r := SockRead(g, s, rest, wish);
    ScanAppend(g, s.buf, rest[..r.1], START);
    Rejoined(s.buf, rest, r.1);
  }

  lemma {:induction false} ReadsHead(g: Config, spaceAvl: nat, s: State, rest: string, input: string, wishes: seq<nat>)
    requires spaceAvl > 0 && Sane(g) && Halfway(g, spaceAvl, s, rest, input) && Fair(g, spaceAvl, input)
    requires Enough(rest, wishes)
    ensures Outcome(ReadAll(g, s, rest, wishes)) == Whole(g, spaceAvl, input)
    decreases |wishes|
  {
    var r := SockRead(g, s, rest, wishes[0]);
    if |s.buf| >= g.maxinput {
      HeadIsNot(g, spaceAvl, s, rest, input);
      Finished(g, r.0, rest, wishes[1..]);
    } else {
      NextHead(g, spaceAvl, s, rest, input, wishes[0]);
      hide Scan; hide SockRead; hide Cap; hide Whole; hide Fair; hide Settled; hide Scanned;
      if r.1 == 0 {
        HeadIsCut(g, spaceAvl, s, rest, input);
        if g.ssl { StuckHead(g, spaceAvl, s, rest, input, wishes); } else { Finished(g, r.0, rest, wishes[1..]); }
      } else {
        var buf := s.buf + rest[..r.1];
        Rejoined(s.buf, rest, r.1);
        if Settled(g, buf) {
          var sp :| r.0 == Scanned(g, buf, sp, Scan(g, buf, START));
          Settles(g, spaceAvl, buf, rest[r.1..], input, sp, wishes[1..]);
        } else {
          StillHalfway(g, spaceAvl, s, rest, input, wishes[0]);
          ReadsHead(g, spaceAvl, r.0, rest[r.1..], input, wishes[1..]);
        }
      }
    }
  }

  lemma HeadIsCut(g: Config, spaceAvl: nat, s: State, rest: string, input: string)
    requires spaceAvl > 0 && Sane(g) && Halfway(g, spaceAvl, s, rest, input)
    requires |s.buf| < g.maxinput && (rest == "" || |s.buf| == Cap(g, spaceAvl))
    ensures Whole(g, spaceAvl, input) == AtEnd(g)
  {
    assert input[..|s.buf|] == s.buf;
    assert Seen(g, spaceAvl, input) == s.buf;
  }

  ghost function Fresh(spaceAvl: nat): State {
    Reading("", spaceAvl, START)
  }

  /** Unless the head ends beyond maxinput in an oversized buffer, every way of splitting the
      input into receives leads to what one look at the whole input says: the same request
      line, headers, content length and body, in memory or in a file alike, or the same error. */
  lemma SplitsAgree(g: Config, spaceAvl: nat, input: string, wishes: seq<nat>)
    requires spaceAvl > 0 && Sane(g) && Enough(input, wishes) && Fair(g, spaceAvl, input)
    ensures Outcome(ReadAll(g, Fresh(spaceAvl), input, wishes)) == Whole(g, spaceAvl, input)
  {
    assert Scan(g, "", START) == Ok(START);
    ReadsHead(g, spaceAvl, Fresh(spaceAvl), input, input, wishes);
  }

  // ----- exactly when -----

  ghost predicate Agree(g: Config, spaceAvl: nat, input: string)
    requires spaceAvl > 0 && Sane(g)
  {
    forall v, w :: Enough(input, v) && Enough(input, w) ==>
      Outcome(ReadAll(g, Fresh(spaceAvl), input, v)) == Outcome(ReadAll(g, Fresh(spaceAvl), input, w))
  }

  /** Two receives, the first of `first` bytes. */
  ghost function TwoParts(first: nat, input: string): (r: seq<nat>)
    requires first > 0
    ensures Enough(input, r) && r[0] == first
  {
    [first, |input| + 1] + seq(|input|, _ => 1)
  }

  /** Stopping at maxinput bytes means refusal. */
  lemma StopsAtMaxinput(g: Config, spaceAvl: nat, input: string)
    requires spaceAvl > 0 && Sane(g) && !Fair(g, spaceAvl, input)
    ensures Outcome(ReadAll(g, Fresh(spaceAvl), input, TwoParts(g.maxinput, input))) == Rejected(RRANGE)
  {
    NotFair(g, spaceAvl, input);
    RoomSettles(g, spaceAvl);
    var w, s := TwoParts(g.maxinput, input), Fresh(spaceAvl);
    assert Scan(g, "", START) == Ok(START);
    assert Halfway(g, spaceAvl, s, input, input);
    var r := SockRead(g, s, input, w[0]);
    assert r.1 == g.maxinput && s.buf + input[..r.1] == input[..g.maxinput];
    StillHalfway(g, spaceAvl, s, input, input, w[0]);
    var q := SockRead(g, r.0, input[r.1..], w[1..][0]);
    assert Outcome(q.0) == Rejected(RRANGE);
    Finished(g, q.0, input[r.1..][q.1..], w[1..][1..]);
  }

  lemma NotFair(g: Config, spaceAvl: nat, input: string)
    requires spaceAvl > 0 && Sane(g) && !Fair(g, spaceAvl, input)
    ensures g.maxinput < |Seen(g, spaceAvl, input)| && !Settled(g, input[..g.maxinput]) && !Settled(g, input[..1])
    ensures Room(g, spaceAvl) >= g.maxinput
  {
    RoomSettles(g, spaceAvl);
    var n := |Seen(g, spaceAvl, input)|;
    if n <= g.maxinput {
      if n < Min(g.maxinput, |input|) { SettledPrefix(g, input, n, Min(g.maxinput, |input|)); }
      assert false;
    }
    if Settled(g, input[..1]) { SettledPrefix(g, input, 1, g.maxinput); }
  }

  /** Stopping at one byte leaves room to read on to the end of the head. */
  lemma ReadsOn(g: Config, spaceAvl: nat, input: string)
    requires spaceAvl > 0 && Sane(g) && !Fair(g, spaceAvl, input)
    ensures Outcome(ReadAll(g, Fresh(spaceAvl), input, TwoParts(1, input))) == Whole(g, spaceAvl, input)
  {
    NotFair(g, spaceAvl, input);
    RoomSettles(g, spaceAvl);
    var w, s := TwoParts(1, input), Fresh(spaceAvl);
    assert Scan(g, "", START) == Ok(START);
    assert Halfway(g, spaceAvl, s, input, input);
    var r := SockRead(g, s, input, w[0]);
    assert r.1 == 1 && s.buf + input[..1] == input[..1];
    StillHalfway(g, spaceAvl, s, input, input, w[0]);
    NextHead(g, spaceAvl, s, input, input, w[0]);
    ReadsToCap(g, spaceAvl, r.0, input[1..], input, w[1..]);
  }

  lemma ReadsToCap(g: Config, spaceAvl: nat, s: State, rest: string, input: string, wishes: seq<nat>)
    requires spaceAvl > 0 && Sane(g) && Halfway(g, spaceAvl, s, rest, input) && |s.buf| == 1 && Enough(rest, wishes)
    requires s.spaceAvl == Grown(spaceAvl, Room(g, spaceAvl)) && wishes[0] >= |input|
    requires |Seen(g, spaceAvl, input)| > 1 && Settled(g, Seen(g, spaceAvl, input))
    ensures Outcome(ReadAll(g, s, rest, wishes)) == Whole(g, spaceAvl, input)
  {
    RoomSettles(g, spaceAvl);
    NextHead(g, spaceAvl, s, rest, input, wishes[0]);
    var q := SockRead(g, s, rest, wishes[0]);
    Rejoined(s.buf, rest, q.1);
    var buf := s.buf + rest[..q.1];
    assert q.1 == Min(Cap(g, spaceAvl), |input|) - 1;
    hide SockRead; hide Room; hide Grown; hide Scanned; hide Cap; hide Whole; hide Settled; hide Halfway;
    assert buf == input[..|buf|];
    var sp :| q.0 == Scanned(g, buf, sp, Scan(g, buf, START));
    Settles(g, spaceAvl, buf, rest[q.1..], input, sp, wishes[1..]);
  }

  lemma WholeIsNotRange(g: Config, spaceAvl: nat, input: string)
    requires spaceAvl > 0 && Sane(g) && Settled(g, Seen(g, spaceAvl, input))
    ensures Whole(g, spaceAvl, input) != Rejected(RRANGE)
  {
    var r := Scan(g, Seen(g, spaceAvl, input), START);
    LineFound(g, Seen(g, spaceAvl, input), START);
    NeverRange(g, Seen(g, spaceAvl, input), START);
  }

  lemma {:induction false} NeverRange(g: Config, buf: string, h: Head)
    requires h.roff <= |buf|
    ensures Scan(g, buf, h) != Err(RRANGE)
    decreases |buf| - h.roff
  {
    match NextLine(g, buf, h) {
      case Some(Ok(next)) => NeverRange(g, buf, next);
      case _ =>
    }
  }

  /** All ways of splitting the input lead to the same outcome if and only if the head does
      not end beyond maxinput while still within the buffer. */
  lemma AgreementIsFairness(g: Config, spaceAvl: nat, input: string)
    requires spaceAvl > 0 && Sane(g)
    ensures Agree(g, spaceAvl, input) <==> Fair(g, spaceAvl, input)
  {
    if Fair(g, spaceAvl, input) {
      forall w | Enough(input, w)
        ensures Outcome(ReadAll(g, Fresh(spaceAvl), input, w)) == Whole(g, spaceAvl, input)
      {
        SplitsAgree(g, spaceAvl, input, w);
      }
    } else {
      StopsAtMaxinput(g, spaceAvl, input);
      ReadsOn(g, spaceAvl, input);
      WholeIsNotRange(g, spaceAvl, input);
      assert Enough(input, TwoParts(1, input)) && Enough(input, TwoParts(g.maxinput, input));
    }
  }

  /** A Tcl_DString's space before it has ever grown. */
  const STATIC_SIZE := 200

  /** A Conn used for the first time reads every input alike. */
  lemma FreshConnsAgree(g: Config, input: string)
    requires Sane(g)
    ensures Agree(g, STATIC_SIZE, input)
  {
    if !Fair(g, STATIC_SIZE, input) {
      NotFair(g, STATIC_SIZE, input);
    }
    AgreementIsFairness(g, STATIC_SIZE, input);
  }
}
