/** A well-formed request is read back exactly. */
module RequestRoundTrip {
  import opened Common
  import opened RequestSpec
  import opened RequestLaws

  /** Fit for one line. */
  ghost predicate OneLine(s: string) {
    forall i :: 0 <= i < |s| ==> s[i] != '\n' && s[i] != '\0'
  }

  ghost predicate GoodField(g: Config, f: (string, string)) {
    && OneLine(f.0) && ':' !in f.0 && (f.0 != "" ==> !IsSpace(f.0[0]))
    && OneLine(f.1) && (f.1 != "" ==> !IsSpace(f.1[0]))
    && |f.0| + |f.1| + 3 <= g.maxline
  }

  ghost function FieldLine(f: (string, string)): string {
    f.0 + ": " + f.1
  }

  ghost function Fields(headers: Headers): string {
    if headers == [] then "" else (FieldLine(headers[0]) + "\r\n") + Fields(headers[1..])
  }

  ghost function Rendered(line: string, headers: Headers): string {
    (line + "\r\n") + (Fields(headers) + "\r\n")
  }

  lemma {:induction false} NewlineAfter(x: string, t: string)
    requires OneLine(x)
    ensures Newline(x + "\n" + t) == Some(|x|)
  {
    if x != "" {
      NewlineAfter(x[1..], t);
      assert (x + "\n" + t)[1..] == x[1..] + "\n" + t;
    }
  }

  lemma LineParts(tail: string, x: string, t: string)
    requires tail == (x + "\r\n") + t && OneLine(x)
    ensures Newline(tail) == Some(|x| + 1) && tail[..|x| + 1] == x + "\r" && tail[|x| + 2..] == t
    ensures Trimmed(x + "\r") == x && |tail| == |x| + 2 + |t|
  {
    hide Newline;
    assert (x + "\r") + "\n" + t == tail;
    NewlineAfter(x + "\r", t);
  }

  lemma Slices(buf: string, r: nat, k: nat)
    requires r + k <= |buf|
    ensures buf[r + k..] == buf[r..][k..]
  {
  }

  lemma NextLineIs(g: Config, buf: string, h: Head, x: string, t: string)
    requires h.roff <= |buf| && buf[h.roff..] == (x + "\r\n") + t && !h.done
    requires OneLine(x) && |x| + 1 <= g.maxline
    ensures NextLine(g, buf, h) == Some(TakeLine(g, h, x, h.roff + |x| + 2))
  {
    LineParts(buf[h.roff..], x, t);
    hide Newline; hide Trimmed; hide TakeLine; hide OneLine;
    Length(x);
  }

  lemma Length(x: string)
    ensures |x + "\r"| == |x| + 1
  {
  }

  /** The scanner at the start of a line `x`. */
  lemma ScanLine(g: Config, buf: string, h: Head, x: string, t: string)
    requires h.roff <= |buf| && buf[h.roff..] == (x + "\r\n") + t && !h.done
    requires OneLine(x) && |x| + 1 <= g.maxline
    requires TakeLine(g, h, x, h.roff + |x| + 2).Ok?
    ensures var next := TakeLine(g, h, x, h.roff + |x| + 2).value;
            && next.roff == h.roff + |x| + 2 <= |buf| && buf[next.roff..] == t
            && Scan(g, buf, h) == Scan(g, buf, next)
  {
    NextLineIs(g, buf, h, x, t);
    TakesTo(g, h, x, h.roff + |x| + 2);
    LineParts(buf[h.roff..], x, t);
    hide NextLine; hide TakeLine; hide OneLine; hide Newline; hide Trimmed;
    Slices(buf, h.roff, |x| + 2);
  }

  lemma TakesTo(g: Config, h: Head, x: string, roff: nat)
    ensures TakeLine(g, h, x, roff).Ok? ==> TakeLine(g, h, x, roff).value.roff == roff
  {
    hide ParseHeader;
  }

  lemma {:induction false} ColonAfter(key: string, t: string)
    requires ':' !in key
    ensures Colon(key + ":" + t) == |key|
  {
    if key != "" {
      ColonAfter(key[1..], t);
      assert (key + ":" + t)[1..] == key[1..] + ":" + t;
    }
  }

  lemma FieldParts(f: (string, string))
    requires OneLine(f.0) && OneLine(f.1)
    ensures var line, k := FieldLine(f), |f.0|;
            line == f.0 + ":" + (" " + f.1) && |line| == k + 2 + |f.1| && line[..k] == f.0 && line[k + 1..] == " " + f.1
            && line[0] == (if f.0 == "" then ':' else f.0[0]) && OneLine(line)
  {
  }

  lemma Unspaced(v: string)
    requires v != "" ==> !IsSpace(v[0])
    ensures SkipSpace(" " + v) == v
  {
    assert (" " + v)[1..] == v;
  }

  lemma ParsesField(g: Config, headers: Headers, f: (string, string))
    requires GoodField(g, f)
    ensures FieldLine(f) != "" && ParseHeader(headers, FieldLine(f)) == Some(headers + [f])
    ensures OneLine(FieldLine(f)) && |FieldLine(f)| + 1 <= g.maxline
  {
    FieldParts(f);
    ColonAfter(f.0, " " + f.1);
    Unspaced(f.1);
    hide FieldLine; hide OneLine; hide SkipSpace; hide Colon;
  }

  lemma FieldsUnfold(headers: Headers, body: string)
    requires headers != []
    ensures (Fields(headers) + "\r\n") + body
         == (FieldLine(headers[0]) + "\r\n") + ((Fields(headers[1..]) + "\r\n") + body)
  {
    hide FieldLine;
  }

  lemma {:induction false} ScanFields(g: Config, buf: string, h: Head, headers: Headers, body: string)
    requires Sane(g) && h.roff <= |buf| && h.line.Some? && !h.done
    requires forall i :: 0 <= i < |headers| ==> GoodField(g, headers[i])
    requires buf[h.roff..] == (Fields(headers) + "\r\n") + body
    ensures Scan(g, buf, h) == Ok(h.(roff := |buf| - |body|, headers := h.headers + headers, done := true))
    decreases |headers|
  {
    hide Scan; hide FieldLine; hide ParseHeader; hide OneLine;
    if headers == [] {
      NoFields(h.headers);
      assert "" + "\r\n" == Fields([]) + "\r\n";
      ScanLine(g, buf, h, "", body);
      ScanDone(g, buf, h.(roff := h.roff + 2, done := true));
    } else {
      FieldsUnfold(headers, body);
      ParsesField(g, h.headers, headers[0]);
      hide Fields; hide GoodField;
      ScanLine(g, buf, h, FieldLine(headers[0]), (Fields(headers[1..]) + "\r\n") + body);
      var next := TakeLine(g, h, FieldLine(headers[0]), h.roff + |FieldLine(headers[0])| + 2).value;
      ScanFields(g, buf, next, headers[1..], body);
      OneMore(h.headers, headers);
    }
  }

  lemma NoFields(a: Headers)
    ensures a + [] == a && Fields([]) == "" && OneLine("")
  {
  }

  lemma OneMore(a: Headers, b: Headers)
    requires b != []
    ensures (a + [b[0]]) + b[1..] == a + b
  {
  }

  /** The head of an HTTP/1 request, as a client writes it, gives its line and its fields. */
  lemma HeadIsRead(g: Config, line: string, headers: Headers, body: string)
    requires Sane(g) && line != "" && OneLine(line) && |line| + 1 <= g.maxline
    requires g.major(line).Some? && g.major(line).value >= 1
    requires forall i :: 0 <= i < |headers| ==> GoodField(g, headers[i])
    ensures Scan(g, Rendered(line, headers) + body, START)
         == Ok(Head(|Rendered(line, headers)|, Some(line), headers, false, true))
  {
    var buf, rest := Rendered(line, headers) + body, (Fields(headers) + "\r\n") + body;
    RenderedParts(line, headers, body);
    hide Scan; hide Rendered; hide OneLine; hide Fields;
    ScanLine(g, buf, START, line, rest);
    ScanFields(g, buf, Head(|line| + 2, Some(line), [], false, false), headers, body);
    assert [] + headers == headers;
  }

  lemma RenderedParts(line: string, headers: Headers, body: string)
    ensures (Rendered(line, headers) + body)[0..] == (line + "\r\n") + ((Fields(headers) + "\r\n") + body)
  {
    hide Fields;
  }

  /** What one look at a well-formed head and what is behind it says. */
  lemma HeadDecides(g: Config, spaceAvl: nat, line: string, headers: Headers, content: string)
    requires Sane(g) && spaceAvl > 0 && line != "" && OneLine(line) && |line| + 1 <= g.maxline
    requires g.major(line).Some? && g.major(line).value >= 1
    requires forall i :: 0 <= i < |headers| ==> GoodField(g, headers[i])
    requires |Rendered(line, headers)| <= Min(g.maxinput, Cap(g, spaceAvl))
    ensures var head, r := Rendered(line, headers), Setup(g, line, headers);
            && Fair(g, spaceAvl, head + content)
            && Whole(g, spaceAvl, head + content)
                 == match r
                    case Err(e) => Rejected(e)
                    case Ok(n) =>
                      WholeBody(g, Request(line, headers, false, |head| + n + 2 >= g.maxinput, n), content)
  {
    var head := Rendered(line, headers);
    var input, n := head + content, |head|;
    hide Rendered; hide Setup; hide Cap; hide OneLine; hide GoodField; hide WholeBody;
    HeadIsRead(g, line, headers, "");
    assert head + "" == head && input[..n] == head && input[n..] == content;
    hide Seen; hide Scan;
    SeenSize(g, spaceAvl, input);
    SettledPrefix(g, input, n, |Seen(g, spaceAvl, input)|);
    SettledPrefix(g, input, n, Min(g.maxinput, |input|));
    WholeIs(g, spaceAvl, input, Head(n, Some(line), headers, false, true));
    hide Whole;
  }

  lemma WholeIs(g: Config, spaceAvl: nat, input: string, h: Head)
    requires spaceAvl > 0 && Scan(g, Seen(g, spaceAvl, input), START) == Ok(h) && h.done && h.line.Some?
    requires h.roff <= |input|
    ensures Whole(g, spaceAvl, input)
         == match Setup(g, h.line.value, h.headers)
            case Err(e) => Rejected(e)
            case Ok(n) =>
              WholeBody(g, Request(h.line.value, h.headers, h.skip, h.roff + n + 2 >= g.maxinput, n), input[h.roff..])
  {
    hide Scan; hide Setup; hide Seen; hide WholeBody;
  }

  lemma SeenSize(g: Config, spaceAvl: nat, input: string)
    requires spaceAvl > 0
    ensures |Seen(g, spaceAvl, input)| == Min(Cap(g, spaceAvl), |input|)
    ensures Seen(g, spaceAvl, input) == input[..Min(Cap(g, spaceAvl), |input|)]
  {
  }

  // ----- oversized buffers -----

  lemma {:induction false} NoNewline(s: string)
    requires '\n' !in s
    ensures Newline(s) == None
  {
    if s != "" {
      NoNewline(s[1..]);
    }
  }

  /** The first line of a buffer, up to its newline. */
  lemma FirstLine(g: Config, x: string, t: string)
    requires OneLine(x)
    ensures NextLine(g, x + "\n" + t, START)
         == Some(if |x| > g.maxline then Err(LRANGE) else TakeLine(g, START, Trimmed(x), |x| + 1))
  {
    var buf := x + "\n" + t;
    NewlineAfter(x, t);
    assert buf[0..] == buf && buf[..|x|] == x;
    hide Newline; hide TakeLine; hide Trimmed; hide OneLine;
  }

  lemma NotYet(g: Config, x: string)
    requires '\n' !in x
    ensures !Settled(g, x)
  {
    NoNewline(x);
    assert x[0..] == x;
  }

  /** A head whose end is one byte behind maxinput: a line that is too long, a request of HTTP/0.9
      with its carriage return, or a request without fields. */
  lemma EndsBehind(g: Config) returns (input: string)
    requires Sane(g)
    ensures |input| == g.maxinput + 1 && Settled(g, input) && !Settled(g, input[..g.maxinput])
  {
    var x := seq(g.maxinput - 1, _ => 'x');
    var early := g.major(x).None? || g.major(x).value < 1;
    if g.maxline < g.maxinput || early {
      var last := if g.maxline < g.maxinput then 'x' else '\r';
      var y := x + [last];
      input := y + "\n" + "";
      assert input[..g.maxinput] == y;
      NotYet(g, y);
      FirstLine(g, y, "");
      if g.maxline >= g.maxinput {
        assert y[..|y| - 1] == x;
        ScanDone(g, input, TakeLine(g, START, x, |y| + 1).value);
      }
    } else {
      input := x + "\n" + "\n";
      var h := TakeLine(g, START, x, g.maxinput).value;
      assert input[..g.maxinput] == x + "\n" + "";
      FirstLine(g, x, "\n");
      FirstLine(g, x, "");
      EmptyLine(g, input, h);
      NothingLeft(g, x + "\n" + "", h);
    }
  }

  lemma EmptyLine(g: Config, buf: string, h: Head)
    requires h.roff + 1 == |buf| && buf[h.roff] == '\n' && h.line.Some? && !h.done
    ensures Scan(g, buf, h) == Ok(h.(roff := |buf|, done := true))
  {
    assert buf[h.roff..] == "\n" && buf[h.roff..][..0] == "";
    assert Newline("\n") == Some(0);
    assert NextLine(g, buf, h) == Some(Ok(h.(roff := |buf|, done := true)));
    ScanDone(g, buf, h.(roff := |buf|, done := true));
  }

  lemma NothingLeft(g: Config, buf: string, h: Head)
    requires h.roff == |buf|
    ensures Scan(g, buf, h) == Ok(h)
  {
    assert buf[h.roff..] == "";
  }

  /** There are inputs that a Conn does not read alike if and only if its buffer holds more than
      maxinput bytes. */
  lemma OversizedConnsDisagree(g: Config, spaceAvl: nat)
    requires Sane(g) && spaceAvl > 0
    ensures (exists input :: !Agree(g, spaceAvl, input)) <==> Cap(g, spaceAvl) > g.maxinput
  {
    hide Settled; hide Cap; hide Agree;
    if Cap(g, spaceAvl) > g.maxinput {
      var input := EndsBehind(g);
      assert Seen(g, spaceAvl, input) == input;
      AgreementIsFairness(g, spaceAvl, input);
    } else {
      forall input | !Agree(g, spaceAvl, input)
        ensures false
      {
        AgreementIsFairness(g, spaceAvl, input);
        NotFair(g, spaceAvl, input);
      }
    }
  }
}
