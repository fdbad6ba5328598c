/** What a request is accepted or refused for, in terms of its lines and fields. */
module RequestVerdicts {
  import opened Common
  import opened RequestSpec
  import opened RequestLaws
  import opened RequestRoundTrip

  // ----- fields by name -----

  /** The same letter in either case, or the same character. */
  ghost predicate SameLetter(a: char, b: char) {
    || a == b
    || ('A' <= a <= 'Z' && 'a' <= b <= 'z' && b as int - a as int == 32)
    || ('A' <= b <= 'Z' && 'a' <= a <= 'z' && a as int - b as int == 32)
  }

  ghost predicate Names(name: string, key: string) {
    |name| == |key| && forall i :: 0 <= i < |name| ==> SameLetter(name[i], key[i])
  }

  /** Field `i` is the first of that name. */
  ghost predicate FieldAt(headers: Headers, key: string, i: nat) {
    i < |headers| && Names(headers[i].0, key) && forall j :: 0 <= j < i ==> !Names(headers[j].0, key)
  }

  ghost predicate HasField(headers: Headers, key: string) {
    exists i: nat :: FieldAt(headers, key, i)
  }

  ghost predicate FieldIs(headers: Headers, key: string, value: string) {
    exists i: nat :: FieldAt(headers, key, i) && headers[i].1 == value
  }

  lemma SameKeyIsName(name: string, key: string)
    ensures SameKey(name, key) <==> Names(name, key)
  {
    forall i | 0 <= i < |name| && |name| == |key|
      ensures Lower(name[i]) == Lower(key[i]) <==> SameLetter(name[i], key[i])
    {
      SameLower(name[i], key[i]);
    }
  }

  lemma SameLower(a: char, b: char)
    ensures Lower(a) == Lower(b) <==> SameLetter(a, b)
  {
  }

  /** A lookup finds the first field whose name is the key's but for the case of letters. */
  lemma {:induction false} LookupIsFirst(headers: Headers, key: string)
    ensures IGet(headers, key) == None <==> !HasField(headers, key)
    ensures forall v :: IGet(headers, key) == Some(v) <==> FieldIs(headers, key, v)
  {
    hide SameKey; hide Names;
    if headers != [] {
      SameKeyIsName(headers[0].0, key);
      if Names(headers[0].0, key) {
        assert FieldAt(headers, key, 0);
      } else {
        LookupIsFirst(headers[1..], key);
        FieldsBehind(headers, key);
      }
    }
  }

  lemma FieldsBehind(headers: Headers, key: string)
    requires headers != [] && !Names(headers[0].0, key)
    ensures HasField(headers, key) <==> HasField(headers[1..], key)
    ensures forall v :: FieldIs(headers, key, v) <==> FieldIs(headers[1..], key, v)
  {
    hide Names;
    forall i: nat ensures FieldAt(headers, key, i + 1) <==> FieldAt(headers[1..], key, i) {
      ShiftedField(headers, key, i);
    }
    forall v ensures FieldIs(headers, key, v) <==> FieldIs(headers[1..], key, v) {
      if FieldIs(headers, key, v) {
        var i: nat :| FieldAt(headers, key, i) && headers[i].1 == v;
        assert FieldAt(headers[1..], key, i - 1) && headers[1..][i - 1] == headers[i];
      }
      if FieldIs(headers[1..], key, v) {
        var i: nat :| FieldAt(headers[1..], key, i) && headers[1..][i].1 == v;
        assert FieldAt(headers, key, i + 1);
      }
    }
    if HasField(headers, key) {
      var i: nat :| FieldAt(headers, key, i);
      assert FieldAt(headers[1..], key, i - 1);
    }
    if HasField(headers[1..], key) {
      var i: nat :| FieldAt(headers[1..], key, i);
      assert FieldAt(headers, key, i + 1);
    }
  }

  lemma ShiftedField(headers: Headers, key: string, i: nat)
    requires headers != [] && !Names(headers[0].0, key)
    ensures FieldAt(headers, key, i + 1) <==> FieldAt(headers[1..], key, i)
  {
    hide Names;
    var t := headers[1..];
    if FieldAt(t, key, i) {
      forall j | 0 <= j < i + 1 ensures !Names(headers[j].0, key) {
        if j > 0 { assert headers[j] == t[j - 1]; }
      }
    }
    if FieldAt(headers, key, i + 1) {
      forall j | 0 <= j < i ensures !Names(t[j].0, key) {
        assert t[j] == headers[j + 1];
      }
    }
  }

  // ----- the checks of a complete head -----

  /** The request is for a server this driver serves. */
  ghost predicate Served(g: Config, headers: Headers) {
    g.ownServer || exists v :: FieldIs(headers, "host", v) && g.knownHost(v)
  }

  /** The number in the Content-Length field, 0 if there is none. */
  ghost predicate LengthIs(g: Config, headers: Headers, n: int) {
    if HasField(headers, "content-length") then
      exists v :: FieldIs(headers, "content-length", v) && g.scanInt(v) == Some(n)
    else n == 0
  }

  ghost predicate HasLength(g: Config, headers: Headers) {
    exists n: nat :: LengthIs(g, headers, n)
  }

  /** The head is acceptable, and announces `n` bytes of content. */
  ghost predicate Acceptable(g: Config, line: string, headers: Headers, n: nat) {
    Served(g, headers) && g.hasMethod(line) && LengthIs(g, headers, n) && n <= g.maxupload(headers, line)
  }

  ghost predicate TooLong(g: Config, line: string, headers: Headers) {
    exists n: nat :: LengthIs(g, headers, n) && n > g.maxupload(headers, line)
  }

  /** The checks, each exactly when what it is for is the case and the earlier ones have passed. */
  lemma ChecksAre(g: Config, line: string, headers: Headers)
    ensures var r := Setup(g, line, headers);
            && (r == Err(NOHOST) <==> !g.ownServer && !HasField(headers, "host"))
            && (r == Err(NOSERV) <==> !Served(g, headers) && HasField(headers, "host"))
            && (r == Err(RINVAL) <==> Served(g, headers) && !g.hasMethod(line))
            && (r == Err(NINVAL) <==> Served(g, headers) && g.hasMethod(line) && !HasLength(g, headers))
            && (r == Err(CRANGE) <==> Served(g, headers) && g.hasMethod(line) && TooLong(g, line, headers))
            && (r.Err? ==> r.error in {NOHOST, NOSERV, RINVAL, NINVAL, CRANGE})
    ensures forall n: nat :: Setup(g, line, headers) == Ok(n) <==> Acceptable(g, line, headers, n)
  {
    HostIs(g, headers);
    LengthFound(g, headers);
    hide FieldAt; hide FieldIs; hide HasField; hide Served; hide LengthIs; hide IGet;
    var length := IGet(headers, "content-length");
    var number := if length.None? then Some(0) else g.scanInt(length.value);
    if number.Some? && number.value >= 0 {
      assert LengthIs(g, headers, number.value);
    }
  }

  lemma HostIs(g: Config, headers: Headers)
    ensures IGet(headers, "host") == None <==> !HasField(headers, "host")
    ensures Served(g, headers) <==>
              g.ownServer || (IGet(headers, "host").Some? && g.knownHost(IGet(headers, "host").value))
    ensures g.ownServer ==> Served(g, headers)
  {
    hide FieldAt; hide FieldIs; hide HasField; hide IGet;
    LookupIsFirst(headers, "host");
    if IGet(headers, "host").Some? {
      assert FieldIs(headers, "host", IGet(headers, "host").value);
    }
  }

  lemma LengthFound(g: Config, headers: Headers)
    ensures var length := IGet(headers, "content-length");
            forall n :: LengthIs(g, headers, n) <==>
              (if length.None? then Some(0) else g.scanInt(length.value)) == Some(n)
  {
    hide FieldAt; hide FieldIs; hide HasField; hide IGet;
    LookupIsFirst(headers, "content-length");
    if IGet(headers, "content-length").Some? {
      assert FieldIs(headers, "content-length", IGet(headers, "content-length").value);
    }
  }

  // ----- from the wire -----

  /** A head as a client writes it, which fits. */
  ghost predicate WellFormed(g: Config, spaceAvl: nat, line: string, headers: Headers)
    requires spaceAvl > 0
  {
    && line != "" && OneLine(line) && |line| + 1 <= g.maxline
    && g.major(line).Some? && g.major(line).value >= 1
    && (forall i :: 0 <= i < |headers| ==> GoodField(g, headers[i]))
    && |Rendered(line, headers)| <= Min(g.maxinput, Cap(g, spaceAvl))
  }

  /** What is made of a well-formed head and any content behind it, whatever the receives: it is
      refused exactly for what it lacks, and else read with as much content as it announces. */
  lemma RequestVerdict(g: Config, spaceAvl: nat, line: string, headers: Headers, content: string, wishes: seq<nat>)
    requires Sane(g) && spaceAvl > 0 && WellFormed(g, spaceAvl, line, headers)
    requires Enough(Rendered(line, headers) + content, wishes)
    ensures var input := Rendered(line, headers) + content;
            var out := Outcome(ReadAll(g, Fresh(spaceAvl), input, wishes));
            && (out == Rejected(NOHOST) <==> !g.ownServer && !HasField(headers, "host"))
            && (out == Rejected(NOSERV) <==> !Served(g, headers) && HasField(headers, "host"))
            && (out == Rejected(RINVAL) <==> Served(g, headers) && !g.hasMethod(line))
            && (out == Rejected(NINVAL) <==> Served(g, headers) && g.hasMethod(line) && !HasLength(g, headers))
            && (out == Rejected(CRANGE) <==> Served(g, headers) && g.hasMethod(line) && TooLong(g, line, headers))
            && forall n: nat :: Acceptable(g, line, headers, n) ==>
                 out == if |content| < n then (if g.ssl then Waiting else Rejected(CLOSE))
                        else Accepted(Request(line, headers, false, |Rendered(line, headers)| + n + 2 >= g.maxinput, n),
                                      content[..n])
  {
    hide ReadAll; hide Rendered; hide Setup; hide Cap; hide OneLine; hide GoodField; hide Whole; hide Fair; hide Enough;
    hide HasField; hide Served; hide HasLength; hide TooLong; hide Acceptable;
    HeadDecides(g, spaceAvl, line, headers, content);
    SplitsAgree(g, spaceAvl, Rendered(line, headers) + content, wishes);
    ChecksAre(g, line, headers);
  }

  /** From the wire to the request: whatever the receives, a well-formed request that fits the
      buffer, is for a known server or a server's own driver, has a method and announces its
      content's length is accepted with exactly its line, fields and body. */
  lemma RequestIsRead(g: Config, spaceAvl: nat, line: string, headers: Headers, body: string, wishes: seq<nat>)
    requires Sane(g) && spaceAvl > 0 && WellFormed(g, spaceAvl, line, headers)
    requires g.ownServer || exists v :: FieldIs(headers, "host", v) && g.knownHost(v)
    requires g.hasMethod(line) && |body| <= g.maxupload(headers, line)
    requires if HasField(headers, "content-length") then
               exists v :: FieldIs(headers, "content-length", v) && g.scanInt(v) == Some(|body|)
             else body == ""
    requires Enough(Rendered(line, headers) + body, wishes)
    ensures var head := Rendered(line, headers);
            Outcome(ReadAll(g, Fresh(spaceAvl), head + body, wishes))
              == Accepted(Request(line, headers, false, |head| + |body| + 2 >= g.maxinput, |body|), body)
  {
    assert Acceptable(g, line, headers, |body|);
    RequestVerdict(g, spaceAvl, line, headers, body, wishes);
    assert body[..|body|] == body;
  }

  // ----- lines that are refused, or are not what they seem -----

  /** The scanner behind some fields. */
  lemma {:induction false} ScanSome(g: Config, buf: string, h: Head, headers: Headers, t: string)
    requires Sane(g) && h.roff <= |buf| && h.line.Some? && !h.done
    requires forall i :: 0 <= i < |headers| ==> GoodField(g, headers[i])
    requires buf[h.roff..] == Fields(headers) + t
    ensures |buf| - |t| >= h.roff
    ensures var next := h.(roff := |buf| - |t|, headers := h.headers + headers);
            Scan(g, buf, h) == Scan(g, buf, next) && buf[next.roff..] == t
    decreases |headers|
  {
    hide Scan; hide FieldLine; hide ParseHeader; hide OneLine;
    if headers == [] {
      NoFields(h.headers);
      assert "" + t == t;
    } else {
      FieldThen(headers, t);
      ParsesField(g, h.headers, headers[0]);
      hide Fields; hide GoodField;
      ScanLine(g, buf, h, FieldLine(headers[0]), Fields(headers[1..]) + t);
      var next := TakeLine(g, h, FieldLine(headers[0]), h.roff + |FieldLine(headers[0])| + 2).value;
      ScanSome(g, buf, next, headers[1..], t);
      OneMore(h.headers, headers);
    }
  }

  lemma FieldThen(headers: Headers, t: string)
    requires headers != []
    ensures Fields(headers) + t == (FieldLine(headers[0]) + "\r\n") + (Fields(headers[1..]) + t)
  {
    hide FieldLine;
  }

  /** A request line, some fields and what comes behind them. */
  ghost function Begun(line: string, headers: Headers, t: string): string {
    (line + "\r\n") + (Fields(headers) + t)
  }

  lemma ScanBegun(g: Config, line: string, headers: Headers, t: string)
    requires Sane(g) && line != "" && OneLine(line) && |line| + 1 <= g.maxline
    requires g.major(line).Some? && g.major(line).value >= 1
    requires forall i :: 0 <= i < |headers| ==> GoodField(g, headers[i])
    ensures var buf := Begun(line, headers, t);
            && |buf| >= |t| && buf[|buf| - |t|..] == t
            && Scan(g, buf, START) == Scan(g, buf, Head(|buf| - |t|, Some(line), headers, false, false))
  {
    hide Scan; hide OneLine; hide Fields; hide GoodField;
    var buf := Begun(line, headers, t);
    assert buf[0..] == buf;
    ScanLine(g, buf, START, line, Fields(headers) + t);
    ScanSome(g, buf, Head(|line| + 2, Some(line), [], false, false), headers, t);
    assert [] + headers == headers;
  }

  /** What isspace is true of. */
  const BLANKS := " \t\n\U{0B}\U{0C}\r"

  lemma Blank(c: char)
    ensures IsSpace(c) <==> c in BLANKS
  {
  }

  /** The next line, `x`, ended by a newline with or without a carriage return. */
  ghost function EndedLine(x: string, cr: bool): string {
    x + (if cr then "\r\n" else "\n")
  }

  lemma LineEnd(x: string, cr: bool, t: string)
    requires OneLine(x) && (!cr ==> x == "" || x[|x| - 1] != '\r')
    ensures var tail, k := EndedLine(x, cr) + t, |x| + if cr then 1 else 0;
            k < |tail| && Newline(tail) == Some(k) && Trimmed(tail[..k]) == x
  {
    hide Newline; hide OneLine;
    if cr {
      LineParts((x + "\r\n") + t, x, t);
    } else {
      NewlineAfter(x, t);
      assert (x + "\n" + t)[..|x|] == x && Trimmed(x) == x;
    }
  }

  lemma NextIs(g: Config, buf: string, h: Head, x: string, cr: bool, t: string)
    requires h.roff <= |buf| && buf[h.roff..] == EndedLine(x, cr) + t && !h.done && OneLine(x)
    requires !cr ==> x == "" || x[|x| - 1] != '\r'
    ensures var k := |x| + if cr then 1 else 0;
            NextLine(g, buf, h) == if k > g.maxline then Some(Err(LRANGE)) else Some(TakeLine(g, h, x, h.roff + k + 1))
  {
    hide Newline; hide Trimmed; hide TakeLine; hide OneLine; hide EndedLine;
    LineEnd(x, cr, t);
  }

  /** A line behind well-formed ones is refused if and only if it is too long, or is no field and
      not the continuation of one; the end of lines may be bare newlines. */
  lemma LineVerdict(g: Config, line: string, headers: Headers, x: string, cr: bool, t: string)
    requires Sane(g) && line != "" && OneLine(line) && |line| + 1 <= g.maxline
    requires g.major(line).Some? && g.major(line).value >= 1
    requires forall i :: 0 <= i < |headers| ==> GoodField(g, headers[i])
    requires x != "" && OneLine(x) && (!cr ==> x[|x| - 1] != '\r')
    ensures var buf := Begun(line, headers, EndedLine(x, cr) + t);
            var long := |x| + (if cr then 1 else 0) > g.maxline;
            var bad := if x[0] in BLANKS then headers == [] else ':' !in x;
            && |buf| >= |t| && buf[|buf| - |t|..] == t
            && Scan(g, buf, START)
                 == if long then Err(LRANGE) else if bad then Err(HINVAL)
                    else Scan(g, buf, Head(|buf| - |t|, Some(line), Joined(headers, x), false, false))
  {
    hide ParseHeader; hide OneLine; hide GoodField; hide Begun; hide Joined; hide Scan; hide NextLine; hide EndedLine;
    var rest := EndedLine(x, cr) + t;
    var buf := Begun(line, headers, rest);
    ScanBegun(g, line, headers, rest);
    var h := Head(|buf| - |rest|, Some(line), headers, false, false);
    LineSize(x, cr, t);
    Slices(buf, h.roff, |EndedLine(x, cr)|);
    NextIs(g, buf, h, x, cr, t);
    ParsesLine(headers, x);
    ScanNext(g, buf, h);
  }

  lemma LineSize(x: string, cr: bool, t: string)
    ensures |EndedLine(x, cr)| == |x| + if cr then 2 else 1
    ensures |EndedLine(x, cr) + t| == |EndedLine(x, cr)| + |t|
    ensures (EndedLine(x, cr) + t)[|EndedLine(x, cr)|..] == t
  {
  }

  lemma ScanNext(g: Config, buf: string, h: Head)
    requires h.roff <= |buf|
    ensures var r := NextLine(g, buf, h);
            Scan(g, buf, h) == if r.None? then Ok(h)
                               else if r.value.Err? then Err(r.value.error) else Scan(g, buf, r.value.value)
  {
    hide NextLine;
  }

  /** The fields with one more, or with the last one's value continued by what is not space. */
  ghost function Joined(headers: Headers, x: string): Headers
    requires x != ""
  {
    if x[0] in BLANKS then
      if headers == [] || SkipSpace(x) == "" then headers
      else
        var last := headers[|headers| - 1];
        headers[..|headers| - 1] + [(last.0, last.1 + " " + SkipSpace(x))]
    else if ':' !in x then headers
    else
      var k := FirstColon(x);
      headers + [(x[..k], SkipSpace(x[k + 1..]))]
  }

  ghost function FirstColon(x: string): (k: nat)
    requires ':' in x
    ensures k < |x| && x[k] == ':' && forall i :: 0 <= i < k ==> x[i] != ':'
  {
    if x[0] == ':' then 0 else 1 + FirstColon(x[1..])
  }

  lemma ParsesLine(headers: Headers, x: string)
    requires x != ""
    ensures ParseHeader(headers, x)
         == if (if x[0] in BLANKS then headers == [] else ':' !in x) then None else Some(Joined(headers, x))
  {
    hide SkipSpace; hide Colon; hide FirstColon; hide IsSpace;
    Blank(x[0]);
    if x[0] in BLANKS {
      if headers != [] && SkipSpace(x) != "" {
        var n := |headers| - 1;
        var last := (headers[n].0, headers[n].1 + " " + SkipSpace(x));
        assert headers[n := last] == headers[..n] + [last];
      }
    } else {
      ColonIs(x);
    }
  }

  lemma ColonIs(x: string)
    ensures ':' !in x ==> Colon(x) == |x|
    ensures ':' in x ==> Colon(x) == FirstColon(x)
  {
    var k := Colon(x);
    forall i | 0 <= i < k ensures x[i] != ':' {
      assert x[..k][i] == x[i];
    }
  }

  /** A request line without an HTTP version, or of a version before 1.0, is all of its head, and
      is accepted without fields or content by a server's own driver. */
  lemma OldRequestIsRead(g: Config, spaceAvl: nat, line: string, content: string, wishes: seq<nat>)
    requires Sane(g) && spaceAvl > 0 && g.ownServer && g.hasMethod(line) && OneLine(line) && |line| + 1 <= g.maxline
    requires g.major(line).None? || g.major(line).value < 1
    requires |line| + 2 <= Min(g.maxinput, Cap(g, spaceAvl))
    requires Enough((line + "\r\n") + content, wishes)
    ensures Outcome(ReadAll(g, Fresh(spaceAvl), (line + "\r\n") + content, wishes))
         == Accepted(Request(line, [], true, |line| + 4 >= g.maxinput, 0), "")
  {
    hide ReadAll; hide Whole; hide Fair; hide Enough; hide Cap; hide OneLine; hide Scan; hide Seen;
    var input, n := (line + "\r\n") + content, |line| + 2;
    OldHead(g, line);
    assert input[..n] == line + "\r\n";
    SeenSize(g, spaceAvl, input);
    SettledPrefix(g, input, n, |Seen(g, spaceAvl, input)|);
    SettledPrefix(g, input, n, Min(g.maxinput, |input|));
    FairIs(g, spaceAvl, input);
    WholeIs(g, spaceAvl, input, Head(n, Some(line), [], true, true));
    SplitsAgree(g, spaceAvl, input, wishes);
  }

  lemma OldHead(g: Config, line: string)
    requires Sane(g) && OneLine(line) && |line| + 1 <= g.maxline
    requires g.major(line).None? || g.major(line).value < 1
    ensures Scan(g, line + "\r\n", START) == Ok(Head(|line| + 2, Some(line), [], true, true))
    ensures Settled(g, line + "\r\n")
  {
    var buf := line + "\r\n";
    assert buf[0..] == (line + "\r\n") + "";
    ScanLine(g, buf, START, line, "");
    ScanDone(g, buf, Head(|line| + 2, Some(line), [], true, true));
  }

  lemma FairIs(g: Config, spaceAvl: nat, input: string)
    requires spaceAvl > 0 && Settled(g, input[..Min(g.maxinput, |input|)])
    ensures Fair(g, spaceAvl, input)
  {
  }

  // ----- heads that do not end -----

  /** The input is given up as too long once maxinput bytes have been received, if the buffer holds
      as many; with less, the driver waits for more or finds the connection closed. */
  ghost function NeverEnds(g: Config, spaceAvl: nat, size: nat): Verdict
    requires spaceAvl > 0
  {
    if size >= g.maxinput && Cap(g, spaceAvl) >= g.maxinput then Rejected(RRANGE)
    else if g.ssl then Waiting else Rejected(CLOSE)
  }

  /** An input whose head has begun, but whose next line does not end. */
  lemma UnfinishedVerdict(g: Config, spaceAvl: nat, line: string, headers: Headers, t: string, wishes: seq<nat>)
    requires Sane(g) && spaceAvl > 0 && line != "" && OneLine(line) && |line| + 1 <= g.maxline
    requires g.major(line).Some? && g.major(line).value >= 1
    requires forall i :: 0 <= i < |headers| ==> GoodField(g, headers[i])
    requires |Begun(line, headers, "")| <= Cap(g, spaceAvl) && '\n' !in t
    requires Enough(Begun(line, headers, t), wishes)
    ensures var input := Begun(line, headers, t);
            Outcome(ReadAll(g, Fresh(spaceAvl), input, wishes)) == NeverEnds(g, spaceAvl, |input|)
  {
    hide ReadAll; hide Scan; hide Cap; hide OneLine; hide GoodField; hide Begun; hide Enough; hide Seen; hide NeverEnds;
    var input := Begun(line, headers, t);
    BegunIs(line, headers, t);
    SeenSize(g, spaceAvl, input);
    var k := |Seen(g, spaceAvl, input)| - |Begun(line, headers, "")|;
    BegunCut(line, headers, t, k);
    ScanBegun(g, line, headers, t[..k]);
    var buf := Begun(line, headers, t[..k]);
    var h := Head(|buf| - k, Some(line), headers, false, false);
    NotNext(g, buf, h);
    ScanNext(g, buf, h);
    Unsettled(g, spaceAvl, input, h);
    SplitsAgree(g, spaceAvl, input, wishes);
  }

  /** An input without any newline. */
  lemma NoLineVerdict(g: Config, spaceAvl: nat, input: string, wishes: seq<nat>)
    requires Sane(g) && spaceAvl > 0 && '\n' !in input && Enough(input, wishes)
    ensures Outcome(ReadAll(g, Fresh(spaceAvl), input, wishes)) == NeverEnds(g, spaceAvl, |input|)
  {
    hide ReadAll; hide Scan; hide Cap; hide Enough; hide Seen; hide NeverEnds;
    var seen := Seen(g, spaceAvl, input);
    SeenSize(g, spaceAvl, input);
    assert seen[0..] == seen && forall i :: 0 <= i < |seen| ==> seen[i] == input[i];
    NotNext(g, seen, START);
    ScanNext(g, seen, START);
    Unsettled(g, spaceAvl, input, START);
    SplitsAgree(g, spaceAvl, input, wishes);
  }

  lemma Unsettled(g: Config, spaceAvl: nat, input: string, h: Head)
    requires spaceAvl > 0 && Scan(g, Seen(g, spaceAvl, input), START) == Ok(h) && !h.done
    ensures Fair(g, spaceAvl, input) && Whole(g, spaceAvl, input) == NeverEnds(g, spaceAvl, |input|)
  {
    hide Scan; hide Seen;
  }

  lemma NotNext(g: Config, buf: string, h: Head)
    requires h.roff <= |buf| && '\n' !in buf[h.roff..]
    ensures NextLine(g, buf, h) == None
  {
    hide TakeLine; hide Trimmed;
  }

  lemma BegunIs(line: string, headers: Headers, t: string)
    ensures Begun(line, headers, t) == Begun(line, headers, "") + t
  {
    hide Fields;
    assert Fields(headers) + "" == Fields(headers);
    assert (line + "\r\n") + (Fields(headers) + t) == ((line + "\r\n") + Fields(headers)) + t;
  }

  lemma BegunCut(line: string, headers: Headers, t: string, k: int)
    requires 0 <= k <= |t|
    ensures Begun(line, headers, t)[..|Begun(line, headers, "")| + k] == Begun(line, headers, t[..k])
    ensures |Begun(line, headers, t[..k])| == |Begun(line, headers, "")| + k
  {
    BegunIs(line, headers, t);
    BegunIs(line, headers, t[..k]);
    hide Begun;
  }
}
