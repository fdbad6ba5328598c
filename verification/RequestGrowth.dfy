/** What a Conn's buffer grows to while the Conn is used again and again, and so which
    configurations have Conns that do not read every input alike. */
module RequestGrowth {
  import opened Common
  import opened RequestSpec
  import opened RequestLaws
  import opened RequestRoundTrip
  import opened RequestReader

  /** One use of a Conn: what the peer sends, and the receives until the Conn is freed. */
  datatype Use = Use(input: string, wishes: seq<nat>)

  ghost function Served(g: Config, spaceAvl: nat, use: Use): (s: State)
    requires Sane(g) && spaceAvl > 0
  {
    ReadAll(g, Fresh(spaceAvl), use.input, use.wishes)
  }

  /** The space left by a history of uses. */
  ghost function SpaceAfter(g: Config, spaceAvl: nat, history: seq<Use>): (r: nat)
    requires Sane(g) && spaceAvl > 0
    ensures r > 0
    decreases |history|
  {
    if history == [] then spaceAvl
    else
      GrowsOnly(g, Fresh(spaceAvl), history[0].input, history[0].wishes);
      SpaceAfter(g, Served(g, spaceAvl, history[0]).spaceAvl, history[1..])
  }

  lemma {:induction false} GrowsOnly(g: Config, s: State, rest: string, wishes: seq<nat>)
    requires Sane(g) && Fits(g, s)
    ensures ReadAll(g, s, rest, wishes).spaceAvl >= s.spaceAvl
    decreases |wishes|
  {
    if wishes != [] {
      StepFits(g, s, rest, wishes[0]);
      var r := SockRead(g, s, rest, wishes[0]);
      StepGrows(g, s, rest, wishes[0]);
      hide SockRead; hide Fits;
      GrowsOnly(g, r.0, rest[r.1..], wishes[1..]);
    }
  }

  lemma StepGrows(g: Config, s: State, rest: string, wish: nat)
    requires Sane(g) && Fits(g, s)
    ensures SockRead(g, s, rest, wish).0.spaceAvl >= s.spaceAvl
  {
    hide Scan; hide Setup;
  }

  /** Conns freed and taken again on the heap: the buffer's space is that of the history. */
  method ServeAll(g: Config, c: Conn, history: seq<Use>, ghost spaceAvl: nat)
    requires Sane(g) && c.Is(Fresh(spaceAvl)) && spaceAvl > 0
    modifies c
    ensures c.Is(Fresh(SpaceAfter(g, spaceAvl, history)))
  {
    var i := 0;
    ghost var sp := spaceAvl;
    hide c.Is; hide ReadAll;
    while i < |history|
      invariant i <= |history| && sp > 0 && c.Is(Fresh(sp))
      invariant SpaceAfter(g, sp, history[i..]) == SpaceAfter(g, spaceAvl, history)
    {
      assert history[i..][1..] == history[i + 1..] && history[i..][0] == history[i];
      c.ReadRequest(g, history[i].input, history[i].wishes, Fresh(sp));
      GrowsOnly(g, Fresh(sp), history[i].input, history[i].wishes);
      ghost var s := Served(g, sp, history[i]);
      c.SpaceIs(s);
      c.Reuse(s);
      sp, i := s.spaceAvl, i + 1;
    }
    assert history[i..] == [];
  }

  // ----- what one use can do -----

  /** The space from the first receive on. */
  ghost function Widened(g: Config, spaceAvl: nat): nat
    requires spaceAvl > 0
  {
    Grown(spaceAvl, Room(g, spaceAvl))
  }

  /** The space is as it was, or as the head needs it, or made for a content in memory. */
  ghost predicate Left(g: Config, spaceAvl: nat, r: nat)
    requires spaceAvl > 0
  {
    || r == spaceAvl || r == Widened(g, spaceAvl)
    || exists m: nat :: m < g.maxinput && r == Grown(Widened(g, spaceAvl), m)
  }

  lemma {:induction false} ContentKeeps(g: Config, s: State, rest: string, wishes: seq<nat>)
    requires Sane(g) && Fits(g, s) && !s.Reading?
    ensures ReadAll(g, s, rest, wishes).spaceAvl == s.spaceAvl
    decreases |wishes|
  {
    if wishes != [] {
      StepFits(g, s, rest, wishes[0]);
      var r := SockRead(g, s, rest, wishes[0]);
      ContentKeeps(g, r.0, rest[r.1..], wishes[1..]);
    }
  }

  lemma Widens(g: Config, spaceAvl: nat)
    requires spaceAvl > 0 && Sane(g)
    ensures var sp := Widened(g, spaceAvl); sp > 0 && Grown(sp, Room(g, sp)) == sp
  {
  }

  lemma LeftAsIs(g: Config, spaceAvl: nat)
    requires spaceAvl > 0
    ensures Left(g, spaceAvl, spaceAvl) && Left(g, spaceAvl, Widened(g, spaceAvl))
  {
  }

  lemma HeadStep(g: Config, spaceAvl: nat, s: State, rest: string, wish: nat)
    requires Sane(g) && Fits(g, s) && spaceAvl > 0 && s.Reading?
    requires s.spaceAvl == spaceAvl || s.spaceAvl == Widened(g, spaceAvl)
    ensures var r := SockRead(g, s, rest, wish).0;
            if r.Reading? then r.spaceAvl == Widened(g, spaceAvl) else Left(g, spaceAvl, r.spaceAvl)
  {
    hide Scan; hide Setup; hide Room; hide Left;
    Widens(g, spaceAvl);
    LeftAsIs(g, spaceAvl);
    var r := SockRead(g, s, rest, wish);
    if |s.buf| < g.maxinput && r.1 > 0 {
      var buf, sp := s.buf + rest[..r.1], Widened(g, spaceAvl);
      var q := Scan(g, buf, s.head);
      if q.Ok? && q.value.done && q.value.line.Some? {
        var checked := Setup(g, q.value.line.value, q.value.headers);
        if checked.Ok? {
          SizedLeft(g, spaceAvl, q.value.roff, checked.value, |buf|);
        }
      }
    }
  }

  lemma SizedLeft(g: Config, spaceAvl: nat, roff: nat, length: nat, n: nat)
    requires spaceAvl > 0 && roff <= n && n < Widened(g, spaceAvl)
    ensures Left(g, spaceAvl, Sized(g, Widened(g, spaceAvl), roff, length))
  {
    var m := roff + length + 2;
    assert m < g.maxinput ==> Grown(Widened(g, spaceAvl), m) == Sized(g, Widened(g, spaceAvl), roff, length);
  }

  lemma {:induction false} UseLeaves(g: Config, spaceAvl: nat, s: State, rest: string, wishes: seq<nat>)
    requires Sane(g) && Fits(g, s) && spaceAvl > 0 && s.Reading?
    requires s.spaceAvl == spaceAvl || s.spaceAvl == Widened(g, spaceAvl)
    ensures Left(g, spaceAvl, ReadAll(g, s, rest, wishes).spaceAvl)
    decreases |wishes|
  {
    hide Left; hide SockRead; hide Fits; hide Widened;
    if wishes == [] {
      LeftAsIs(g, spaceAvl);
    } else {
      StepFits(g, s, rest, wishes[0]);
      HeadStep(g, spaceAvl, s, rest, wishes[0]);
      var r := SockRead(g, s, rest, wishes[0]);
      if r.0.Reading? {
        UseLeaves(g, spaceAvl, r.0, rest[r.1..], wishes[1..]);
      } else {
        ContentKeeps(g, r.0, rest[r.1..], wishes[1..]);
      }
    }
  }

  // ----- configurations whose buffers stay small -----

  /** A new Conn's first receive makes its buffer STATIC_SIZE + bufsize bytes large; a content
      that fits maxinput doubles that, and so on. The buffer comes to hold more than maxinput
      bytes unless it does so neither at once nor by its only doubling. */
  ghost predicate Outgrows(g: Config) {
    var s := STATIC_SIZE + g.bufsize;
    s < g.maxinput && 2 * s != g.maxinput && 2 * s != g.maxinput + 1
  }

  /** The sizes that the buffers of the other configurations have. */
  ghost predicate Modest(g: Config, spaceAvl: nat) {
    var s := STATIC_SIZE + g.bufsize;
    spaceAvl == STATIC_SIZE || spaceAvl == Min(s, g.maxinput + 1) || (s < g.maxinput && spaceAvl == 2 * s)
  }

  lemma ModestStays(g: Config, spaceAvl: nat, r: nat)
    requires Sane(g) && !Outgrows(g) && spaceAvl > 0 && Modest(g, spaceAvl) && Left(g, spaceAvl, r)
    ensures Modest(g, r)
  {
  }

  lemma ModestHolds(g: Config, spaceAvl: nat)
    requires Sane(g) && !Outgrows(g) && spaceAvl > 0 && Modest(g, spaceAvl)
    ensures Cap(g, spaceAvl) <= g.maxinput
  {
  }

  lemma {:induction false} StaysModest(g: Config, spaceAvl: nat, history: seq<Use>)
    requires Sane(g) && !Outgrows(g) && spaceAvl > 0 && Modest(g, spaceAvl)
    ensures Modest(g, SpaceAfter(g, spaceAvl, history))
    decreases |history|
  {
    if history != [] {
      var sp := Served(g, spaceAvl, history[0]).spaceAvl;
      GrowsOnly(g, Fresh(spaceAvl), history[0].input, history[0].wishes);
      UseLeaves(g, spaceAvl, Fresh(spaceAvl), history[0].input, history[0].wishes);
      ModestStays(g, spaceAvl, sp);
      StaysModest(g, sp, history[1..]);
    }
  }

  /** There a Conn reads every input alike, whatever it was used for before. */
  lemma ReusedConnsAgree(g: Config, history: seq<Use>, input: string)
    requires Sane(g) && !Outgrows(g)
    ensures Agree(g, SpaceAfter(g, STATIC_SIZE, history), input)
  {
    var sp := SpaceAfter(g, STATIC_SIZE, history);
    StaysModest(g, STATIC_SIZE, history);
    ModestHolds(g, sp);
    OversizedConnsDisagree(g, sp);
  }

  // ----- and in the others they grow -----

  /** What scanInt reads as `n`. */
  ghost predicate Numeral(g: Config, t: string, n: nat) {
    0 < |t| <= 10 && OneLine(t) && !IsSpace(t[0]) && g.scanInt(t) == Some(n)
  }

  ghost predicate HasNumeral(g: Config, n: nat) {
    exists t :: Numeral(g, t, n)
  }

  /** Some request line and some host are accepted, numbers below maxinput have numerals, and
      uploads of that size are allowed. */
  ghost predicate Ordinary(g: Config, line: string, host: string) {
    && 0 < |line| <= 255 && OneLine(line) && g.hasMethod(line)
    && g.major(line).Some? && g.major(line).value >= 1
    && 0 < |host| <= 200 && OneLine(host) && !IsSpace(host[0]) && g.knownHost(host)
    && (forall n: nat :: n < g.maxinput ==> HasNumeral(g, n))
    && (forall headers :: g.maxupload(headers, line) >= g.maxinput)
  }

  ghost function Posted(host: string, number: string): Headers
    requires |number| <= 10
  {
    [("host", host), ("content-length", number), ("x", seq(10 - |number|, _ => 'x'))]
  }

  lemma PostedLength(line: string, host: string, number: string)
    requires |number| <= 10
    ensures |Rendered(line, Posted(host, number))| == |line| + |host| + 45
  {
    var h := Posted(host, number);
    assert h[1..][1..][1..] == [];
    assert Fields(h[1..][1..]) == FieldLine(h[2]) + "\r\n" + "";
    assert Fields(h[1..]) == (FieldLine(h[1]) + "\r\n") + Fields(h[1..][1..]);
  }

  lemma PostedIsGood(g: Config, line: string, host: string, number: string, n: nat)
    requires Sane(g) && Ordinary(g, line, host) && Numeral(g, number, n) && n < g.maxinput
    ensures var h := Posted(host, number);
            Setup(g, line, h) == Ok(n) && forall i :: 0 <= i < |h| ==> GoodField(g, h[i])
  {
    var h := Posted(host, number);
    assert SameKey("host", "host") && SameKey("content-length", "content-length");
    assert IGet(h, "host") == Some(host);
    assert !SameKey("host", "content-length") && h[1..][0] == h[1];
    assert IGet(h, "content-length") == IGet(h[1..], "content-length") == Some(number);
  }

  /** One accepted request whose head and content need `m` bytes of the buffer. */
  lemma Request(g: Config, line: string, host: string, spaceAvl: nat, m: nat) returns (use: Use)
    requires Sane(g) && Ordinary(g, line, host) && spaceAvl > 0 && 1024 <= m < g.maxinput
    ensures var s := Served(g, spaceAvl, use); s.Ready? && s.spaceAvl == Grown(Widened(g, spaceAvl), m)
  {
    var n := m - |line| - |host| - 47;
    assert HasNumeral(g, n);
    var number :| Numeral(g, number, n);
    var headers, body := Posted(host, number), seq(n, _ => 'x');
    PostedLength(line, host, number);
    PostedIsGood(g, line, host, number, n);
    use := Taken(g, spaceAvl, line, headers, body);
  }

  /** A well-formed request, the head of which comes with the first receive. */
  lemma Taken(g: Config, spaceAvl: nat, line: string, headers: Headers, body: string) returns (use: Use)
    requires Sane(g) && spaceAvl > 0 && line != "" && OneLine(line) && |line| + 1 <= g.maxline
    requires g.major(line).Some? && g.major(line).value >= 1
    requires forall i :: 0 <= i < |headers| ==> GoodField(g, headers[i])
    requires Setup(g, line, headers) == Ok(|body|)
    requires |Rendered(line, headers)| <= 1024
    requires |Rendered(line, headers)| + |body| + 2 < g.maxinput
    ensures var s := Served(g, spaceAvl, use);
            s.Ready? && s.spaceAvl == Grown(Widened(g, spaceAvl), |Rendered(line, headers)| + |body| + 2)
  {
    var head := Rendered(line, headers);
    var input := head + body;
    RoomSettles(g, spaceAvl);
    HasRoom(g, spaceAvl);
    hide Rendered; hide Scan; hide Setup; hide Room; hide OneLine; hide GoodField; hide Cap; hide Grown;
    RenderedParts(line, headers, "");
    var wishes := TwoParts(|head|, input);
    use := Use(input, wishes);
    HeadDecides(g, spaceAvl, line, headers, body);
    SplitsAgree(g, spaceAvl, input, wishes);
    HeadIsRead(g, line, headers, "");
    assert head + "" == head && input[..|head|] == head && input[|head|..] == body && head[0..] == head;
    var h := Head(|head|, Some(line), headers, false, true);
    TakesHead(g, spaceAvl, input, head, h, |body|);
    StepFits(g, Fresh(spaceAvl), input, |head|);
    ContentKeeps(g, Begin(g, h, "", |body|, Widened(g, spaceAvl)), body, wishes[1..]);
  }

  lemma TakesHead(g: Config, spaceAvl: nat, input: string, head: string, h: Head, length: nat)
    requires Sane(g) && spaceAvl > 0 && 0 < |head| <= Room(g, spaceAvl) && head <= input && h.roff == |head|
    requires Scan(g, head, START) == Ok(h) && h.done && h.line.Some? && Setup(g, h.line.value, h.headers) == Ok(length)
    ensures SockRead(g, Fresh(spaceAvl), input, |head|) == (Begin(g, h, "", length, Widened(g, spaceAvl)), |head|)
  {
    hide Scan; hide Setup; hide Room; hide Begin;
    assert "" + input[..|head|] == head && head[|head|..] == "";
  }

  lemma HasRoom(g: Config, spaceAvl: nat)
    requires Sane(g) && spaceAvl > 0
    ensures Room(g, spaceAvl) >= 1024
  {
  }

  ghost predicate AllAccepted(g: Config, spaceAvl: nat, history: seq<Use>)
    requires Sane(g) && spaceAvl > 0
    decreases |history|
  {
    history != [] ==>
      && Served(g, spaceAvl, history[0]).Ready?
      && (GrowsOnly(g, Fresh(spaceAvl), history[0].input, history[0].wishes);
          AllAccepted(g, Served(g, spaceAvl, history[0]).spaceAvl, history[1..]))
  }

  lemma FirstUse(g: Config, spaceAvl: nat, use: Use, more: seq<Use>)
    requires Sane(g) && spaceAvl > 0
    ensures var sp := Served(g, spaceAvl, use).spaceAvl;
            && sp > 0
            && SpaceAfter(g, spaceAvl, [use] + more) == SpaceAfter(g, sp, more)
            && (AllAccepted(g, spaceAvl, [use] + more)
                <==> Served(g, spaceAvl, use).Ready? && AllAccepted(g, sp, more))
  {
    GrowsOnly(g, Fresh(spaceAvl), use.input, use.wishes);
    assert ([use] + more)[1..] == more;
  }

  /** At most two accepted requests make a new Conn's buffer hold more than maxinput bytes. */
  lemma Outgrown(g: Config, line: string, host: string) returns (history: seq<Use>)
    requires Sane(g) && Ordinary(g, line, host) && Outgrows(g)
    ensures |history| <= 2 && AllAccepted(g, STATIC_SIZE, history)
    ensures Cap(g, SpaceAfter(g, STATIC_SIZE, history)) > g.maxinput
  {
    var s, t := STATIC_SIZE + g.bufsize, g.maxinput - 1;
    hide Ordinary; hide Served; hide SpaceAfter; hide AllAccepted;
    NothingYet(g);
    if 2 * s >= g.maxinput + 2 {
      var use := Request(g, line, host, STATIC_SIZE, s);
      FirstUse(g, STATIC_SIZE, use, []);
      NoMore(g, 2 * s);
      history := [use] + [];
    } else {
      var use := Request(g, line, host, STATIC_SIZE, if 2 * s == t then s else t - 1);
      var again := Request(g, line, host, t, t);
      FirstUse(g, STATIC_SIZE, use, [again] + []);
      FirstUse(g, t, again, []);
      NoMore(g, 2 * t);
      history := [use] + ([again] + []);
    }
  }

  lemma NothingYet(g: Config)
    requires Sane(g) && Outgrows(g)
    ensures Widened(g, STATIC_SIZE) == STATIC_SIZE + g.bufsize
    ensures forall sp :: sp >= STATIC_SIZE + g.bufsize ==> Widened(g, sp) == sp && Cap(g, sp) == sp - 1
  {
  }

  lemma NoMore(g: Config, sp: nat)
    requires Sane(g) && sp > 0
    ensures SpaceAfter(g, sp, []) == sp && AllAccepted(g, sp, [])
  {
  }

  /** All Conns read every input alike, new or used before, if and only if the sizes are such
      that a buffer does not outgrow maxinput. */
  lemma ReuseIsExact(g: Config, line: string, host: string)
    requires Sane(g) && Ordinary(g, line, host)
    ensures (forall history, input :: Agree(g, SpaceAfter(g, STATIC_SIZE, history), input)) <==> !Outgrows(g)
  {
    if Outgrows(g) {
      var history := Outgrown(g, line, host);
      OversizedConnsDisagree(g, SpaceAfter(g, STATIC_SIZE, history));
    } else {
      forall history, input
        ensures Agree(g, SpaceAfter(g, STATIC_SIZE, history), input)
      {
        ReusedConnsAgree(g, history, input);
      }
    }
  }
}
