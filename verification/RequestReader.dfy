/** The incremental reader of HTTP/1 requests (nsd/driver.c): a Conn's buffer, offsets and
    flags, updated receive by receive, against the functions of RequestSpec. */
module RequestReader {
  import opened Common
  import opened RequestSpec
  import RequestLaws

  datatype SockState = ReadWait | PreQue | InError

  /** Where the line that ends at the newline `n` ends without a carriage return. */
  function LineEnd(buf: string, s: nat, n: nat): (e: nat)
    requires s <= n < |buf|
    ensures s <= e <= n
  {
    if n > s && buf[n - 1] == '\r' then n - 1 else n
  }

  lemma NextLineAt(g: Config, buf: string, h: Head, k: nat)
    requires h.roff <= |buf| && !h.done && Newline(buf[h.roff..]) == Some(k)
    ensures h.roff + k < |buf|
    ensures k > g.maxline ==> NextLine(g, buf, h) == Some(Err(LRANGE))
    ensures k <= g.maxline ==>
              NextLine(g, buf, h) == Some(TakeLine(g, h, buf[h.roff..LineEnd(buf, h.roff, h.roff + k)], h.roff + k + 1))
  {
    assert buf[h.roff..][..k] == buf[h.roff..h.roff + k];
    if k > 0 {
      assert buf[h.roff..][..k][k - 1] == buf[h.roff + k - 1];
      assert buf[h.roff..][..k][..k - 1] == buf[h.roff..h.roff + k - 1];
    }
  }

  lemma IgnoresOffset(g: Config, h: Head, line: string, roff: nat)
    ensures TakeLine(g, h.(roff := roff), line, roff) == TakeLine(g, h, line, roff)
  {
    hide ParseHeader;
  }

  /** Sizing the buffer for the content keeps what has come of it, up to two bytes more. */
  lemma KeepsContent(was: string, buf: string, roff: nat, length: nat)
    requires roff <= |was| && |buf| == roff + length + 2 && buf[..Min(|buf|, |was|)] == was[..Min(|buf|, |was|)]
    ensures var n := Min(|was| - roff, length + 2); buf[roff..roff + n] == was[roff..][..n]
  {
    var n, m := Min(|was| - roff, length + 2), Min(|buf|, |was|);
    assert buf[roff..roff + n] == buf[..m][roff..];
    assert was[roff..][..n] == was[..m][roff..];
  }

  lemma AddsContent(was: string, buf: string, at: nat, got: string, more: string)
    requires at + |got| + |more| <= |was| && was[at..at + |got|] == got
    requires buf == was[..at + |got|] + more + was[at + |got| + |more|..]
    ensures |buf| == |was| && buf[at..at + |got| + |more|] == got + more
  {
  }

  /** The part of a Conn, and of its Sock, that the reader updates. Pointers into the buffer
      are offsets; -1 is NULL. */
  class Conn {
    var ibuf: string           // the Tcl_DString up to its length
    var spaceAvl: nat          // and the space allocated for it
    var roff: nat
    var rstart: int
    var rend: nat
    var headers: Headers
    var skipHdrs: bool         // NS_CONN_SKIPHDRS
    var readHdrs: bool         // NS_CONN_READHDRS
    var fileContent: bool      // NS_CONN_FILECONTENT
    var request: string        // the request line that was parsed
    var contentLength: nat
    var avail: nat
    var content: nat
    var file: string           // the temp file's contents
    var state: SockState
    var error: ReadErr

    ghost function HeadOf(): Head
      reads this
      requires rstart >= 0 ==> rstart <= rend <= |ibuf|
    {
      Head(roff, if rstart >= 0 then Some(ibuf[rstart..rend]) else None, headers, skipHdrs, readHdrs)
    }

    ghost function RequestOf(): Request
      reads this
    {
      Request(request, headers, skipHdrs, fileContent, contentLength)
    }

    /** `got` is the content received: in the file, or in the buffer as far as it has room. */
    ghost predicate Holds(got: string)
      reads this
    {
      && avail == |got|
      && if fileContent then file == got
         else content + contentLength + 2 <= |ibuf|
              && ibuf[content..content + Min(avail, contentLength + 2)] == got[..Min(avail, contentLength + 2)]
    }

    /** The state the fields stand for. */
    ghost predicate Is(s: State)
      reads this
    {
      match s
      case Reading(buf, sp, head) =>
        && state == ReadWait && !readHdrs && ibuf == buf && spaceAvl == sp
        && roff <= |ibuf| && |ibuf| < spaceAvl
        && (rstart >= 0 ==> rstart <= rend <= |ibuf|) && HeadOf() == head
      case Receiving(req, got, sp) =>
        state == ReadWait && readHdrs && RequestOf() == req && Holds(got) && avail < contentLength && spaceAvl == sp
      case Ready(req, body, sp) =>
        state == PreQue && RequestOf() == req && Holds(body) && avail == contentLength && spaceAvl == sp
      case Failed(e, sp) => state == InError && error == e && spaceAvl == sp
    }

    /** AllocConn: a new Conn, whose buffer has that much space. */
    constructor (space: nat)
      requires space > 0
      ensures Is(Reading("", space, START))
    {
      ibuf, spaceAvl, roff, rstart, rend, headers := "", space, 0, -1, 0, [];
      skipHdrs, readHdrs, fileContent := false, false, false;
      request, contentLength, avail, content, file := "", 0, 0, 0, "";
      state, error := ReadWait, CLOSE;
    }

    lemma SpaceIs(s: State)
      requires Is(s)
      ensures spaceAvl == s.spaceAvl
    {
    }

    /** A Conn that waits for its first byte. */
    ghost predicate Blank()
      reads this
    {
      && ibuf == "" && roff == 0 && rstart == -1 && headers == [] && !skipHdrs && !readHdrs
      && state == ReadWait && spaceAvl > 0
    }

    lemma BlankIs()
      requires Blank()
      ensures Is(Reading("", spaceAvl, START))
    {
    }

    /** FreeConn, and AllocConn when it takes the Conn from the free list: all is as in a new Conn,
        but for the buffer, which is cut off and keeps its space. */
    method Reuse(ghost s: State)
      requires Is(s) && spaceAvl > 0
      modifies this
      ensures Is(Reading("", s.spaceAvl, START))
    {
      hide Is;
      SpaceIs(s);
      ibuf, roff, rstart, rend, headers := "", 0, -1, 0, [];
      skipHdrs, readHdrs, fileContent := false, false, false;
      request, contentLength, avail, content, file := "", 0, 0, 0, "";
      state, error := ReadWait, CLOSE;
      BlankIs();
    }

    /** Tcl_DStringSetLength: added bytes are whatever the memory held. */
    method SetLength(n: nat)
      modifies this`ibuf, this`spaceAvl
      ensures |ibuf| == n && spaceAvl == Grown(old(spaceAvl), n)
      ensures ibuf[..Min(n, |old(ibuf)|)] == old(ibuf)[..Min(n, |old(ibuf)|)]
    {
      spaceAvl := Grown(spaceAvl, n);
      if n <= |ibuf| {
        ibuf := ibuf[..n];
      } else {
        assert |seq(n - |ibuf|, _ => '\0')| == n - |ibuf|;
        var memory: string :| |memory| == n - |ibuf|;
        ibuf := ibuf + memory;
      }
    }

    /** The line from `s` to `e` is the request line or the next header. */
    method AddLine(g: Config, s: nat, e: nat) returns (err: Option<ReadErr>)
      requires !readHdrs && s <= e <= |ibuf| && (rstart >= 0 ==> rstart <= rend <= |ibuf|)
      modifies this`rstart, this`rend, this`headers, this`skipHdrs, this`readHdrs
      ensures var r := TakeLine(g, old(HeadOf()), ibuf[s..e], roff);
              if err.Some? then r == Err(err.value)
              else 0 <= rstart <= rend <= |ibuf| && r == Ok(HeadOf())
    {
      hide ParseHeader;
      var line := ibuf[s..e];
      if rstart < 0 {
        rstart, rend := s, e;
        var version := g.major(line);
        if version.None? || version.value < 1 {
          skipHdrs, readHdrs := true, true;
        }
      } else if e > s {
        var parsed := ParseHeader(headers, line);
        if parsed.None? {
          return Some(HINVAL);
        }
        headers := parsed.value;
      }
      if e == s {
        readHdrs := true;
      }
      return None;
    }

    /** One complete line at the read offset, `k` bytes long. */
    method ReadLine(g: Config, k: nat) returns (err: Option<ReadErr>)
      requires !readHdrs && roff <= |ibuf| && (rstart >= 0 ==> rstart <= rend <= |ibuf|)
      requires Newline(ibuf[roff..]) == Some(k)
      modifies this`roff, this`rstart, this`rend, this`headers, this`skipHdrs, this`readHdrs
      ensures err.Some? ==> NextLine(g, ibuf, old(HeadOf())) == Some(Err(err.value))
      ensures err.None? ==>
                && 0 <= rstart <= rend <= |ibuf| && old(roff) < roff <= |ibuf|
                && NextLine(g, ibuf, old(HeadOf())) == Some(Ok(HeadOf()))
    {
      hide NextLine; hide Newline; hide TakeLine;
      NextLineAt(g, ibuf, HeadOf(), k);
      if k > g.maxline {
        return Some(LRANGE);
      }
      var s, e := roff, roff + k;
      roff := e + 1;
      if e > s && ibuf[e - 1] == '\r' {
        e := e - 1;
      }
      IgnoresOffset(g, old(HeadOf()), ibuf[s..e], roff);
      err := AddLine(g, s, e);
    }

    /** Scan available content for lines until the end of the head. */
    method ScanLines(g: Config) returns (err: Option<ReadErr>)
      requires !readHdrs && roff <= |ibuf| && (rstart >= 0 ==> rstart <= rend <= |ibuf|)
      modifies this`roff, this`rstart, this`rend, this`headers, this`skipHdrs, this`readHdrs
      ensures match Scan(g, ibuf, old(HeadOf()))
              case Err(e) => err == Some(e)
              case Ok(h) =>
                && err == None && (rstart >= 0 ==> rstart <= rend <= |ibuf|) && HeadOf() == h && roff <= |ibuf|
                && (readHdrs ==> rstart >= 0)
    {
      ghost var h := HeadOf();
      while !readHdrs
        invariant roff <= |ibuf| && (rstart >= 0 ==> rstart <= rend <= |ibuf|)
        invariant Scan(g, ibuf, HeadOf()) == Scan(g, ibuf, h)
        invariant readHdrs ==> rstart >= 0
        decreases !readHdrs, |ibuf| - roff
      {
        var k := Newline(ibuf[roff..]);
        if k.None? {
          return None;
        }
        err := ReadLine(g, k.value);
        if err.Some? {
          return;
        }
      }
      return None;
    }

    /** Setup to read the content: the rest of the buffer if it fits there, or a temp file. */
    method StartContent(g: Config, length: nat)
      requires roff <= |ibuf|
      modifies this
      ensures readHdrs == old(readHdrs) && state == old(state)
      ensures var file := old(roff) + length + 2 >= g.maxinput;
              RequestOf() == Request(old(request), old(headers), old(skipHdrs), file, length)
      ensures spaceAvl == Sized(g, old(spaceAvl), old(roff), length)
      ensures Holds(old(ibuf)[old(roff)..])
    {
      contentLength := length;
      avail := |ibuf| - roff;
      var max := roff + contentLength + 2;
      if max < g.maxinput {
        fileContent := false;
        ghost var was := ibuf;
        SetLength(max);
        content := roff;
        KeepsContent(was, ibuf, roff, contentLength);
      } else {
        fileContent := true;
        file := ibuf[roff..];
        SetLength(roff);
      }
    }

    /** Make room in the buffer and receive into it. */
    method Receive(g: Config, rest: string, wish: nat) returns (n: nat)
      requires Sane(g) && |ibuf| < spaceAvl && |ibuf| < g.maxinput
      modifies this`ibuf, this`spaceAvl
      ensures var max := Room(g, old(spaceAvl));
              && spaceAvl == Grown(old(spaceAvl), max) && old(|ibuf|) <= max
              && n == Recv(rest, max - old(|ibuf|), wish)
              && ibuf == old(ibuf) + rest[..n]
    {
      var len, max := |ibuf|, spaceAvl - 1;
      if max < g.bufsize {
        max := max + g.bufsize;
        if max > g.maxinput {
          max := g.maxinput;
        }
      }
      ghost var was := ibuf;
      SetLength(max);
      SetLength(len);
      assert ibuf == was;
      n := Recv(rest, max - len, wish);
      ibuf := ibuf + rest[..n];
    }

    /** The checks of a complete head. */
    method CheckHead(g: Config) returns (err: Option<ReadErr>, length: nat)
      requires 0 <= rstart <= rend <= |ibuf|
      modifies this`request
      ensures var r := Setup(g, ibuf[rstart..rend], headers);
              if err.Some? then r == Err(err.value) else r == Ok(length) && request == ibuf[rstart..rend]
    {
      length := 0;
      var host, field := IGet(headers, "host"), IGet(headers, "content-length");
      if !g.ownServer {
        if host.None? {
          return Some(NOHOST), length;
        }
        if !g.knownHost(host.value) {
          return Some(NOSERV), length;
        }
      }
      request := ibuf[rstart..rend];
      if !g.hasMethod(request) {
        return Some(RINVAL), length;
      }
      var number := if field.None? then Some(0) else g.scanInt(field.value);
      if number.None? || number.value < 0 {
        return Some(NINVAL), length;
      }
      if number.value > g.maxupload(headers, request) {
        return Some(CRANGE), length;
      }
      return None, number.value;
    }

    /** Read more of the head; when it is complete, check it and get ready for the content,
        of which `got` has come with it. */
    method SockReadLine(g: Config, rest: string, wish: nat, ghost s: State)
      returns (err: Option<ReadErr>, n: nat, ghost got: string)
      requires Sane(g) && Is(s) && s.Reading?
      modifies this
      ensures var r := RequestSpec.SockRead(g, s, rest, wish);
              && n == r.1
              && (err.Some? ==> r.0 == Failed(err.value, spaceAvl))
              && (err.None? && !readHdrs ==> Is(r.0))
              && (err.None? && readHdrs ==>
                    state == ReadWait && Holds(got) && r.0 == Finish(RequestOf(), got, spaceAvl))
    {
      hide Scan; hide Room; hide Setup; hide Holds;
      n, got := 0, "";
      if |ibuf| >= g.maxinput {
        return Some(RRANGE), n, got;
      }
      n := Receive(g, rest, wish);
      assert n == 0 ==> ibuf == s.buf + "" == s.buf;
      assert HeadOf() == s.head by {
        assert rstart >= 0 ==> ibuf[rstart..rend] == s.buf[rstart..rend];
      }
      if n == 0 {
        return if g.ssl then None else Some(CLOSE), n, got;
      }
      err := ScanLines(g);
      if err.Some? || !readHdrs {
        return;
      }
      var length: nat;
      err, length := CheckHead(g);
      if err.Some? {
        return;
      }
      got := ibuf[roff..];
      StartContent(g, length);
    }

    /** Read content into the sized buffer or the temp file. */
    method SockReadContent(g: Config, rest: string, wish: nat, ghost s: State)
      returns (err: Option<ReadErr>, n: nat, ghost got: string)
      requires Sane(g) && Is(s) && s.Receiving?
      modifies this
      ensures var r := RequestSpec.SockRead(g, s, rest, wish);
              && n == r.1
              && (err.Some? ==> r.0 == Failed(err.value, spaceAvl))
              && (err.None? ==>
                    readHdrs && state == ReadWait && Holds(got) && r.0 == Finish(RequestOf(), got, spaceAvl))
    {
      got := s.got;
      var asked := contentLength - avail + 2;
      if fileContent && asked > FILE_CHUNK {
        asked := FILE_CHUNK;
      }
      n := Recv(rest, asked, wish);
      if n == 0 {
        return if g.ssl then None else Some(CLOSE), n, got;
      }
      got := got + rest[..n];
      if fileContent {
        file := file + rest[..n];
      } else {
        ghost var was := ibuf;
        var at := content + avail;
        ibuf := ibuf[..at] + rest[..n] + ibuf[at + n..];
        AddsContent(was, ibuf, content, s.got, rest[..n]);
      }
      avail := avail + n;
      return None, n, got;
    }

    /** All content has been read: cut off what is beyond it. */
    method EndContent(ghost got: string)
      requires state == ReadWait && readHdrs && Holds(got) && avail >= contentLength
      modifies this`avail, this`file, this`state
      ensures Is(Ready(old(RequestOf()), got[..old(contentLength)], spaceAvl))
      ensures spaceAvl == old(spaceAvl)
    {
      ghost var kept := Min(avail, contentLength + 2);
      avail := contentLength;
      if fileContent {
        file := file[..avail];
      } else {
        assert ibuf[content..content + avail] == ibuf[content..content + kept][..avail];
        assert got[..kept][..avail] == got[..avail] == got[..avail][..avail];
      }
      state := PreQue;
    }

    /** The callback of the driver and reader threads: one receive, and the end of the request
        if all content is there. */
    method SockRead(g: Config, rest: string, wish: nat, ghost s: State) returns (n: nat)
      requires Sane(g) && Is(s) && (s.Reading? || s.Receiving?)
      modifies this
      ensures var r := RequestSpec.SockRead(g, s, rest, wish); n == r.1 && Is(r.0)
    {
      var err: Option<ReadErr>;
      ghost var got: string;
      if readHdrs {
        err, n, got := SockReadContent(g, rest, wish, s);
      } else {
        err, n, got := SockReadLine(g, rest, wish, s);
      }
      if err.None? && readHdrs && avail >= contentLength {
        EndContent(got);
      }
      if err.Some? {
        state, error := InError, err.value;
      }
    }

    /** A reader thread's loop (without TLS or HTTP/2 detours): receive until the request is
        ready, has failed, or no more receives are to come. */
    method ReadRequest(g: Config, input: string, wishes: seq<nat>, ghost s: State)
      requires Sane(g) && Fits(g, s) && Is(s)
      modifies this
      ensures Is(ReadAll(g, s, input, wishes))
    {
      var rest, i := input, 0;
      ghost var t := s;
      while i < |wishes| && state == ReadWait
        invariant i <= |wishes| && Fits(g, t) && Is(t)
        invariant ReadAll(g, t, rest, wishes[i..]) == ReadAll(g, s, input, wishes)
      {
        var n := SockRead(g, rest, wishes[i], t);
        StepFits(g, t, rest, wishes[i]);
        t := RequestSpec.SockRead(g, t, rest, wishes[i]).0;
        assert wishes[i..][1..] == wishes[i + 1..];
        rest, i := rest[n..], i + 1;
      }
      if state != ReadWait {
        RequestLaws.Finished(g, t, rest, wishes[i..]);
      }
    }
  }
}
