/** Reading one HTTP/1 request (nsd/driver.c, SockRead and below), as functions: what one
    receive does to the state of a request, and what the whole input should give. */
module RequestSpec {
  import opened Common

  type Headers = seq<(string, string)>

  /** The driver's limits, and what is decided outside the reader: parsing of the request
      line, virtual servers, integer scanning and upload limits. */
  datatype Config = Config(
    bufsize: nat, maxline: nat, maxinput: nat, ssl: bool,
    major: string -> Option<nat>,             // NsFindVersion: the major HTTP version
    ownServer: bool,                          // the driver belongs to one server
    knownHost: string -> bool,                // hosts table or default map
    hasMethod: string -> bool,                // Ns_ParseRequestEx finds a method
    scanInt: string -> Option<int>,           // sscanf "%d"
    maxupload: (Headers, string) -> nat)

  /** NsDriver's lower bounds for the configured sizes. */
  ghost predicate Sane(g: Config) {
    g.bufsize >= 1024 && g.maxline >= 256 && g.maxinput >= 2024
  }

  datatype ReadErr = CLOSE | RRANGE | LRANGE | HINVAL | NOHOST | NOSERV | RINVAL | NINVAL | CRANGE

  datatype Result<T> = Ok(value: T) | Err(error: ReadErr)

  /** How far the head has been read: `line` is the request line, once found. */
  datatype Head = Head(roff: nat, line: Option<string>, headers: Headers, skip: bool, done: bool)

  const START := Head(0, None, [], false, false)

  // ----- lines and headers -----

  /** strchr(s, '\n'): the distance to a newline that no NUL precedes. */
  function Newline(s: string): (r: Option<nat>)
    ensures r.Some? ==> r.value < |s| && s[r.value] == '\n'
                        && forall i :: 0 <= i < r.value ==> s[i] != '\n' && s[i] != '\0'
    ensures r.None? ==> forall i :: 0 <= i < |s| && s[i] == '\n' ==> exists j :: 0 <= j < i && s[j] == '\0'
  {
    if s == [] || s[0] == '\0' then None
    else if s[0] == '\n' then Some(0)
    else match Newline(s[1..]) case None => None case Some(k) => Some(k + 1)
  }

  /** Without the expected carriage return. */
  function Trimmed(s: string): string {
    if s != [] && s[|s| - 1] == '\r' then s[..|s| - 1] else s
  }

  predicate IsSpace(c: char) {
    c == ' ' || ('\t' <= c <= '\r')
  }

  function SkipSpace(s: string): (r: string)
    ensures |r| <= |s| && r == s[|s| - |r|..] && (r != [] ==> !IsSpace(r[0]))
    ensures forall i :: 0 <= i < |s| - |r| ==> IsSpace(s[i])
  {
    if s != [] && IsSpace(s[0]) then SkipSpace(s[1..]) else s
  }

  function Colon(s: string): (r: nat)
    ensures r <= |s| && (r < |s| ==> s[r] == ':') && ':' !in s[..r]
  {
    if s == [] || s[0] == ':' then 0 else 1 + Colon(s[1..])
  }

  /** Ns_ParseHeader, keeping the case of keys. */
  function ParseHeader(headers: Headers, line: string): Option<Headers>
    requires line != []
  {
    if IsSpace(line[0]) then
      if headers == [] then None
      else
        var more, n := SkipSpace(line), |headers| - 1;
        if more == [] then Some(headers)
        else Some(headers[n := (headers[n].0, headers[n].1 + " " + more)])
    else
      var k := Colon(line);
      if k == |line| then None else Some(headers + [(line[..k], SkipSpace(line[k + 1..]))])
  }

  /** One complete line, without its newline and carriage return. */
  function TakeLine(g: Config, h: Head, line: string, roff: nat): Result<Head> {
    if h.line.None? then
      var early := g.major(line).None? || g.major(line).value < 1;
      Ok(Head(roff, Some(line), h.headers, h.skip || early, early || line == []))
    else if line == [] then Ok(h.(roff := roff, done := true))
    else match ParseHeader(h.headers, line)
      case None => Err(HINVAL)
      case Some(hs) => Ok(h.(roff := roff, headers := hs))
  }

  /** The next complete line of `buf` from the read offset, if there is one. */
  function NextLine(g: Config, buf: string, h: Head): (r: Option<Result<Head>>)
    requires h.roff <= |buf|
    ensures r.Some? && r.value.Ok? ==> h.roff < r.value.value.roff <= |buf|
  {
    if h.done then None
    else match Newline(buf[h.roff..])
      case None => None
      case Some(k) =>
        if k > g.maxline then Some(Err(LRANGE))
        else Some(TakeLine(g, h, Trimmed(buf[h.roff..][..k]), h.roff + k + 1))
  }

  /** All complete lines, up to the end of the head. */
  function Scan(g: Config, buf: string, h: Head): (r: Result<Head>)
    requires h.roff <= |buf|
    ensures r.Ok? ==> h.roff <= r.value.roff <= |buf|
    decreases |buf| - h.roff
  {
    match NextLine(g, buf, h)
    case None => Ok(h)
    case Some(Err(e)) => Err(e)
    case Some(Ok(next)) => Scan(g, buf, next)
  }

  // ----- after the head -----

  function Lower(c: char): char {
    if 'A' <= c <= 'Z' then c - 'A' + 'a' else c
  }

  predicate SameKey(a: string, b: string) {
    |a| == |b| && forall i :: 0 <= i < |a| ==> Lower(a[i]) == Lower(b[i])
  }

  /** Ns_SetIGet: the first field with that key in any case. */
  function IGet(headers: Headers, key: string): (r: Option<string>) {
    if headers == [] then None
    else if SameKey(headers[0].0, key) then Some(headers[0].1)
    else IGet(headers[1..], key)
  }

  /** The checks of a complete head, in their order; the content length. */
  function Setup(g: Config, line: string, headers: Headers): Result<nat> {
    var host, length := IGet(headers, "host"), IGet(headers, "content-length");
    if !g.ownServer && host.None? then Err(NOHOST)
    else if !g.ownServer && !g.knownHost(host.value) then Err(NOSERV)
    else if !g.hasMethod(line) then Err(RINVAL)
    else
      var n := if length.None? then Some(0) else g.scanInt(length.value);
      if n.None? || n.value < 0 then Err(NINVAL)
      else if n.value > g.maxupload(headers, line) then Err(CRANGE)
      else Ok(n.value)
  }

  // ----- one receive -----

  datatype Request = Request(line: string, headers: Headers, skip: bool, file: bool, contentLength: nat)

  /** `spaceAvl` is the space allocated for the Conn's buffer, which the next request that uses
      the Conn finds. */
  datatype State =
    | Reading(buf: string, spaceAvl: nat, head: Head)           // the head is not complete
    | Receiving(req: Request, got: string, spaceAvl: nat)       // the head is, the content is not
    | Ready(req: Request, body: string, spaceAvl: nat)          // SOCK_PREQUE
    | Failed(error: ReadErr, spaceAvl: nat)                     // SOCK_ERROR

  /** The size the buffer is made to have before a receive. */
  function Room(g: Config, spaceAvl: nat): nat
    requires spaceAvl > 0
  {
    var max := spaceAvl - 1;
    if max >= g.bufsize then max else if max + g.bufsize > g.maxinput then g.maxinput else max + g.bufsize
  }

  /** Tcl_DStringSetLength: the space allocated doubles, if that is enough. */
  function Grown(spaceAvl: nat, length: nat): (r: nat)
    ensures r > length && r >= spaceAvl
  {
    if length < spaceAvl then spaceAvl
    else if length < 2 * spaceAvl then 2 * spaceAvl
    else length + 1
  }

  function Min(a: nat, b: nat): nat {
    if a < b then a else b
  }

  /** DriverRecv: the peer's next `wish` bytes, if that many are left and there is room. */
  function Recv(rest: string, room: nat, wish: nat): (n: nat)
    ensures n <= |rest| && n <= room
  {
    Min(wish, Min(room, |rest|))
  }

  /** The head is complete and acceptable, and `got` has come of the content. */
  function Begin(g: Config, h: Head, got: string, length: nat, spaceAvl: nat): State
    requires h.line.Some?
  {
    Finish(Request(h.line.value, h.headers, h.skip, h.roff + length + 2 >= g.maxinput, length), got,
           Sized(g, spaceAvl, h.roff, length))
  }

  /** The buffer is made to hold the content too, or is cut off behind the head. */
  function Sized(g: Config, spaceAvl: nat, roff: nat, length: nat): nat {
    Grown(spaceAvl, if roff + length + 2 < g.maxinput then roff + length + 2 else roff)
  }

  function Finish(req: Request, got: string, spaceAvl: nat): State {
    if |got| >= req.contentLength then Ready(req, got[..req.contentLength], spaceAvl) else Receiving(req, got, spaceAvl)
  }

  /** After the lines in `buf` have been taken. */
  function Scanned(g: Config, buf: string, spaceAvl: nat, r: Result<Head>): State
    requires r.Ok? ==> r.value.roff <= |buf|
  {
    match r
    case Err(e) => Failed(e, spaceAvl)
    case Ok(h) =>
      if !h.done || h.line.None? then Reading(buf, spaceAvl, h)
      else match Setup(g, h.line.value, h.headers)
        case Err(e) => Failed(e, spaceAvl)
        case Ok(length) => Begin(g, h, buf[h.roff..], length, spaceAvl)
  }

  ghost predicate Fits(g: Config, s: State) {
    match s
    case Reading(buf, spaceAvl, head) => |buf| < spaceAvl && head.roff <= |buf|
    case Receiving(req, got, _) => |got| < req.contentLength
    case _ => true
  }

  const FILE_CHUNK := 4096

  /** SockRead: the next state and how many bytes were received. */
  function SockRead(g: Config, s: State, rest: string, wish: nat): (r: (State, nat))
    requires Fits(g, s) && Sane(g)
    ensures r.1 <= |rest|
  {
    match s
    case Reading(buf, spaceAvl, head) =>
      if |buf| >= g.maxinput then (Failed(RRANGE, spaceAvl), 0)
      else
        var max := Room(g, spaceAvl);
        var sp := Grown(spaceAvl, max);
        var n := Recv(rest, max - |buf|, wish);
        if n == 0 then (if g.ssl then Reading(buf, sp, head) else Failed(CLOSE, sp), 0)
        else (Scanned(g, buf + rest[..n], sp, Scan(g, buf + rest[..n], head)), n)
    case Receiving(req, got, spaceAvl) =>
      var asked := req.contentLength - |got| + 2;
      var n := Recv(rest, if req.file then Min(asked, FILE_CHUNK) else asked, wish);
      if n == 0 then (if g.ssl then s else Failed(CLOSE, spaceAvl), 0)
      else (Finish(req, got + rest[..n], spaceAvl), n)
    case _ => (s, 0)
  }

  /** A driver or reader thread calls SockRead until the request is ready or has failed. */
  function ReadAll(g: Config, s: State, rest: string, wishes: seq<nat>): State
    requires Fits(g, s) && Sane(g)
    decreases |wishes|
  {
    if wishes == [] then s
    else
      StepFits(g, s, rest, wishes[0]);
      var r := SockRead(g, s, rest, wishes[0]);
      ReadAll(g, r.0, rest[r.1..], wishes[1..])
  }

  lemma StepFits(g: Config, s: State, rest: string, wish: nat)
    requires Fits(g, s) && Sane(g)
    ensures Fits(g, SockRead(g, s, rest, wish).0)
  {
  }
}
