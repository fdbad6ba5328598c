/** The chunked transfer coding (RFC 7230 section 4.1) as nsd/connio.c writes it, and a decoder
    of the standard's grammar, without chunk extensions and trailers. */
module Chunked {
  import opened Common

  function Digit(n: nat): char
    requires n < 16
  {
    "0123456789abcdef"[n]
  }

  /** sprintf "%x". */
  function Hex(n: nat): (r: string)
    ensures r != ""
  {
    if n < 16 then [Digit(n)] else Hex(n / 16) + [Digit(n % 16)]
  }

  function Flat(bufs: seq<string>): string {
    if bufs == [] then "" else bufs[0] + Flat(bufs[1..])
  }

  /** One flush of a chunked body; an empty one writes nothing. */
  function Chunk(b: string): string {
    if b == "" then "" else Hex(|b|) + "\r\n" + b + "\r\n"
  }

  function Chunks(bufs: seq<string>): string {
    if bufs == [] then "" else Chunk(bufs[0]) + Chunks(bufs[1..])
  }

  const LAST := "0\r\n\r\n"

  // ----- decoding -----

  function DigitValue(c: char): Option<nat> {
    if '0' <= c <= '9' then Some((c - '0') as nat)
    else if 'a' <= c <= 'f' then Some((c - 'a') as nat + 10)
    else if 'A' <= c <= 'F' then Some((c - 'A') as nat + 10)
    else None
  }

  /** The number of hexadecimal digits that begin `s`. */
  function Digits(s: string): (r: nat)
    ensures r <= |s| && forall i :: 0 <= i < r ==> DigitValue(s[i]).Some?
    ensures r < |s| ==> DigitValue(s[r]).None?
  {
    if s == "" || DigitValue(s[0]).None? then 0 else 1 + Digits(s[1..])
  }

  function Value(s: string): nat
    requires forall i :: 0 <= i < |s| ==> DigitValue(s[i]).Some?
  {
    if s == "" then 0 else 16 * Value(s[..|s| - 1]) + DigitValue(s[|s| - 1]).value
  }

  predicate Starts(s: string, p: string) {
    p <= s
  }

  /** chunk-size CRLF chunk-data CRLF, repeated; then a zero size, CRLF and CRLF; and no more. */
  function Decode(s: string): Option<string>
    decreases |s|
  {
    var k := Digits(s);
    if k == 0 || !Starts(s[k..], "\r\n") then None
    else
      var n, rest := Value(s[..k]), s[k + 2..];
      if n == 0 then (if rest == "\r\n" then Some("") else None)
      else if |rest| < n || !Starts(rest[n..], "\r\n") then None
      else match Decode(rest[n + 2..])
        case None => None
        case Some(more) => Some(rest[..n] + more)
  }

  // ----- round trip -----

  /** In digits as "%x" writes them, lower-case and without leading zeros. */
  lemma {:induction false} HexIsRead(n: nat)
    ensures (forall i :: 0 <= i < |Hex(n)| ==> DigitValue(Hex(n)[i]).Some?) && Value(Hex(n)) == n
    ensures (forall i :: 0 <= i < |Hex(n)| ==> !('A' <= Hex(n)[i] <= 'F')) && (Hex(n)[0] == '0' <==> n == 0)
  {
    if n < 16 {
      DigitIsRead(n);
      assert Hex(n)[..0] == "";
    } else {
      HexIsRead(n / 16);
      DigitIsRead(n % 16);
      assert Hex(n)[..|Hex(n)| - 1] == Hex(n / 16);
    }
  }

  lemma DigitIsRead(n: nat)
    requires n < 16
    ensures DigitValue(Digit(n)) == Some(n) && !('A' <= Digit(n) <= 'F')
  {
  }

  lemma {:induction false} DigitsOf(d: string, t: string)
    requires (forall i :: 0 <= i < |d| ==> DigitValue(d[i]).Some?) && (t != "" ==> DigitValue(t[0]).None?)
    ensures Digits(d + t) == |d|
  {
    if d == "" {
      assert d + t == t;
    } else {
      DigitsOf(d[1..], t);
      assert (d + t)[1..] == d[1..] + t;
    }
  }

  lemma Cut(a: string, b: string)
    ensures (a + b)[..|a|] == a && (a + b)[|a|..] == b
  {
  }

  /** The pieces of a framed chunk: `h` its size, `b` its data, `t` what follows. */
  lemma Framed(h: string, b: string, t: string)
    ensures h + "\r\n" + b + "\r\n" + t == h + ("\r\n" + (b + ("\r\n" + t)))
  {
  }

  lemma AfterLine(t: string)
    ensures Starts("\r\n" + t, "\r\n") && ("\r\n" + t)[2..] == t
  {
  }

  lemma Beyond(s: string, k: nat, m: nat)
    requires k + m <= |s|
    ensures s[k + m..] == s[k..][m..]
  {
  }

  lemma ChunkParts(b: string, t: string)
    requires b != ""
    ensures var s, k := Chunk(b) + t, |Hex(|b|)|;
            && k + 2 <= |s| && s == Hex(|b|) + ("\r\n" + (b + ("\r\n" + t)))
            && s[..k] == Hex(|b|) && Starts(s[k..], "\r\n") && s[k + 2..] == b + ("\r\n" + t)
    ensures var rest := b + ("\r\n" + t);
            rest[..|b|] == b && Starts(rest[|b|..], "\r\n") && rest[|b| + 2..] == t
  {
    hide Hex; hide Starts;
    var h, u := Hex(|b|), "\r\n" + t;
    Framed(h, b, t);
    Cut(h, "\r\n" + (b + u));
    Cut(b, u);
    AfterLine(b + u);
    AfterLine(t);
    Beyond(Chunk(b) + t, |h|, 2);
    Beyond(b + u, |b|, 2);
  }

  lemma DecodeStep(s: string, k: nat, n: nat, b: string, t: string)
    requires Digits(s) == k > 0 && Starts(s[k..], "\r\n") && Value(s[..k]) == n > 0
    requires var rest := s[k + 2..];
             |rest| >= n && Starts(rest[n..], "\r\n") && rest[..n] == b && rest[n + 2..] == t
    ensures Decode(t).Some? ==> Decode(s) == Some(b + Decode(t).value)
  {
    hide Digits; hide Value;
  }

  lemma DecodeChunk(b: string, t: string)
    requires b != "" && Decode(t).Some?
    ensures Decode(Chunk(b) + t) == Some(b + Decode(t).value)
  {
    hide Hex; hide Value; hide Chunk; hide Digits; hide Decode; hide Starts;
    HexIsRead(|b|);
    ChunkParts(b, t);
    DigitsOf(Hex(|b|), "\r\n" + (b + ("\r\n" + t)));
    DecodeStep(Chunk(b) + t, |Hex(|b|)|, |b|, b, t);
  }

  lemma DecodeLast()
    ensures Decode(LAST) == Some("")
  {
    assert LAST == "0" + "\r\n\r\n";
    DigitsOf("0", "\r\n\r\n");
    assert LAST[..1] == "0" && "0"[..0] == "";
    assert LAST[1..] == "\r\n\r\n" && LAST[3..] == "\r\n";
    assert Value("0") == 0;
  }

  lemma ChunksUnfold(bufs: seq<string>)
    requires bufs != []
    ensures Chunks(bufs) + LAST == Chunk(bufs[0]) + (Chunks(bufs[1..]) + LAST)
    ensures "" + (Chunks(bufs[1..]) + LAST) == Chunks(bufs[1..]) + LAST
  {
    hide Chunk;
  }

  /** Whatever is flushed, chunk by chunk, is what the client decodes. */
  lemma {:induction false} DecodeChunks(bufs: seq<string>)
    ensures Decode(Chunks(bufs) + LAST) == Some(Flat(bufs))
  {
    hide Decode;
    if bufs == [] {
      DecodeLast();
      assert "" + LAST == LAST;
    } else {
      DecodeChunks(bufs[1..]);
      ChunksUnfold(bufs);
      hide Chunks;
      if bufs[0] == "" {
        assert "" + Flat(bufs[1..]) == Flat(bufs[1..]);
      } else {
        DecodeChunk(bufs[0], Chunks(bufs[1..]) + LAST);
      }
    }
  }

  lemma {:induction false} DigitsAppend(s: string, t: string)
    requires Digits(s) < |s|
    ensures Digits(s + t) == Digits(s)
  {
    if DigitValue(s[0]).Some? {
      DigitsAppend(s[1..], t);
      assert (s + t)[1..] == s[1..] + t;
    }
  }

  /** What decoding depends on is not changed by appending. */
  lemma PartsAppend(s: string, t: string, k: nat)
    requires k + 2 <= |s|
    ensures (s + t)[..k] == s[..k] && (s + t)[k..] == s[k..] + t && (s + t)[k + 2..] == s[k + 2..] + t
  {
  }

  /** A complete chunked body cannot be continued. */
  lemma {:induction false} CompleteIsFinal(s: string, t: string)
    requires Decode(s).Some? && t != ""
    ensures Decode(s + t) == None
    decreases |s|
  {
    var k := Digits(s);
    DigitsAppend(s, t);
    PartsAppend(s, t, k);
    var n, rest := Value(s[..k]), s[k + 2..];
    hide Value; hide Digits;
    if n > 0 {
      PartsAppend(rest, t, n);
      CompleteIsFinal(rest[n + 2..], t);
    } else {
      assert |rest + t| > 2;
    }
  }

  /** So a response cut short anywhere is never taken for a complete one. */
  lemma CutIsNoticed(bufs: seq<string>, n: nat)
    requires n < |Chunks(bufs) + LAST|
    ensures Decode((Chunks(bufs) + LAST)[..n]) == None
  {
    DecodeChunks(bufs);
    hide Decode; hide Chunks; hide Flat;
    var s := Chunks(bufs) + LAST;
    assert s[..n] + s[n..] == s;
    if Decode(s[..n]).Some? {
      CompleteIsFinal(s[..n], s[n..]);
    }
  }
}
