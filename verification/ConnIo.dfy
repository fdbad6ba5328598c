/** Sending a response (nsd/connio.c): queued headers and content go to a driver that takes
    what it can of the buffers offered, or fails. */
module ConnIo {
  import opened Common
  import opened Chunked

  // ----- sending, on values -----

  /** How many bytes a driver takes before it fails; `rest` are its answers to come. */
  datatype Sent = Sent(count: nat, failed: bool, rest: seq<int>)

  function Min(a: int, b: int): int {
    if a < b then a else b
  }

  /** The driver is asked until all is sent or it fails: each answer is a number of bytes it
      could take, or an error if not positive. */
  function Drive(total: nat, answers: seq<int>): (r: Sent)
    ensures r.count <= total && (r.failed <==> r.count < total)
  {
    if total == 0 then Sent(0, false, answers)
    else if answers == [] then Sent(0, true, [])
    else if answers[0] <= 0 then Sent(0, true, answers[1..])
    else
      var n := Min(answers[0], total);
      var r := Drive(total - n, answers[1..]);
      Sent(n + r.count, r.failed, r.rest)
  }

  lemma DriveStep(total: nat, answers: seq<int>)
    requires total > 0
    ensures answers == [] || answers[0] <= 0 ==>
              Drive(total, answers) == Sent(0, true, if answers == [] then [] else answers[1..])
    ensures answers != [] && answers[0] > 0 ==>
              var n := Min(answers[0], total);
              var r := Drive(total - n, answers[1..]);
              0 < n <= total && Drive(total, answers) == Sent(n + r.count, r.failed, r.rest)
  {
  }

  /** What is still to be sent makes up what the driver takes in all. */
  ghost predicate Owed(total: nat, first: seq<int>, sent: nat, answers: seq<int>) {
    && sent <= total
    && var d, e := Drive(total, first), Drive(total - sent, answers);
       d.count == sent + e.count && d.failed == e.failed && d.rest == e.rest
  }

  lemma OwedAll(total: nat, answers: seq<int>)
    ensures Owed(total, answers, 0, answers)
  {
  }

  /** The driver's answer to `total` bytes: an error, or how many it has taken of them. */
  ghost predicate Answered(total: nat, answers: seq<int>, n: int, rest: seq<int>) {
    if answers == [] || answers[0] <= 0 then n == -1 && rest == Drive(total, answers).rest
    else n == Min(answers[0], total) && rest == answers[1..]
  }

  lemma OwedStep(total: nat, first: seq<int>, sent: nat, answers: seq<int>, n: int, rest: seq<int>)
    requires Owed(total, first, sent, answers) && sent < total && Answered(total - sent, answers, n, rest)
    ensures n < 0 ==> Drive(total, first) == Sent(sent, true, rest)
    ensures n >= 0 ==> 0 < n <= total - sent && Owed(total, first, sent + n, rest)
  {
    DriveStep(total - sent, answers);
    hide Drive;
  }

  lemma OwedNone(total: nat, first: seq<int>, sent: nat, answers: seq<int>)
    ensures Owed(total, first, sent, answers) && sent == total ==> Drive(total, first) == Sent(total, false, answers)
  {
  }

  /** `wire` has got the first `k` bytes of the data. */
  ghost predicate Taken(data: string, before: string, k: nat, wire: string) {
    k <= |data| && wire == before + data[..k]
  }

  ghost predicate Left(data: string, k: nat, rest: string) {
    k <= |data| && rest == data[k..]
  }

  lemma NoneTaken(data: string, wire: string)
    ensures Taken(data, wire, 0, wire) && Left(data, 0, data)
  {
  }

  lemma LeftIs(data: string, k: nat, rest: string)
    requires Left(data, k, rest)
    ensures |rest| == |data| - k
  {
  }

  lemma TakenIs(data: string, before: string, k: nat, wire: string)
    requires Taken(data, before, k, wire)
    ensures k <= |data| && wire == before + data[..k]
  {
  }

  lemma MoreTaken(data: string, before: string, k: nat, wire: string, rest: string, n: nat)
    requires Taken(data, before, k, wire) && Left(data, k, rest) && n <= |rest|
    ensures Taken(data, before, k + n, wire + rest[..n]) && Left(data, k + n, rest[n..])
  {
    assert (before + data[..k]) + data[k..][..n] == before + data[..k + n];
  }

  const MAX_BUFS := 16

  function NonEmpty(bufs: seq<string>): (r: seq<string>)
    ensures |r| <= |bufs|
  {
    if bufs == [] then []
    else (if bufs[0] == "" then [] else [bufs[0]]) + NonEmpty(bufs[1..])
  }

  /** The buffers sent: those with something in them, as far as there is room. */
  function Chosen(bufs: seq<string>): (r: seq<string>)
    ensures |r| <= MAX_BUFS
  {
    var s := NonEmpty(bufs);
    if |s| <= MAX_BUFS then s else s[..MAX_BUFS]
  }

  lemma {:induction false} NonEmptyFlat(bufs: seq<string>)
    ensures Flat(NonEmpty(bufs)) == Flat(bufs)
  {
    if bufs != [] {
      NonEmptyFlat(bufs[1..]);
      if bufs[0] == "" {
        assert [] + NonEmpty(bufs[1..]) == NonEmpty(bufs[1..]) && "" + Flat(bufs[1..]) == Flat(bufs[1..]);
      } else {
        assert NonEmpty(bufs)[1..] == NonEmpty(bufs[1..]);
      }
    }
  }

  /** Fewer than 16 buffers are all sent. */
  lemma ChosenFlat(obuf: string, bufs: seq<string>)
    requires |bufs| < MAX_BUFS
    ensures Flat(Chosen([obuf] + bufs)) == obuf + Flat(bufs)
  {
    NonEmptyFlat([obuf] + bufs);
    assert ([obuf] + bufs)[1..] == bufs;
  }

  lemma FlatFirst(a: string, rest: seq<string>)
    ensures Flat([a] + rest) == a + Flat(rest)
  {
    assert ([a] + rest)[1..] == rest;
  }

  lemma FlatUpdate(bufs: seq<string>, i: nat, b: string)
    requires i < |bufs|
    ensures Flat(bufs[i := b]) == Flat(bufs[..i]) + (b + Flat(bufs[i + 1..]))
  {
    hide *;
    assert bufs[i := b] == bufs[..i] + ([b] + bufs[i + 1..]);
    FlatAppend(bufs[..i], [b] + bufs[i + 1..]);
    FlatFirst(b, bufs[i + 1..]);
  }

  lemma {:induction false} FlatEmpty(bufs: seq<string>)
    requires forall i :: 0 <= i < |bufs| ==> bufs[i] == ""
    ensures Flat(bufs) == ""
  {
    if bufs != [] {
      FlatEmpty(bufs[1..]);
    }
  }

  /** What Ns_ConnSend returns: the bytes sent beyond those queued, or -1 if the first send
      failed. */
  function Returned(queued: nat, sent: Sent): int {
    if sent.count == 0 && sent.failed then -1
    else if sent.count > queued then sent.count - queued else 0
  }

  lemma Regrouped(a: string, b: string, c: string)
    ensures (a + b) + c == a + (b + c)
  {
  }

  lemma {:induction false} FlatAppend(a: seq<string>, b: seq<string>)
    ensures Flat(a + b) == Flat(a) + Flat(b)
  {
    if a == [] {
      assert a + b == b && "" + Flat(b) == Flat(b);
    } else {
      FlatAppend(a[1..], b);
      assert (a + b)[1..] == a[1..] + b && (a + b)[0] == a[0];
      Regrouped(a[0], Flat(a[1..]), Flat(b));
      assert a[0] + (Flat(a[1..]) + Flat(b)) == (a[0] + Flat(a[1..])) + Flat(b);
    }
  }

  lemma AppendAssoc(a: seq<string>, b: seq<string>, c: seq<string>)
    ensures a + (b + c) == (a + b) + c && [] + a == a == a + []
  {
  }

  lemma {:induction false} NonEmptyAppend(a: seq<string>, b: seq<string>)
    ensures NonEmpty(a + b) == NonEmpty(a) + NonEmpty(b)
  {
    if a == [] {
      AppendAssoc(b, [], []);
    } else {
      NonEmptyAppend(a[1..], b);
      assert (a + b)[1..] == a[1..] + b;
      AppendAssoc(if a[0] == "" then [] else [a[0]], NonEmpty(a[1..]), NonEmpty(b));
    }
  }

  // ----- the buffers offered -----

  /** The first `n` of the 16 places hold what is not empty of the first buffers, up to `i`. */
  ghost predicate Gathered(s: seq<string>, n: int, obuf: string, bufs: seq<string>, i: int) {
    && |s| == MAX_BUFS && 0 <= n <= MAX_BUFS && 0 <= i <= |bufs|
    && s[..n] == NonEmpty([obuf] + bufs[..i])
    && forall j :: n <= j < MAX_BUFS ==> s[j] == ""
  }

  lemma GatherNone(s: seq<string>, obuf: string, bufs: seq<string>)
    requires |s| == MAX_BUFS && s[0] == obuf && forall j :: 1 <= j < MAX_BUFS ==> s[j] == ""
    ensures Gathered(s, if obuf == "" then 0 else 1, obuf, bufs, 0)
  {
    assert [obuf] + bufs[..0] == [obuf] && [obuf][1..] == [];
    assert obuf != "" ==> s[..1] == [obuf];
  }

  lemma GatherOne(s: seq<string>, n: nat, obuf: string, bufs: seq<string>, i: nat)
    requires Gathered(s, n, obuf, bufs, i) && i < |bufs| && n < MAX_BUFS
    ensures |s| == MAX_BUFS
    ensures bufs[i] == "" ==> Gathered(s, n, obuf, bufs, i + 1)
    ensures bufs[i] != "" ==> Gathered(s[n := bufs[i]], n + 1, obuf, bufs, i + 1)
  {
    assert [obuf] + bufs[..i + 1] == ([obuf] + bufs[..i]) + [bufs[i]];
    NonEmptyAppend([obuf] + bufs[..i], [bufs[i]]);
    NonEmptySingle(bufs[i]);
    hide NonEmpty;
    assert s[n := bufs[i]][..n + 1] == s[..n] + [bufs[i]];
  }

  lemma NonEmptySingle(b: string)
    ensures NonEmpty([b]) == if b == "" then [] else [b]
    ensures forall s: seq<string> :: s + [] == s
  {
    assert [b][1..] == [];
  }

  /** The queued output and then the caller's buffers, up to 16 that are not empty. */
  method Collect(obuf: string, bufs: seq<string>) returns (sbufs: array<string>)
    ensures fresh(sbufs) && sbufs.Length == MAX_BUFS && Flat(sbufs[..]) == Flat(Chosen([obuf] + bufs))
    ensures var c := Chosen([obuf] + bufs);
            sbufs[..|c|] == c && forall j :: |c| <= j < MAX_BUFS ==> sbufs[j] == ""
  {
    sbufs := new string[MAX_BUFS](_ => "");
    var n: nat := 0;
    if obuf != "" {
      sbufs[0] := obuf;
      n := 1;
    }
    var i: nat := 0;
    GatherNone(sbufs[..], obuf, bufs);
    hide *;
    while i < |bufs| && n < MAX_BUFS
      invariant i <= |bufs| && n <= MAX_BUFS
      invariant Gathered(sbufs[..], n, obuf, bufs, i)
    {
      GatherOne(sbufs[..], n, obuf, bufs, i);
      if bufs[i] != "" {
        ghost var s := sbufs[..];
        sbufs[n] := bufs[i];
        assert sbufs[..] == s[n := bufs[i]];
        n := n + 1;
      }
      i := i + 1;
    }
    CollectDone(sbufs[..], n, obuf, bufs, i);
  }

  lemma CollectDone(s: seq<string>, n: nat, obuf: string, bufs: seq<string>, i: nat)
    requires Gathered(s, n, obuf, bufs, i) && (i < |bufs| ==> n == MAX_BUFS)
    ensures |s| == MAX_BUFS && Flat(s) == Flat(Chosen([obuf] + bufs))
    ensures var c := Chosen([obuf] + bufs);
            s[..|c|] == c && forall j :: |c| <= j < MAX_BUFS ==> s[j] == ""
  {
    assert [obuf] + bufs == ([obuf] + bufs[..i]) + bufs[i..];
    NonEmptyAppend([obuf] + bufs[..i], bufs[i..]);
    hide Flat;
    assert s[..n] == Chosen([obuf] + bufs);
    hide NonEmpty; hide Chosen;
    FlatAppend(s[..n], s[n..]);
    FlatEmpty(s[n..]);
    assert s == s[..n] + s[n..];
    assert Flat(s[..n]) + "" == Flat(s[..n]);
  }

  /** All of buffer `i` has been taken, and more. */
  lemma TakesWhole(s: seq<string>, i: nat, n: nat)
    requires i < |s| && |s[i]| < n <= |Flat(s[i..])|
    ensures n - |s[i]| <= |Flat(s[i + 1..])| && Flat(s[i..])[n..] == Flat(s[i + 1..])[n - |s[i]|..]
  {
    assert s[i..][0] == s[i] && s[i..][1..] == s[i + 1..];
  }

  /** The taken bytes end in buffer `i`, and those before it are empty. */
  lemma TakesPart(s: seq<string>, i: nat, n: nat)
    requires i < |s| && n <= |s[i]| && forall j :: 0 <= j < i ==> s[j] == ""
    ensures n <= |Flat(s[i..])| && Flat(s[i := s[i][n..]]) == Flat(s[i..])[n..]
  {
    assert s[i..][0] == s[i] && s[i..][1..] == s[i + 1..];
    FlatUpdate(s, i, s[i][n..]);
    FlatEmpty(s[..i]);
    hide Flat;
    assert "" + s[i][n..] == s[i][n..];
  }

  /** Bytes that have been taken are cut off the front of the buffers. */
  method Advance(bufs: array<string>, taken: nat)
    requires taken <= |Flat(bufs[..])|
    modifies bufs
    ensures Flat(bufs[..]) == old(Flat(bufs[..]))[taken..]
  {
    hide Flat;
    var i: nat, n: nat := 0, taken;
    ghost var all := Flat(bufs[..]);
    assert bufs[0..] == bufs[..];
    NoBuffers();
    while i < bufs.Length && n > 0
      invariant i <= bufs.Length && n <= |Flat(bufs[i..])|
      invariant n > 0 ==> forall j :: 0 <= j < i ==> bufs[j] == ""
      invariant n == 0 ==> Flat(bufs[..]) == all[taken..]
      invariant n > 0 ==> Flat(bufs[i..])[n..] == all[taken..]
    {
      ghost var s := bufs[..];
      assert s[i..] == bufs[i..];
      if n > |bufs[i]| {
        TakesWhole(s, i, n);
        n := n - |bufs[i]|;
        bufs[i] := "";
        assert bufs[i + 1..] == s[i + 1..];
      } else {
        TakesPart(s, i, n);
        bufs[i] := bufs[i][n..];
        assert bufs[..] == s[i := s[i][n..]];
        n := 0;
      }
      i := i + 1;
    }
    assert bufs[bufs.Length..] == [];
  }

  lemma NoBuffers()
    ensures Flat([]) == ""
  {
  }

  // ----- the connection -----

  class Conn {
    const skipHdrs: bool          // NS_CONN_SKIPHDRS: a client before HTTP/1.0
    const skipBody: bool          // NS_CONN_SKIPBODY: HEAD
    const http11: bool            // a later version than 1.0
    var obuf: string
    var sentHdrs: bool
    var chunk: bool
    var closed: bool              // sockPtr is NULL
    var nContentSent: int
    var wire: string              // all the driver has taken
    var answers: seq<int>         // what the driver will answer

    constructor (skipHdrs: bool, skipBody: bool, http11: bool, answers: seq<int>)
      ensures this.skipHdrs == skipHdrs && this.skipBody == skipBody && this.http11 == http11
      ensures obuf == "" && wire == "" && !sentHdrs && !chunk && !closed && nContentSent == 0 && this.answers == answers
    {
      this.skipHdrs, this.skipBody, this.http11 := skipHdrs, skipBody, http11;
      obuf, sentHdrs, chunk, closed, nContentSent, wire, this.answers := "", false, false, false, 0, "", answers;
    }

    ghost function Answers(): seq<int>
      reads this
    {
      if closed then [] else answers
    }

    /** NsConnSend: the driver takes some of the first bytes of the buffers, in order. */
    method DriverSend(bufs: array<string>) returns (n: int)
      requires Flat(bufs[..]) != ""
      modifies this`wire, this`answers
      ensures Answered(|Flat(bufs[..])|, old(Answers()), n, Answers()) && n <= |Flat(bufs[..])|
      ensures n < 0 ==> wire == old(wire)
      ensures n >= 0 ==> wire == old(wire) + Flat(bufs[..])[..n]
    {
      if closed || answers == [] {
        return -1;
      }
      var all := Flat(bufs[..]);
      n := answers[0];
      answers := answers[1..];
      if n <= 0 {
        return -1;
      }
      n := Min(n, |all|);
      wire := wire + all[..n];
    }

    /** Ns_ConnSend. Whatever the driver does, what it has taken and what is still queued are
        together what was taken and queued before and the bytes returned as written. */
    method ConnSend(bufs: seq<string>) returns (r: int)
      modifies this`obuf, this`wire, this`answers, this`nContentSent
      ensures var data := Flat(Chosen([old(obuf)] + bufs));
              var d := Drive(|data|, old(Answers()));
              && r == Returned(|old(obuf)|, d)
              && wire == old(wire) + data[..d.count]
              && obuf == old(obuf)[Min(d.count, |old(obuf)|)..]
              && nContentSent == old(nContentSent) + d.count
              && Answers() == d.rest
    {
      var sbufs := Collect(obuf, bufs);
      ghost var data := Flat(sbufs[..]);
      var nwrote := SendAll(sbufs);
      assert nwrote < 0 ==> data[..0] == "" && obuf[0..] == obuf;
      if nwrote > 0 {
        nContentSent := nContentSent + nwrote;
        if obuf != "" {
          var n := |obuf| - nwrote;
          if n <= 0 {
            nwrote := nwrote - |obuf|;
            obuf := "";
          } else {
            obuf := obuf[nwrote..];
            nwrote := 0;
          }
        }
      }
      return nwrote;
    }

    /** The loop of sends: the bytes written, or -1 if the first send failed. */
    method SendAll(bufs: array<string>) returns (nwrote: int)
      modifies bufs, this`wire, this`answers
      ensures var data := old(Flat(bufs[..]));
              var d := Drive(|data|, old(Answers()));
              && nwrote == (if d.count == 0 && d.failed then -1 else d.count)
              && wire == old(wire) + data[..d.count] && Answers() == d.rest
    {
      ghost var data := Flat(bufs[..]);
      ghost var before := wire;
      var towrite := |Flat(bufs[..])|;
      var n := 0;
      nwrote := 0;
      NoneTaken(data, before);
      OwedAll(|data|, Answers());
      hide *;
      while towrite > 0
        invariant 0 <= nwrote <= |data| && towrite == |data| - nwrote
        invariant towrite > 0 ==> Left(data, nwrote, Flat(bufs[..]))
        invariant Taken(data, before, nwrote, wire)
        invariant Owed(|data|, old(Answers()), nwrote, Answers())
        invariant n == 0 || nwrote > 0
        decreases towrite
      {
        LeftIs(data, nwrote, Flat(bufs[..]));
        ghost var was, answersWere := wire, Answers();
        n := DriverSend(bufs);
        OwedStep(|data|, old(Answers()), nwrote, answersWere, n, Answers());
        if n < 0 {
          break;
        }
        MoreTaken(data, before, nwrote, was, Flat(bufs[..]), n);
        towrite := towrite - n;
        nwrote := nwrote + n;
        if towrite > 0 {
          Advance(bufs, n);
        }
      }
      OwedNone(|data|, old(Answers()), nwrote, Answers());
      TakenIs(data, before, nwrote, wire);
      if nwrote == 0 {
        nwrote := n;
      }
    }

    /** The buffers of one flush. */
    method Pieces(body: string, stream: bool) returns (bufs: seq<string>)
      ensures Flat(bufs) == Frame(skipBody, chunk, body, stream) && |bufs| <= 4
    {
      bufs := [];
      if !skipBody {
        if !chunk {
          bufs := [body];
        } else {
          if body != "" {
            bufs := [Hex(|body|) + "\r\n", body, "\r\n"];
          }
          if !stream {
            bufs := bufs + [LAST];
          }
        }
      }
      FlatPieces(body);
    }

    /** Queue headers if not already sent; a stream to a later version than 1.0 is chunked. */
    method QueueHeaders(head: string, stream: bool)
      modifies this`sentHdrs, this`chunk, this`obuf, this`nContentSent
      ensures sentHdrs && chunk == (old(chunk) || (!old(sentHdrs) && stream && http11))
      ensures obuf == Queued(old(obuf), head, !old(sentHdrs) && !skipHdrs)
      ensures nContentSent == old(nContentSent) - (if old(sentHdrs) || skipHdrs then 0 else |obuf|)
    {
      if !sentHdrs {
        if stream && http11 {
          chunk := true;
        }
        if !skipHdrs {
          obuf := obuf + head;
          nContentSent := nContentSent - |obuf|;
        }
        sentHdrs := true;
      }
    }

    /** Ns_ConnFlushDirect, `head` being what Ns_ConnConstructHeaders writes. */
    method FlushDirect(head: string, body: string, stream: bool) returns (ok: bool)
      modifies this
      ensures sentHdrs && chunk == (old(chunk) || (!old(sentHdrs) && stream && http11))
      ensures var queue := Queued(old(obuf), head, !old(sentHdrs) && !skipHdrs);
              var text := Frame(skipBody, chunk, body, stream);
              var d := Drive(|queue + text|, old(Answers()));
              && wire == old(wire) + (queue + text)[..d.count]
              && obuf == queue[Min(d.count, |queue|)..]
              && ok == (Returned(|queue|, d) == |text|)
              && (ok <==> d.count == |queue + text| || (text == "" && d.count > 0))
              && closed == (old(closed) || (ok && !stream))
              && Answers() == (if closed then [] else d.rest)
              && nContentSent == old(nContentSent) + d.count - (if old(sentHdrs) || skipHdrs then 0 else |queue|)
    {
      QueueHeaders(head, stream);
      var bufs := Pieces(body, stream);
      var towrite := |Flat(bufs)|;
      ChosenFlat(obuf, bufs);
      ghost var queue, answers := obuf, Answers();
      hide *;
      var nwrote := ConnSend(bufs);
      FlushSucceeds(queue, Flat(bufs), answers);
      if nwrote != towrite {
        return false;
      }
      if !stream {
        closed := true;
      }
      return true;
    }

    /** A response: streaming flushes and then a final one, up to the first that fails. What the
        driver has taken is always a beginning of the headers and the framed content. */
    method Respond(head: string, bodies: seq<string>, last: string) returns (ok: bool)
      requires !sentHdrs && !chunk && !closed && obuf == "" && wire == ""
      modifies this
      ensures var text := Response(skipHdrs, skipBody, http11, head, bodies, last);
              && wire <= text
              && (ok ==> closed && wire + obuf == text)
              && (ok && Frame(skipBody, chunk, last, false) != "" ==> wire == text)
      ensures ok ==> IsResponse(wire + obuf, skipHdrs, skipBody, http11, head, bodies, last)
      ensures ok && !skipBody && (last != "" || (bodies != [] && http11)) ==>
                IsResponse(wire, skipHdrs, skipBody, http11, head, bodies, last)
    {
      var i: nat := 0;
      ghost var chunked := bodies != [] && http11;
      ghost var start := if skipHdrs then "" else head;
      NoneYet(skipHdrs, skipBody, chunked, head);
      while i < |bodies|
        invariant i <= |bodies| && !closed && (sentHdrs <==> i > 0) && (chunk <==> i > 0 && chunked)
        invariant i == 0 ==> wire == "" && obuf == ""
        invariant i > 0 ==> wire + obuf == Begun(skipHdrs, skipBody, chunked, head, bodies[..i])
      {
        ghost var was, d := wire, Answers();
        ghost var queue := Queued(obuf, head, !sentHdrs && !skipHdrs);
        ghost var frame := Frame(skipBody, chunked, bodies[i], true);
        TurnStarts(wire, obuf, queue, frame, skipHdrs, skipBody, chunked, head, bodies, i, sentHdrs);
        BegunIsPrefix(skipHdrs, skipBody, http11, head, bodies, last, i + 1);
        hide *;
        ok := FlushDirect(head, bodies[i], true);
        FlushKeeps(was, queue, frame, d);
        Joined(was, queue, frame, wire, Begun(skipHdrs, skipBody, chunked, head, bodies[..i + 1]),
               Response(skipHdrs, skipBody, http11, head, bodies, last));
        if !ok {
          return;
        }
        i := i + 1;
      }
      ghost var was, d := wire, Answers();
      ghost var queue := Queued(obuf, head, !sentHdrs && !skipHdrs);
      ghost var frame := Frame(skipBody, chunked, last, false);
      assert bodies[..i] == bodies;
      LastTurn(wire, obuf, queue, frame, skipHdrs, skipBody, http11, head, bodies, last, sentHdrs);
      hide *;
      ok := FlushDirect(head, last, false);
      FlushKeeps(was, queue, frame, d);
      ResponseIs(skipHdrs, skipBody, http11, head, bodies, last);
      FrameIsEmpty(skipBody, bodies != [] && http11, last);
    }
  }

  lemma NoneYet(skipHdrs: bool, skipBody: bool, chunk: bool, head: string)
    ensures Begun(skipHdrs, skipBody, chunk, head, []) == if skipHdrs then "" else head
  {
  }

  lemma OneMore(skipHdrs: bool, skipBody: bool, chunk: bool, head: string, bodies: seq<string>, i: nat)
    requires i < |bodies|
    ensures Begun(skipHdrs, skipBody, chunk, head, bodies[..i + 1])
         == Begun(skipHdrs, skipBody, chunk, head, bodies[..i]) + Frame(skipBody, chunk, bodies[i], true)
    ensures i == 0 ==> Begun(skipHdrs, skipBody, chunk, head, bodies[..i]) == if skipHdrs then "" else head
  {
    hide Frame;
    assert bodies[..i + 1][..i] == bodies[..i];
  }

  lemma {:induction false} BegunIsPrefix(skipHdrs: bool, skipBody: bool, http11: bool, head: string,
                                         bodies: seq<string>,
                                         last: string, i: nat)
    requires i <= |bodies|
    ensures Begun(skipHdrs, skipBody, bodies != [] && http11, head, bodies[..i])
         <= Response(skipHdrs, skipBody, http11, head, bodies, last)
    decreases |bodies| - i
  {
    hide Frame;
    if i == |bodies| {
      assert bodies[..i] == bodies;
    } else {
      OneMore(skipHdrs, skipBody, bodies != [] && http11, head, bodies, i);
      hide Begun;
      BegunIsPrefix(skipHdrs, skipBody, http11, head, bodies, last, i + 1);
    }
  }

  lemma TurnStarts(wire: string, obuf: string, queue: string, frame: string, skipHdrs: bool, skipBody: bool,
                   chunk: bool,
                   head: string, bodies: seq<string>, i: nat, sent: bool)
    requires i < |bodies| && (sent <==> i > 0) && (i == 0 ==> wire == "" && obuf == "")
    requires i > 0 ==> wire + obuf == Begun(skipHdrs, skipBody, chunk, head, bodies[..i])
    requires queue == Queued(obuf, head, !sent && !skipHdrs) && frame == Frame(skipBody, chunk, bodies[i], true)
    ensures wire + (queue + frame) == Begun(skipHdrs, skipBody, chunk, head, bodies[..i + 1])
  {
    OneMore(skipHdrs, skipBody, chunk, head, bodies, i);
    QueueStarts(wire, obuf, head, skipHdrs, sent);
    hide *;
    Regroup(wire, queue, frame);
  }

  /** Headers are added to an empty queue. */
  lemma QueueStarts(wire: string, obuf: string, head: string, skipHdrs: bool, sent: bool)
    requires !sent ==> wire == "" && obuf == ""
    ensures wire + Queued(obuf, head, !sent && !skipHdrs)
         == if sent then wire + obuf else if skipHdrs then "" else head
  {
  }

  lemma Regroup(a: string, b: string, c: string)
    ensures a + (b + c) == (a + b) + c
  {
  }

  lemma ResponseEnds(skipHdrs: bool, skipBody: bool, http11: bool, head: string, bodies: seq<string>, last: string)
    ensures Response(skipHdrs, skipBody, http11, head, bodies, last)
         == Begun(skipHdrs, skipBody, bodies != [] && http11, head, bodies)
            + Frame(skipBody, bodies != [] && http11, last, false)
  {
  }

  lemma LastTurn(wire: string, obuf: string, queue: string, frame: string, skipHdrs: bool, skipBody: bool, http11: bool,
                 head: string, bodies: seq<string>, last: string, sent: bool)
    requires (sent <==> bodies != []) && (bodies == [] ==> wire == "" && obuf == "")
    requires bodies != [] ==> wire + obuf == Begun(skipHdrs, skipBody, http11, head, bodies)
    requires queue == Queued(obuf, head, !sent && !skipHdrs)
             && frame == Frame(skipBody, bodies != [] && http11, last, false)
    ensures wire + (queue + frame) == Response(skipHdrs, skipBody, http11, head, bodies, last)
  {
    NoneYet(skipHdrs, skipBody, false, head);
    QueueStarts(wire, obuf, head, skipHdrs, sent);
    ResponseEnds(skipHdrs, skipBody, http11, head, bodies, last);
    hide *;
    Regroup(wire, queue, frame);
  }

  /** After one flush of `text` behind the `queue`. */
  lemma FlushKeeps(was: string, queue: string, text: string, answers: seq<int>)
    ensures var d := Drive(|queue + text|, answers);
            var wire, obuf := was + (queue + text)[..d.count], queue[Min(d.count, |queue|)..];
            && wire <= was + (queue + text)
            && (Returned(|queue|, d) == |text| ==> wire + obuf == was + (queue + text))
            && (Returned(|queue|, d) == |text| && text != "" ==> wire == was + (queue + text))
  {
    var d := Drive(|queue + text|, answers);
    var all := queue + text;
    hide Drive;
    if d.count <= |queue| {
      assert all[..d.count] + queue[d.count..] == queue;
      assert text == "" ==> all == queue;
    } else {
      assert queue[|queue|..] == "" && all[..|all|] == all;
    }
  }

  lemma Joined(was: string, queue: string, frame: string, wire: string, begun: string, whole: string)
    requires wire <= was + (queue + frame) && begun <= whole
    requires was + (queue + frame) == begun
    ensures wire <= whole
  {
  }

  // ----- what a response should be -----

  /** One flush on the wire. */
  function Frame(skipBody: bool, chunk: bool, body: string, stream: bool): string {
    if skipBody then "" else if !chunk then body else Chunk(body) + if stream then "" else LAST
  }

  lemma FlatOne(a: string)
    ensures Flat([a]) == a
  {
    assert [a][1..] == [] && a + "" == a;
  }

  lemma FlatThree(a: string, b: string, c: string)
    ensures Flat([a, b, c]) == a + b + c
  {
    FlatOne(c);
    assert [b, c][1..] == [c];
    assert Flat([b, c]) == b + c;
    assert [a, b, c][1..] == [b, c];
    assert a + (b + c) == a + b + c;
  }

  lemma FlatChunk(body: string)
    requires body != ""
    ensures var b := [Hex(|body|) + "\r\n", body, "\r\n"];
            Flat(b) == Chunk(body) && Flat(b + [LAST]) == Chunk(body) + LAST
  {
    hide Hex;
    FlatThree(Hex(|body|) + "\r\n", body, "\r\n");
    FlatAppend([Hex(|body|) + "\r\n", body, "\r\n"], [LAST]);
    FlatOne(LAST);
    hide Flat;
  }

  lemma FlatPieces(body: string)
    ensures Flat([body]) == body && Flat([]) == "" && Flat([LAST]) == LAST
    ensures var b := [Hex(|body|) + "\r\n", body, "\r\n"];
            body != "" ==> Flat(b) == Chunk(body) && Flat(b + [LAST]) == Chunk(body) + LAST
    ensures [] + [LAST] == [LAST] && Chunk("") == "" && "" + LAST == LAST && Chunk(body) + "" == Chunk(body)
  {
    FlatOne(body);
    FlatOne(LAST);
    if body != "" { FlatChunk(body); }
    hide Hex;
  }

  /** The queue of output, with the headers added if it is time. */
  function Queued(obuf: string, head: string, add: bool): string {
    if add then obuf + head else obuf
  }

  function Frames(skipBody: bool, chunk: bool, bodies: seq<string>): string {
    if bodies == [] then ""
    else Frames(skipBody, chunk, bodies[..|bodies| - 1]) + Frame(skipBody, chunk, bodies[|bodies| - 1], true)
  }

  /** The response after some streaming flushes. */
  function Begun(skipHdrs: bool, skipBody: bool, chunk: bool, head: string, bodies: seq<string>): string {
    (if skipHdrs then "" else head) + Frames(skipBody, chunk, bodies)
  }

  function Response(skipHdrs: bool, skipBody: bool, http11: bool, head: string, bodies: seq<string>,
                    last: string): string {
    var chunk := bodies != [] && http11;
    Begun(skipHdrs, skipBody, chunk, head, bodies) + Frame(skipBody, chunk, last, false)
  }

  // ----- what success means -----

  /** If the flush succeeds, all bytes were sent. */
  ghost predicate Honest(queued: nat, length: nat, answers: seq<int>) {
    var d := Drive(queued + length, answers);
    Returned(queued, d) == length ==> d.count == queued + length
  }

  /** With `queued` bytes before `length` bytes of content, success always means that all were
      sent, if and only if there is some content or no more than one byte is queued. When the
      driver fails in the middle of headers that nothing follows, the flush still succeeds. */
  lemma SuccessIsComplete(queued: nat, length: nat)
    ensures (forall answers :: Honest(queued, length, answers)) <==> (length > 0 || queued <= 1)
  {
    if length == 0 && queued > 1 {
      var answers := [1, -1];
      assert answers[1..] == [-1];
      assert Drive(queued, answers) == Sent(1, true, []);
      assert !Honest(queued, length, answers);
    }
  }

  /** Exactly when a flush succeeds. */
  lemma SuccessIs(queued: nat, length: nat, answers: seq<int>)
    ensures var d := Drive(queued + length, answers);
            Returned(queued, d) == length <==> d.count == queued + length || (length == 0 && d.count > 0)
  {
  }

  lemma FlushSucceeds(queue: string, text: string, answers: seq<int>)
    ensures var d := Drive(|queue + text|, answers);
            Returned(|queue|, d) == |text| <==> d.count == |queue + text| || (text == "" && d.count > 0)
  {
    hide Drive; hide Returned;
    SuccessIs(|queue|, |text|, answers);
    assert |queue + text| == |queue| + |text|;
  }

  /** The driver takes at least a byte each time, as long as there are `n` to take. */
  ghost predicate Willing(answers: seq<int>, n: nat) {
    n <= |answers| && forall i :: 0 <= i < n ==> answers[i] > 0
  }

  lemma {:induction false} WillingTakesAll(n: nat, m: nat, answers: seq<int>)
    requires Willing(answers, n + m)
    ensures Drive(n, answers).count == n && Willing(Drive(n, answers).rest, m)
  {
    if n > 0 {
      var k := Min(answers[0], n);
      WillingTakesAll(n - k, m, answers[1..]);
    }
  }

  /** A HEAD request's response, of which the client gets one byte and the caller hears of no
      error. */
  method TruncatedHeaders(head: string) returns (conn: Conn, ok: bool)
    requires |head| > 1
    ensures ok && conn.closed && conn.wire == head[..1] != Response(false, true, true, head, [], "")
  {
    conn := new Conn(false, true, true, [1, -1]);
    assert [1, -1][1..] == [-1] && "" + head == head == head + "";
    assert Drive(|head|, [1, -1]) == Sent(1, true, []);
    ok := conn.FlushDirect(head, "", false);
  }

  // ----- a chunked response on the wire -----

  lemma FrameIsChunk(b: string)
    ensures Frame(false, true, b, true) == Chunk(b) && Frame(false, true, b, false) == Chunk(b) + LAST
  {
    hide Hex;
    assert Chunk(b) + "" == Chunk(b);
  }

  lemma {:induction false} FramesAreChunks(bodies: seq<string>)
    ensures Frames(false, true, bodies) == Chunks(bodies)
  {
    if bodies != [] {
      var n := |bodies| - 1;
      FramesAreChunks(bodies[..n]);
      ChunksSnoc(bodies[..n], bodies[n]);
      FrameIsChunk(bodies[n]);
      FramesSnoc(bodies);
      LastOf(bodies);
      hide *;
    } else {
      hide Frame; hide Chunk;
    }
  }

  lemma FramesSnoc(bodies: seq<string>)
    requires bodies != []
    ensures var n := |bodies| - 1;
            Frames(false, true, bodies) == Frames(false, true, bodies[..n]) + Frame(false, true, bodies[n], true)
  {
    hide Frame; hide Chunk; hide Hex;
  }

  lemma LastOf(bodies: seq<string>)
    requires bodies != []
    ensures bodies == bodies[..|bodies| - 1] + [bodies[|bodies| - 1]]
  {
  }

  lemma {:induction false} ChunksSnoc(bufs: seq<string>, b: string)
    ensures Chunks(bufs + [b]) == Chunks(bufs) + Chunk(b)
  {
    hide Chunk;
    if bufs == [] {
      assert ([] + [b])[1..] == [] && [] + [b] == [b];
      assert Chunk(b) + "" == Chunk(b) == "" + Chunk(b);
    } else {
      ChunksSnoc(bufs[1..], b);
      assert (bufs + [b])[1..] == bufs[1..] + [b];
      assert Chunk(bufs[0]) + (Chunks(bufs[1..]) + Chunk(b)) == (Chunk(bufs[0]) + Chunks(bufs[1..])) + Chunk(b);
    }
  }

  /** A streamed response to an HTTP/1.1 client is the headers and a chunked body that decodes
      to all that was flushed. */
  lemma StreamDecodes(head: string, bodies: seq<string>, last: string)
    requires bodies != []
    ensures var text := Response(false, false, true, head, bodies, last);
            head <= text && Decode(text[|head|..]) == Some(Flat(bodies + [last]))
  {
    var body := Chunks(bodies + [last]) + LAST;
    StreamText(head, bodies, last);
    DecodeChunks(bodies + [last]);
    hide *;
    Cut(head, body);
    StartsWith(head, body);
  }

  /** And nothing shorter, `m` bytes of that body say, decodes at all. */
  lemma CutStreamIsNoticed(head: string, bodies: seq<string>, last: string, m: nat)
    requires bodies != [] && |head| + m < |Response(false, false, true, head, bodies, last)|
    ensures Decode(Response(false, false, true, head, bodies, last)[|head|..][..m]) == None
  {
    var body := Chunks(bodies + [last]) + LAST;
    StreamText(head, bodies, last);
    hide *;
    Cut(head, body);
    CutIsNoticed(bodies + [last], m);
  }

  lemma StartsWith(a: string, b: string)
    ensures a <= a + b
  {
  }

  lemma StreamText(head: string, bodies: seq<string>, last: string)
    requires bodies != []
    ensures Response(false, false, true, head, bodies, last) == head + (Chunks(bodies + [last]) + LAST)
  {
    FramesAreChunks(bodies);
    ChunksSnoc(bodies, last);
    FrameIsChunk(last);
    hide Chunks; hide Chunk; hide Frames; hide Frame;
    assert (head + Chunks(bodies)) + (Chunk(last) + LAST) == head + ((Chunks(bodies) + Chunk(last)) + LAST);
  }

  // ----- what the client is to get -----

  /** The headers; and, if the request was not HEAD, all that was flushed, as it is or in chunks
      if it was streamed to a client later than HTTP/1.0. */
  ghost predicate IsResponse(text: string, skipHdrs: bool, skipBody: bool, http11: bool, head: string,
                             bodies: seq<string>, last: string)
  {
    var headers, content := if skipHdrs then "" else head, Flat(bodies + [last]);
    && headers <= text
    && var body := text[|headers|..];
       if skipBody then body == ""
       else if bodies != [] && http11 then Decode(body) == Some(content)
       else body == content
  }

  lemma ResponseIs(skipHdrs: bool, skipBody: bool, http11: bool, head: string, bodies: seq<string>, last: string)
    ensures IsResponse(Response(skipHdrs, skipBody, http11, head, bodies, last),
                       skipHdrs, skipBody, http11, head, bodies, last)
  {
    var headers := if skipHdrs then "" else head;
    if !skipBody && bodies != [] && http11 {
      StreamDecodes(headers, bodies, last);
      hide Decode; hide Frames; hide Frame; hide Flat;
    } else {
      var body := if skipBody then "" else Flat(bodies + [last]);
      PlainText(skipHdrs, skipBody, http11, head, bodies, last);
      Cut(headers, body);
      StartsWith(headers, body);
      hide Decode; hide Response; hide Flat;
    }
  }

  lemma PlainText(skipHdrs: bool, skipBody: bool, http11: bool, head: string, bodies: seq<string>, last: string)
    requires skipBody || bodies == [] || !http11
    ensures Response(skipHdrs, skipBody, http11, head, bodies, last)
         == (if skipHdrs then "" else head) + (if skipBody then "" else Flat(bodies + [last]))
  {
    var headers, chunk := if skipHdrs then "" else head, bodies != [] && http11;
    PlainFrames(skipBody, chunk, bodies);
    FlatAppend(bodies, [last]);
    FlatOne(last);
    hide Frames; hide Flat;
    Regroup(headers, Frames(skipBody, chunk, bodies), Frame(skipBody, chunk, last, false));
  }

  lemma {:induction false} PlainFrames(skipBody: bool, chunk: bool, bodies: seq<string>)
    requires skipBody || bodies == [] || !chunk
    ensures Frames(skipBody, chunk, bodies) == if skipBody then "" else Flat(bodies)
  {
    if bodies != [] {
      var n := |bodies| - 1;
      PlainFrames(skipBody, chunk, bodies[..n]);
      LastOf(bodies);
      FlatAppend(bodies[..n], [bodies[n]]);
      FlatOne(bodies[n]);
      hide Flat;
    }
  }

  lemma FrameIsEmpty(skipBody: bool, chunk: bool, last: string)
    ensures Frame(skipBody, chunk, last, false) == "" <==> skipBody || (!chunk && last == "")
  {
    hide Hex;
  }

  /** What one flush adds: nothing for HEAD, the content as it is, or in a chunk that the client
      decodes before what follows; an empty one adds no chunk, and the final one the last. */
  lemma FlushIsRead(body: string, stream: bool, t: string)
    ensures Frame(true, true, body, stream) == "" && Frame(true, false, body, stream) == ""
    ensures Frame(false, false, body, stream) == body
    ensures Frame(false, true, "", true) == "" && Frame(false, true, "", false) == LAST
    ensures Decode(t).Some? ==> Decode(Frame(false, true, body, true) + t) == Some(body + Decode(t).value)
    ensures Decode(Frame(false, true, body, false)) == Some(body)
  {
    FrameIsChunk(body);
    DecodeLast();
    assert "" + t == t && "" + LAST == LAST && body + "" == body;
    assert Chunk("") == "";
    hide Decode; hide Hex; hide Chunk;
    if body != "" {
      DecodeChunk(body, LAST);
      if Decode(t).Some? { DecodeChunk(body, t); }
    } else {
      assert forall d: string :: "" + d == d;
    }
  }
}
