/** Responses whose flushes go on after one has failed, as those of ADP pages do unless they are
    to abort (nsd/adprequest.c): exactly when the wire is still a beginning of the response,
    and exactly when it is all of it. */
module ConnRun {
  import opened Common
  import opened Chunked
  import opened ConnIo

  /** A connection between two flushes. */
  datatype Line = Line(wire: string, queue: string, answers: seq<int>)

  ghost function Drives(s: Line, text: string): Sent {
    Drive(|s.queue| + |text|, s.answers)
  }

  /** A flush of `text`, whether it succeeds or fails: queued bytes that are not taken stay
      queued, and content that is not taken is gone. */
  ghost function After(s: Line, text: string): Line {
    var d := Drives(s, text);
    Line(s.wire + (s.queue + text)[..d.count], s.queue[Min(d.count, |s.queue|)..], d.rest)
  }

  ghost function AfterAll(s: Line, texts: seq<string>): Line
    decreases |texts|
  {
    if texts == [] then s else AfterAll(After(s, texts[0]), texts[1..])
  }

  /** What should be on the wire in the end. */
  ghost function Ideal(s: Line, texts: seq<string>): string {
    s.wire + s.queue + Flat(texts)
  }

  /** Some content of the flush is not taken. */
  ghost predicate Cut(s: Line, text: string) {
    text != "" && Drives(s, text).count < |s.queue| + |text|
  }

  /** Some content of the flush is taken. */
  ghost predicate Gets(s: Line, text: string) {
    Drives(s, text).count > |s.queue|
  }

  /** Once content of a flush has been cut off, no content of a later one is taken. */
  ghost predicate Clean(s: Line, texts: seq<string>, cut: bool)
    decreases |texts|
  {
    texts == [] ||
    ((cut ==> !Gets(s, texts[0])) && Clean(After(s, texts[0]), texts[1..], cut || Cut(s, texts[0])))
  }

  ghost predicate Uncut(s: Line, texts: seq<string>)
    decreases |texts|
  {
    texts == [] || (!Cut(s, texts[0]) && Uncut(After(s, texts[0]), texts[1..]))
  }

  // ----- one flush -----

  lemma FlushFacts(s: Line, text: string)
    ensures var r, d := After(s, text), Drives(s, text);
            && d.count <= |s.queue| + |text|
            && (!Gets(s, text) ==> r.wire + r.queue == s.wire + s.queue)
            && (Gets(s, text) ==> r.queue == "" && r.wire == (s.wire + s.queue) + text[..d.count - |s.queue|])
            && (!Cut(s, text) ==> r.wire + r.queue == (s.wire + s.queue) + text)
  {
    var d := Drives(s, text);
    hide Drive;
    if d.count <= |s.queue| {
      assert (s.queue + text)[..d.count] + s.queue[d.count..] == s.queue;
      assert s.wire + ((s.queue + text)[..d.count] + s.queue[d.count..])
          == s.wire + (s.queue + text)[..d.count] + s.queue[d.count..];
      assert (s.wire + s.queue) + "" == s.wire + s.queue;
    } else {
      var n := d.count - |s.queue|;
      assert s.wire + (s.queue + text)[..d.count] == (s.wire + s.queue) + text[..n];
      assert !Cut(s, text) ==> text[..n] == text;
    }
  }

  lemma Shift(a: string, b: string, texts: seq<string>)
    requires texts != []
    ensures (a + b) + Flat(texts) == ((a + b) + texts[0]) + Flat(texts[1..])
  {
  }

  // ----- when the wire is a beginning of the response -----

  lemma {:induction false} CleanStays(s: Line, texts: seq<string>, cut: bool, ideal: string)
    requires Clean(s, texts, cut)
    requires if cut then s.wire + s.queue <= ideal else Ideal(s, texts) == ideal
    ensures AfterAll(s, texts).wire <= ideal
    decreases |texts|
  {
    hide Gets; hide Cut; hide After; hide Drives;
    if texts != [] {
      FlushFacts(s, texts[0]);
      Shift(s.wire, s.queue, texts);
      CutBegins(s, texts[0], Flat(texts[1..]));
      hide Flat;
      CleanStays(After(s, texts[0]), texts[1..], cut || Cut(s, texts[0]), ideal);
    }
  }

  lemma CutBegins(s: Line, text: string, rest: string)
    ensures var r := After(s, text); r.wire + r.queue <= ((s.wire + s.queue) + text) + rest
  {
    hide Drive;
    FlushFacts(s, text);
    if Gets(s, text) {
      var n := Drives(s, text).count - |s.queue|;
      assert (s.wire + s.queue) + text[..n] <= ((s.wire + s.queue) + text) + rest;
      assert After(s, text).wire + "" == After(s, text).wire;
    }
  }

  ghost function Fill(n: nat, c: char): (r: string)
    ensures |r| == n && forall i :: 0 <= i < n ==> r[i] == c
  {
    seq(n, _ => c)
  }

  /** Flushes of the same lengths: of nothing but `a` up to the first whose content is cut, and
      of nothing but `b` after it. */
  ghost function Marked(s: Line, texts: seq<string>, cut: bool): seq<string>
    decreases |texts|
  {
    if texts == [] then []
    else [Fill(|texts[0]|, if cut then 'b' else 'a')] + Marked(After(s, texts[0]), texts[1..], cut || Cut(s, texts[0]))
  }

  ghost predicate SameLengths(a: seq<string>, b: seq<string>) {
    |a| == |b| && forall i :: 0 <= i < |a| ==> |a[i]| == |b[i]|
  }

  /** Two connections on which the driver does the same. */
  ghost predicate Alike(s: Line, z: Line) {
    |s.queue| == |z.queue| && s.answers == z.answers
  }

  lemma AlikeAfter(s: Line, z: Line, text: string, other: string)
    requires Alike(s, z) && |text| == |other|
    ensures Alike(After(s, text), After(z, other)) && Drives(z, other) == Drives(s, text)
    ensures (Cut(s, text) <==> Cut(z, other)) && (Gets(s, text) <==> Gets(z, other))
  {
    hide Drive;
  }

  lemma {:induction false} CleanAlike(s: Line, z: Line, texts: seq<string>, others: seq<string>, cut: bool)
    requires Alike(s, z) && SameLengths(texts, others)
    ensures Clean(s, texts, cut) <==> Clean(z, others, cut)
    decreases |texts|
  {
    hide Gets; hide Cut; hide After; hide Alike;
    if texts != [] {
      AlikeAfter(s, z, texts[0], others[0]);
      CleanAlike(After(s, texts[0]), After(z, others[0]), texts[1..], others[1..], cut || Cut(s, texts[0]));
    }
  }

  lemma {:induction false} MarkedLengths(s: Line, texts: seq<string>, cut: bool)
    ensures SameLengths(Marked(s, texts, cut), texts)
    decreases |texts|
  {
    if texts != [] {
      MarkedLengths(After(s, texts[0]), texts[1..], cut || Cut(s, texts[0]));
    }
    hide After; hide Cut; hide Fill;
  }

  lemma {:induction false} WireGrows(s: Line, texts: seq<string>)
    ensures s.wire <= AfterAll(s, texts).wire
    decreases |texts|
  {
    hide Drives;
    if texts != [] {
      WireGrows(After(s, texts[0]), texts[1..]);
    }
  }

  lemma Mismatch(p: string, q: string, r: string, ideal: string)
    requires p < ideal && ideal[|p|] == 'a' && p + q <= r && q != "" && q[0] == 'b'
    ensures !(r <= ideal)
  {
    assert r[|p|] == (p + q)[|p|] == 'b';
  }

  /** The content cut off begins with `a`, and what comes in its place with `b`. */
  lemma {:induction false} MarkedBreaks(s: Line, z: Line, texts: seq<string>, cut: bool, ideal: string)
    requires Alike(s, z) && !Clean(s, texts, cut)
    requires cut ==> z.wire + z.queue < ideal && ideal[|z.wire + z.queue|] == 'a'
    requires !cut ==> Ideal(z, Marked(s, texts, cut)) == ideal
    ensures !(AfterAll(z, Marked(s, texts, cut)).wire <= ideal)
    decreases |texts|
  {
    hide Gets; hide Cut; hide After; hide Drives; hide Alike; hide Fill;
    var t, ms := texts[0], Marked(s, texts, cut);
    var m := Fill(|t|, if cut then 'b' else 'a');
    assert ms[0] == m && ms[1..] == Marked(After(s, t), texts[1..], cut || Cut(s, t));
    FlushFacts(z, m);
    AlikeAfter(s, z, t, m);
    Shift(z.wire, z.queue, ms);
    hide Flat; hide Marked;
    if cut && Gets(s, t) {
      BrokenNow(s, z, t, ms, ideal);
    } else {
      if !cut && Cut(s, t) {
        CutLeaves(z, m, ms, ideal);
      }
      MarkedBreaks(After(s, t), After(z, m), texts[1..], cut || Cut(s, t), ideal);
    }
  }

  lemma BrokenNow(s: Line, z: Line, t: string, ms: seq<string>, ideal: string)
    requires ms != [] && ms[0] == Fill(|t|, 'b') && Gets(z, ms[0])
    requires z.wire + z.queue < ideal && ideal[|z.wire + z.queue|] == 'a'
    ensures !(AfterAll(z, ms).wire <= ideal)
  {
    FlushFacts(z, ms[0]);
    WireGrows(After(z, ms[0]), ms[1..]);
    hide After; hide Cut; hide Drive;
    Mismatch(z.wire + z.queue, ms[0][..Drives(z, ms[0]).count - |z.queue|], AfterAll(After(z, ms[0]), ms[1..]).wire,
             ideal);
  }

  lemma CutLeaves(z: Line, m: string, ms: seq<string>, ideal: string)
    requires Cut(z, m) && m == Fill(|m|, 'a') && ms != [] && ms[0] == m
    requires ideal == ((z.wire + z.queue) + m) + Flat(ms[1..])
    ensures var r := After(z, m);
            r.wire + r.queue < ideal && ideal[|r.wire + r.queue|] == 'a'
  {
    FlushFacts(z, m);
    var r, d := After(z, m), Drives(z, m);
    hide After; hide Drive; hide Flat;
    var p, n := z.wire + z.queue, if Gets(z, m) then d.count - |z.queue| else 0;
    assert r.wire + r.queue == p + m[..n];
    assert ideal[..|p| + n] == p + m[..n];
    assert ideal[|p| + n] == m[n];
  }

  /** For every content of these lengths the wire is always a beginning of the response, if and
      only if no content is taken after content of an earlier flush has been cut off. */
  lemma PrefixIsClean(head: string, texts: seq<string>, answers: seq<int>)
    ensures (forall ts :: SameLengths(ts, texts) ==> AfterAll(Line("", head, answers), ts).wire <= head + Flat(ts))
            <==> Clean(Line("", head, answers), texts, false)
  {
    var s := Line("", head, answers);
    assert "" + head == head;
    hide SameLengths; hide Clean; hide AfterAll; hide Flat;
    if Clean(s, texts, false) {
      forall ts | SameLengths(ts, texts) ensures AfterAll(s, ts).wire <= head + Flat(ts) {
        SameLengthsBack(ts, texts);
        CleanAlike(s, s, texts, ts, false);
        CleanStays(s, ts, false, Ideal(s, ts));
      }
    } else {
      var ts := Marked(s, texts, false);
      MarkedLengths(s, texts, false);
      MarkedBreaks(s, s, texts, false, Ideal(s, ts));
      assert SameLengths(ts, texts) && !(AfterAll(s, ts).wire <= head + Flat(ts));
    }
  }

  lemma SameLengthsBack(a: seq<string>, b: seq<string>)
    requires SameLengths(a, b)
    ensures SameLengths(b, a)
  {
  }

  // ----- when it is all of it -----

  lemma {:induction false} LossIsLasting(s: Line, texts: seq<string>)
    ensures var r := AfterAll(s, texts);
            |r.wire| + |r.queue| <= |Ideal(s, texts)| && (!Uncut(s, texts) ==> |r.wire| + |r.queue| < |Ideal(s, texts)|)
    decreases |texts|
  {
    hide After; hide Cut; hide Gets; hide Drives;
    if texts != [] {
      FlushFacts(s, texts[0]);
      CutLosesSome(s, texts[0]);
      LossIsLasting(After(s, texts[0]), texts[1..]);
    }
  }

  lemma CutLosesSome(s: Line, text: string)
    ensures var r := After(s, text);
            && |r.wire| + |r.queue| <= |s.wire| + |s.queue| + |text|
            && (Cut(s, text) ==> |r.wire| + |r.queue| < |s.wire| + |s.queue| + |text|)
  {
    hide Drive;
    FlushFacts(s, text);
  }

  /** Taken and queued bytes are the whole response if and only if no flush was cut. */
  lemma {:induction false} AllIsUncut(s: Line, texts: seq<string>)
    ensures var r := AfterAll(s, texts); r.wire + r.queue == Ideal(s, texts) <==> Uncut(s, texts)
    decreases |texts|
  {
    LossIsLasting(s, texts);
    if Uncut(s, texts) && texts != [] {
      hide After; hide Cut; hide Gets; hide Drives;
      FlushFacts(s, texts[0]);
      Shift(s.wire, s.queue, texts);
      AllIsUncut(After(s, texts[0]), texts[1..]);
    } else {
      assert texts == [] ==> (s.wire + s.queue) + "" == s.wire + s.queue;
    }
  }

  /** The last flush has content and succeeds: then the wire is the whole response if and only
      if no flush before it was cut. */
  lemma SuccessIsUncut(s: Line, texts: seq<string>, last: string)
    requires var z := AfterAll(s, texts); last != "" && Returned(|z.queue|, Drives(z, last)) == |last|
    ensures AfterAll(s, texts + [last]).wire == Ideal(s, texts + [last]) <==> Uncut(s, texts)
  {
    var z := AfterAll(s, texts);
    Snoc(s, texts, last);
    AllIsUncut(s, texts + [last]);
    FlushFacts(z, last);
    assert Gets(z, last) && !Cut(z, last) by { hide Drive; }
    hide AfterAll; hide Uncut; hide Ideal; hide After; hide Gets; hide Cut;
    assert After(z, last).wire + "" == After(z, last).wire;
  }

  lemma {:induction false} Snoc(s: Line, texts: seq<string>, last: string)
    ensures AfterAll(s, texts + [last]) == After(AfterAll(s, texts), last)
    ensures Uncut(s, texts + [last]) <==> Uncut(s, texts) && !Cut(AfterAll(s, texts), last)
    decreases |texts|
  {
    hide After; hide Cut;
    if texts == [] {
      assert [] + [last] == [last] && [last][1..] == [];
    } else {
      Snoc(After(s, texts[0]), texts[1..], last);
      assert (texts + [last])[1..] == texts[1..] + [last];
    }
  }

  // ----- the driver -----

  /** A driver that has failed takes nothing more. */
  ghost predicate Steady(answers: seq<int>) {
    forall i, j :: 0 <= i < j < |answers| && answers[i] <= 0 ==> answers[j] <= 0
  }

  ghost predicate Dead(answers: seq<int>) {
    forall i :: 0 <= i < |answers| ==> answers[i] <= 0
  }

  lemma {:induction false} SteadyRest(total: nat, answers: seq<int>)
    requires Steady(answers)
    ensures var d := Drive(total, answers); Steady(d.rest) && (d.count < total ==> Dead(d.rest))
  {
    if total > 0 && answers != [] && answers[0] > 0 {
      SteadyRest(total - Min(answers[0], total), answers[1..]);
    }
  }

  lemma DeadRest(total: nat, answers: seq<int>)
    requires Dead(answers)
    ensures var d := Drive(total, answers); Dead(d.rest) && d.count == 0
  {
  }

  lemma {:induction false} SteadyIsClean(s: Line, texts: seq<string>, cut: bool)
    requires Steady(s.answers) && (cut ==> Dead(s.answers))
    ensures Clean(s, texts, cut)
    decreases |texts|
  {
    if texts != [] {
      var total := |s.queue| + |texts[0]|;
      SteadyRest(total, s.answers);
      if cut {
        DeadRest(total, s.answers);
      }
      hide Drive; hide Steady; hide Dead;
      SteadyIsClean(After(s, texts[0]), texts[1..], cut || Cut(s, texts[0]));
    }
  }

  /** As many flushes of one byte as the driver refuses, and then one of which it takes it. */
  lemma {:induction false} Resumes(s: Line, n: nat)
    requires n < |s.answers| && s.queue == "" && s.answers[n] > 0 && forall i :: 0 <= i < n ==> s.answers[i] <= 0
    ensures !Clean(s, seq(n + 1, _ => "x"), true)
    decreases n
  {
    var texts := seq(n + 1, _ => "x");
    assert |s.queue| + |texts[0]| == 1;
    DriveStep(1, s.answers);
    if n > 0 {
      assert texts[1..] == seq(n, _ => "x");
      Resumes(After(s, "x"), n - 1);
    } else {
      hide Drive;
    }
  }

  /** A first flush that the driver cuts off by its answer `i`. */
  lemma {:induction false} TakesUpTo(i: nat, answers: seq<int>) returns (total: nat)
    requires i < |answers| && answers[i] <= 0 && forall j :: 0 <= j < i ==> answers[j] > 0
    ensures total > 0 && var d := Drive(total, answers); d.count < total && d.rest == answers[i + 1..]
  {
    if i == 0 {
      total := 1;
    } else {
      var more := TakesUpTo(i - 1, answers[1..]);
      total := more + answers[0];
      DriveStep(total, answers);
      hide Drive;
      assert answers[1..][i..] == answers[i + 1..];
    }
  }

  lemma FirstFailure(answers: seq<int>) returns (i: nat, j: nat)
    requires !Steady(answers)
    ensures i < j < |answers| && answers[i] <= 0 < answers[j]
    ensures (forall k :: 0 <= k < i ==> answers[k] > 0) && forall k :: i < k < j ==> answers[k] <= 0
  {
    i := 0;
    while answers[i] > 0
      invariant i < |answers| && forall k :: 0 <= k < i ==> answers[k] > 0
      invariant exists a, b :: i <= a < b < |answers| && answers[a] <= 0 < answers[b]
      decreases |answers| - i
    {
      i := i + 1;
    }
    j := i + 1;
    while answers[j] <= 0
      invariant i < j < |answers| && forall k :: i < k < j ==> answers[k] <= 0
      invariant exists b :: j <= b < |answers| && answers[b] > 0
      decreases |answers| - j
    {
      j := j + 1;
    }
  }

  /** Whatever is flushed, the wire is always a beginning of the response, if and only if the
      driver, once it has failed, takes nothing more. */
  lemma PrefixIsSteady(answers: seq<int>)
    ensures (forall head, texts :: AfterAll(Line("", head, answers), texts).wire <= head + Flat(texts))
            <==> Steady(answers)
  {
    hide AfterAll; hide Flat;
    if Steady(answers) {
      forall head, texts ensures AfterAll(Line("", head, answers), texts).wire <= head + Flat(texts) {
        SteadyIsClean(Line("", head, answers), texts, false);
        CleanStays(Line("", head, answers), texts, false, Ideal(Line("", head, answers), texts));
        assert "" + head == head;
      }
    } else {
      hide Clean;
      var texts := BreakingTexts(answers);
      PrefixIsClean("", texts, answers);
    }
  }

  lemma BreakingTexts(answers: seq<int>) returns (texts: seq<string>)
    requires !Steady(answers)
    ensures !Clean(Line("", "", answers), texts, false)
  {
    var i, j := FirstFailure(answers);
    var total := TakesUpTo(i, answers);
    hide Steady; hide Drive;
    var s, first, rest := Line("", "", answers), Fill(total, 'x'), seq(j - i, _ => "x");
    texts := [first] + rest;
    assert texts[1..] == rest;
    Shifted(answers, i + 1);
    Resumes(After(s, first), j - i - 1);
  }

  lemma Shifted(answers: seq<int>, n: nat)
    requires n <= |answers|
    ensures var r := answers[n..]; forall k :: 0 <= k < |r| ==> r[k] == answers[n + k]
  {
  }

  // ----- a driver that does not fail -----

  /** Gets all of a response through, and its last flush succeeds. */
  lemma {:induction false} WillingGetsAll(s: Line, texts: seq<string>)
    requires texts != [] && Willing(s.answers, |s.queue| + |Flat(texts)|)
    ensures AfterAll(s, texts).wire == Ideal(s, texts) && AfterAll(s, texts).queue == ""
    ensures var n := |texts| - 1;
            var z := AfterAll(s, texts[..n]);
            Returned(|z.queue|, Drives(z, texts[n])) == |texts[n]|
    decreases |texts|
  {
    hide After; hide Drives; hide Flat; hide Returned; hide Willing;
    var t, rest := texts[0], texts[1..];
    WillingOnce(s, texts);
    Shift(s.wire, s.queue, texts);
    TakenWhole(s, t);
    if rest == [] {
      NoMore(After(s, t));
      assert texts[..0] == [];
    } else {
      WillingGetsAll(After(s, t), rest);
      assert texts[..|texts| - 1][1..] == rest[..|rest| - 1] && texts[..|texts| - 1][0] == t;
    }
  }

  lemma NoMore(s: Line)
    ensures Flat([]) == "" && Ideal(s, []) == s.wire + s.queue && AfterAll(s, []) == s
  {
    assert (s.wire + s.queue) + "" == s.wire + s.queue;
  }

  /** The first flush. */
  lemma WillingOnce(s: Line, texts: seq<string>)
    requires texts != [] && Willing(s.answers, |s.queue| + |Flat(texts)|)
    ensures var t, z := texts[0], After(s, texts[0]);
            && Drives(s, t).count == |s.queue| + |t| && Returned(|s.queue|, Drives(s, t)) == |t|
            && Willing(z.answers, |Flat(texts[1..])|)
  {
    hide Drive; hide Returned; hide Willing;
    var t := texts[0];
    assert |Flat(texts)| == |t| + |Flat(texts[1..])|;
    hide Flat;
    WillingTakesAll(|s.queue| + |t|, |Flat(texts[1..])|, s.answers);
    SuccessIs(|s.queue|, |t|, s.answers);
  }

  lemma TakenWhole(s: Line, text: string)
    requires Drives(s, text).count == |s.queue| + |text|
    ensures var r := After(s, text); r.queue == "" && r.wire == (s.wire + s.queue) + text
  {
    hide Drive;
    assert (s.queue + text)[..|s.queue| + |text|] == s.queue + text;
    assert s.wire + (s.queue + text) == (s.wire + s.queue) + text;
  }

  // ----- on a connection -----

  /** What the flushes of a response put behind the queue. */
  ghost function FramesOf(skipBody: bool, chunk: bool, bodies: seq<string>): seq<string> {
    seq(|bodies|, i requires 0 <= i < |bodies| => Frame(skipBody, chunk, bodies[i], true))
  }

  lemma OneMoreFrame(s: Line, skipBody: bool, chunk: bool, bodies: seq<string>, i: nat)
    requires i < |bodies|
    ensures AfterAll(s, FramesOf(skipBody, chunk, bodies[..i + 1]))
         == After(AfterAll(s, FramesOf(skipBody, chunk, bodies[..i])), Frame(skipBody, chunk, bodies[i], true))
  {
    hide AfterAll; hide After; hide Frame;
    assert FramesOf(skipBody, chunk, bodies[..i + 1])
        == FramesOf(skipBody, chunk, bodies[..i]) + [Frame(skipBody, chunk, bodies[i], true)];
    Snoc(s, FramesOf(skipBody, chunk, bodies[..i]), Frame(skipBody, chunk, bodies[i], true));
  }

  lemma NoFrames(s: Line, skipBody: bool, chunk: bool)
    ensures AfterAll(s, FramesOf(skipBody, chunk, [])) == s
  {
  }

  lemma AfterIs(s: Line, text: string)
    ensures var d := Drive(|s.queue + text|, s.answers);
            After(s, text) == Line(s.wire + (s.queue + text)[..d.count], s.queue[Min(d.count, |s.queue|)..], d.rest)
  {
    assert |s.queue + text| == |s.queue| + |text|;
    hide Drive;
  }

  lemma {:induction false} FlatFrames(skipBody: bool, chunk: bool, bodies: seq<string>)
    ensures Flat(FramesOf(skipBody, chunk, bodies)) == Frames(skipBody, chunk, bodies)
  {
    hide Frame;
    if bodies != [] {
      var n := |bodies| - 1;
      FlatFrames(skipBody, chunk, bodies[..n]);
      var f := Frame(skipBody, chunk, bodies[n], true);
      assert FramesOf(skipBody, chunk, bodies) == FramesOf(skipBody, chunk, bodies[..n]) + [f];
      FlatAppend(FramesOf(skipBody, chunk, bodies[..n]), [f]);
      FlatOne(f);
      hide Flat;
    }
  }

  /** What the flushes of a response say of the response. */
  lemma RunOfResponse(skipHdrs: bool, skipBody: bool, http11: bool, head: string, bodies: seq<string>, last: string,
                      answers: seq<int>)
    ensures var s := Line("", if skipHdrs then "" else head, answers);
            var frames := FramesOf(skipBody, bodies != [] && http11, bodies);
            var text := Frame(skipBody, bodies != [] && http11, last, false);
            var wire := After(AfterAll(s, frames), text).wire;
            var whole := Response(skipHdrs, skipBody, http11, head, bodies, last);
            && (Clean(s, frames + [text], false) ==> wire <= whole)
            && (text != "" && Returned(|AfterAll(s, frames).queue|, Drives(AfterAll(s, frames), text)) == |text| ==>
                  (wire == whole <==> Uncut(s, frames)))
  {
    hide Frame; hide After; hide AfterAll; hide Clean; hide Uncut; hide Drives; hide FramesOf;
    var s := Line("", if skipHdrs then "" else head, answers);
    var frames := FramesOf(skipBody, bodies != [] && http11, bodies);
    var text := Frame(skipBody, bodies != [] && http11, last, false);
    Snoc(s, frames, text);
    FlatFrames(skipBody, bodies != [] && http11, bodies);
    FlatAppend(frames, [text]);
    FlatOne(text);
    hide Flat; hide Frames;
    assert s.wire + s.queue == s.queue;
    assert s.queue + (Flat(frames) + text) == (s.queue + Flat(frames)) + text;
    assert Ideal(s, frames + [text]) == Response(skipHdrs, skipBody, http11, head, bodies, last);
    if Clean(s, frames + [text], false) {
      CleanStays(s, frames + [text], false, Ideal(s, frames + [text]));
    }
    if text != "" && Returned(|AfterAll(s, frames).queue|, Drives(AfterAll(s, frames), text)) == |text| {
      SuccessIsUncut(s, frames, text);
    }
  }

  /** What a flush would write first, the driver's answers, and what it has taken. */
  ghost predicate Meets(conn: Conn, head: string, z: Line)
    reads conn
  {
    && !conn.closed && z.wire == conn.wire && z.answers == conn.Answers()
    && z.queue == Queued(conn.obuf, head, !conn.sentHdrs && !conn.skipHdrs)
  }

  method StreamOn(conn: Conn, head: string, body: string, ghost z: Line)
    requires Meets(conn, head, z) && (conn.chunk <==> conn.sentHdrs && conn.http11)
    modifies conn
    ensures conn.sentHdrs && (conn.chunk <==> conn.http11)
    ensures Meets(conn, head, After(z, Frame(conn.skipBody, conn.http11, body, true)))
  {
    hide Drive; hide After; hide Frame; hide conn.Answers; hide Returned; hide Queued;
    AfterIs(z, Frame(conn.skipBody, conn.http11, body, true));
    QueuedStarts(head);
    var _ := conn.FlushDirect(head, body, true);
  }

  /** All flushes of a response, whether those before have succeeded or not. */
  method RespondOn(conn: Conn, head: string, bodies: seq<string>, last: string) returns (ok: bool)
    requires !conn.sentHdrs && !conn.chunk && !conn.closed && conn.obuf == "" && conn.wire == ""
    modifies conn
    ensures var chunk := bodies != [] && conn.http11;
            var s := Line("", if conn.skipHdrs then "" else head, old(conn.answers));
            var z := AfterAll(s, FramesOf(conn.skipBody, chunk, bodies));
            var text := Frame(conn.skipBody, chunk, last, false);
            && conn.wire == After(z, text).wire && conn.obuf == After(z, text).queue
            && ok == (Returned(|z.queue|, Drives(z, text)) == |text|) && conn.closed == ok
  {
    ghost var chunk := bodies != [] && conn.http11;
    ghost var s := Line("", if conn.skipHdrs then "" else head, conn.answers);
    hide *;
    NoFrames(s, conn.skipBody, chunk);
    MeetsFirst(conn, head);
    assert bodies[..0] == [];
    var i: nat := 0;
    ghost var z := s;
    while i < |bodies|
      invariant i <= |bodies| && (conn.sentHdrs <==> i > 0) && (conn.chunk <==> i > 0 && conn.http11)
      invariant z == AfterAll(s, FramesOf(conn.skipBody, chunk, bodies[..i])) && Meets(conn, head, z)
    {
      OneMoreFrame(s, conn.skipBody, chunk, bodies, i);
      StreamOn(conn, head, bodies[i], z);
      z := After(z, Frame(conn.skipBody, chunk, bodies[i], true));
      i := i + 1;
    }
    assert bodies[..i] == bodies;
    ok := EndOn(conn, head, last, z, chunk);
  }

  lemma MeetsFirst(conn: Conn, head: string)
    requires !conn.sentHdrs && !conn.closed && conn.obuf == "" && conn.wire == ""
    ensures Meets(conn, head, Line("", if conn.skipHdrs then "" else head, conn.answers))
  {
    QueuedStarts(head);
  }

  method EndOn(conn: Conn, head: string, last: string, ghost z: Line, ghost chunk: bool) returns (ok: bool)
    requires Meets(conn, head, z) && conn.chunk == chunk
    modifies conn
    ensures var text := Frame(conn.skipBody, chunk, last, false);
            && conn.wire == After(z, text).wire && conn.obuf == After(z, text).queue
            && ok == (Returned(|z.queue|, Drives(z, text)) == |text|) && conn.closed == ok
  {
    hide Drive; hide After; hide Frame; hide conn.Answers; hide Returned; hide Queued; hide Drives;
    AfterIs(z, Frame(conn.skipBody, chunk, last, false));
    DrivesIs(z, Frame(conn.skipBody, chunk, last, false));
    ok := conn.FlushDirect(head, last, false);
  }

  lemma DrivesIs(s: Line, text: string)
    ensures Drives(s, text) == Drive(|s.queue + text|, s.answers)
  {
    assert |s.queue + text| == |s.queue| + |text|;
  }

  lemma QueuedStarts(head: string)
    ensures forall q, add :: Queued(q, head, add) == if add then q + head else q
    ensures "" + head == head
  {
  }

  /** A streaming flush of "ab" fails after the headers, and the final flush succeeds: the client
      gets a complete chunked body, of nothing. */
  method LostChunk() returns (conn: Conn, ok: bool)
    ensures ok && conn.closed && conn.wire == "H" + LAST
    ensures Decode(LAST) == Some("") && !(conn.wire <= Response(false, false, true, "H", ["ab"], ""))
  {
    conn := new Conn(false, false, true, [1, -1, 100]);
    FirstFails(Frame(false, true, "ab", true));
    LastSucceeds();
    LostStart();
    DecodeLast();
    hide Drive; hide Frame; hide Queued; hide Response; hide Decode; hide Returned; hide Min;
    ok := conn.FlushDirect("H", "ab", true);
    assert conn.wire == "H" && conn.obuf == "" && conn.Answers() == [100];
    ok := conn.FlushDirect("H", "", false);
  }

  /** One byte is taken, and it is that of the headers. */
  lemma FirstFails(text: string)
    ensures var queue := Queued("", "H", true);
            var d := Drive(|queue + text|, [1, -1, 100]);
            text != "" ==>
              "" + (queue + text)[..d.count] == "H" && queue[Min(d.count, |queue|)..] == "" && d.rest == [100]
                           && Returned(|queue|, d) != |text|
    ensures Frame(false, true, "ab", true) != ""
  {
    hide Chunk; hide Hex;
    FrameIsSome();
    if text != "" {
      assert Drive(|"H" + text|, [1, -1, 100]) == Sent(1, true, [100]);
    }
  }

  lemma FrameIsSome()
    ensures Frame(false, true, "ab", true) != ""
  {
    hide Hex;
  }

  lemma LastSucceeds()
    ensures var queue, text := Queued("", "H", false), Frame(false, true, "", false);
            var d := Drive(|queue + text|, [100]);
            && "H" + (queue + text)[..d.count] == "H" + LAST && Returned(|queue|, d) == |text|
  {
    hide Hex;
    assert Frame(false, true, "", false) == LAST && "" + LAST == LAST && |LAST| == 5;
    assert Drive(5, [100]) == Sent(5, false, []);
  }

  lemma LostStart()
    ensures !("H" + LAST <= Response(false, false, true, "H", ["ab"], ""))
  {
    var r, f := Response(false, false, true, "H", ["ab"], ""), Frame(false, true, "ab", true);
    assert Hex(2) == "2" && f[0] == '2';
    assert ["ab"][..0] == [] && Frames(false, true, ["ab"]) == "" + f;
    hide Hex; hide Chunk;
    assert r[1] == '2' && ("H" + LAST)[1] == '0';
  }
}
