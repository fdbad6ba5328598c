/** What becomes of each Sock that the driver thread takes up, in every reachable state: the
    conditions under which it is closed, waits, is read, is admitted or is refused. */
module DriverVerdicts {
  import opened Common
  import opened Driver
  import opened DriverLaws
  import opened DriverSteps
  import opened DriverAdmission
  import opened DriverTheorems
  import DriverCrash
  import DriverLists
  import DriverTurns

  /** The driver thread of driver `i` is in that pass and can go on. */
  ghost predicate Goes(v: World, i: nat, pc: Pc, c: Choice) {
    i < |v.drivers| && v.drivers[i].pc == pc && !v.drivers[i].crashed && Known(c.read, v.limits)
  }

  /** What it does next. */
  ghost function After(v: World, i: nat, c: Choice): (r: World)
    requires i < |v.drivers|
    ensures |r.drivers| == |v.drivers|
  {
    WorldStep(v, i, DriverThread(c))
  }

  /** Only that Sock changes, and it comes to be on that list or in that place. */
  ghost predicate Moves(d: Driver, d': Driver, s: nat, state: SockState, p: Place) {
    && Only(d.socks, d'.socks, s) && s < |d.socks| && d'.socks[s].state == state && d'.socks[s].place == p
  }

  lemma AfterIs(w: World, actions: seq<(nat, Action)>, i: nat, pc: Pc, c: Choice)
    requires Fresh(w) && Goes(Reached(w, actions), i, pc, c)
    ensures var v := Reached(w, actions);
            var d := v.drivers[i];
            && Inv(d, |v.limits|) && !d.fatal
            && After(v, i, c).drivers[i] == ThreadStep(d, v.limits, c).0
            && After(v, i, c).limits == ThreadStep(d, v.limits, c).1
  {
    hide ThreadStep; hide Inv; hide Fresh;
    RunKeepsInv(w, actions);
    DriverTurns.InvSound(Reached(w, actions).drivers[i], |Reached(w, actions).limits|);
  }

  // ----- admission -----

  /** Nobody but the Sock at the head is admitted, refused or made to wait. */
  ghost predicate OnlyLimits(lims: seq<Limits>, lims': seq<Limits>, l: nat, nrunning: int, nwaiting: int)
    requires l < |lims|
  {
    lims' == lims[l := lims[l].(nrunning := nrunning, nwaiting := nwaiting)]
  }

  lemma Judged(lims: seq<Limits>, l: nat, waits: bool, c: Choice)
    requires l < |lims|
    ensures var L := lims[l];
            var drop, w := waits && c.input, L.nwaiting - if waits then 1 else 0;
            var r := Judge(lims, l, waits, c);
            && (r.0 == Dropped <==> drop)
            && (r.0 == Running <==> !drop && L.nrunning < L.maxrun)
            && (r.0 == Timeout <==> !drop && L.nrunning >= L.maxrun && c.expired)
            && (r.0 == RunWait <==> !drop && L.nrunning >= L.maxrun && !c.expired && w < L.maxwait)
            && (r.0 == Overflow <==> !drop && L.nrunning >= L.maxrun && !c.expired && w >= L.maxwait)
            && OnlyLimits(lims, r.1, l, L.nrunning + (if r.0 == Running then 1 else 0),
                          w + if r.0 == RunWait then 1 else 0)
  {
    assert lims[l := lims[l]] == lims;
  }

  lemma Acted(e: Driver, s: nat, l: nat, state: SockState)
    requires s < |e.socks| && state in {RunWait, Dropped, Running, Timeout, Overflow}
    ensures var f := Act(e, s, l, state);
            && (state == Dropped ==> Moves(e, f, s, Closed, Free) && !f.socks[s].open)
            && (state == RunWait ==>
                  Moves(e, f, s, RunWait, Wait) && At(f, Wait) == [s] + At(e, Wait)
                  && f.socks[s].conn == e.socks[s].conn)
            && (state in {Running, Timeout, Overflow} ==>
                  Moves(e, f, s, state, Held)
                  && f.conns == e.conns + [Conn(Some(s), if state == Running then Some(l) else None, InUse)])
            && (state in {RunWait, Dropped} ==> f.conns == e.conns)
            && f.fifo == (if state == RunWait then e.fifo + [s] else e.fifo) && f.pass == e.pass
  {
    hide Push; hide Set; hide SockClose; hide Unlist; hide At;
    if state == RunWait {
      SetShape(e, s, RunWait, e.socks[s].conn);
      PushShape(Set(e, s, RunWait, e.socks[s].conn), Wait, s);
      AtPushed(Set(e, s, RunWait, e.socks[s].conn), Wait, s, Wait);
      AtSet(e, s, RunWait, e.socks[s].conn, Wait);
      DriverTurns.PartsPass(e, Wait, s, RunWait, e.socks[s].conn);
      DriverTurns.PartsPass(Set(e, s, RunWait, e.socks[s].conn), Wait, s, RunWait, None);
      SameAt(Push(Set(e, s, RunWait, e.socks[s].conn), Wait, s), Act(e, s, l, RunWait));
    } else if state == Dropped {
      SetShape(e, s, Dropped, e.socks[s].conn);
      ClosedShape(Set(e, s, Dropped, e.socks[s].conn), s);
      DriverTurns.PartsPass(e, Wait, s, Dropped, e.socks[s].conn);
      DriverTurns.PartsPass(Set(e, s, Dropped, e.socks[s].conn), Wait, s, Dropped, None);
    } else {
      SetShape(e, s, state, None);
      UnlistedShape(Set(e, s, state, None), s, Held);
      DriverTurns.PartsPass(e, Wait, s, state, None);
      DriverTurns.PartsPass(Set(e, s, state, None), Held, s, state, None);
    }
  }

  lemma SameAt(d: Driver, e: Driver)
    requires e == d.(fifo := e.fifo)
    ensures At(e, Wait) == At(d, Wait)
  {
  }

  /** One that waited and whose client has sent more or gone is dropped; else it runs if there is
      room; else it has timed out if its time is over; else it waits, again or for the first time,
      if there is a place; else it is refused. */
  ghost predicate Verdict(d: Driver, lims: seq<Limits>, d': Driver, lims': seq<Limits>, s: nat, c: Choice) {
    && s < |d.socks| == |d'.socks| && HasLimits(d.socks[s], |lims|)
    && var l, state := d.socks[s].conn.value.value, d'.socks[s].state;
       var L, waits := lims[l], d.socks[s].state == RunWait;
       var drop, waiting := waits && c.input, L.nwaiting - if waits then 1 else 0;
       && (state == Closed <==> drop)
       && (state == Running <==> !drop && L.nrunning < L.maxrun)
       && (state == Timeout <==> !drop && L.nrunning >= L.maxrun && c.expired)
       && (state == RunWait <==> !drop && L.nrunning >= L.maxrun && !c.expired && waiting < L.maxwait)
       && (state == Overflow <==> !drop && L.nrunning >= L.maxrun && !c.expired && waiting >= L.maxwait)
       && OnlyLimits(lims, lims', l, L.nrunning + (if state == Running then 1 else 0),
                     waiting + if state == RunWait then 1 else 0)
       && Executed(d, d', s, l, state)
  }

  /** The Sock is closed, back on the wait list and in the FIFO, or given away with its Conn. */
  ghost predicate Executed(d: Driver, d': Driver, s: nat, l: nat, state: SockState) {
    && s < |d.socks|
    && (state == Closed ==> Moves(d, d', s, Closed, Free) && d'.conns == d.conns)
    && (state == RunWait ==>
          Moves(d, d', s, RunWait, Wait) && At(d', Wait) == [s] + At(d, Wait) && d'.conns == d.conns
          && d'.socks[s].conn == d.socks[s].conn)
    && (state in {Running, Timeout, Overflow} ==>
          Moves(d, d', s, state, Held)
          && d'.conns == d.conns + [Conn(Some(s), if state == Running then Some(l) else None, InUse)])
    && d'.fifo == (if state == RunWait then d.fifo + [s] else d.fifo)
  }

  /** The verdict on the first Conn of the FIFO. */
  lemma AdmissionVerdicts(w: World, actions: seq<(nat, Action)>, i: nat, c: Choice)
    requires Fresh(w) && Goes(Reached(w, actions), i, RunPass, c) && Reached(w, actions).drivers[i].pass != []
    ensures var v := Reached(w, actions);
            var v' := After(v, i, c);
            var d, d' := v.drivers[i], v'.drivers[i];
            Verdict(d, v.limits, d', v'.limits, d.pass[0], c) && d'.pass == d.pass[1..]
  {
    hide ThreadStep; hide Inv; hide Fresh; hide Reached; hide After; hide Judge; hide Act; hide AdmitOne; hide At;
    hide OnlyLimits;
    AfterIs(w, actions, i, RunPass, c);
    var v := Reached(w, actions);
    var d := v.drivers[i];
    RunPassIs(d, v.limits, c);
    DriverLists.AdmitIs(d, v.limits, c);
    var s := d.pass[0];
    var l, waits := d.socks[s].conn.value.value, d.socks[s].state == RunWait;
    Judged(v.limits, l, waits, c);
    Acted(d.(pass := d.pass[1..]), s, l, Judge(v.limits, l, waits, c).0);
    PassAt(d);
  }

  lemma RunPassIs(d: Driver, lims: seq<Limits>, c: Choice)
    requires d.pc == RunPass && !d.fatal && !d.crashed && Known(c.read, lims)
    ensures ThreadStep(d, lims, c) == AdmitOne(d, lims, c)
  {
    hide AdmitOne;
  }

  lemma PassAt(d: Driver)
    requires d.pass != []
    ensures At(d.(pass := d.pass[1..]), Wait) == At(d, Wait)
  {
  }

  // ----- ready Socks -----

  /** A closing Sock is closed when its client has gone or its time is over, one waiting for a
      request when it has sent nothing in time, and both when the driver stops. */
  ghost predicate IsOver(k: Sock, stop: bool, c: Choice) {
    || (k.state == CloseWait && ((c.input && c.eof) || c.expired || stop))
    || (k.state == ReadWait && !c.input && (c.expired || stop))
  }

  /** There is a request to read. */
  ghost predicate IsRead(k: Sock, c: Choice) {
    k.state == ReadWait && c.input
  }

  ghost predicate Polled(d: Driver, d': Driver, s: nat, c: Choice) {
    && s < |d.socks| == |d'.socks| && !d'.crashed
    && var k, p := d.socks[s], d'.socks[s].place;
       && (p == Free <==> IsOver(k, d.stop, c))
       && (p == Parked <==> k.state == RunWait)
       && (p == ReadLocal <==> IsRead(k, c) && !d.async)
       && (p == PreQueue <==> IsRead(k, c) && d.async && !c.read.More?)
       && (p == Wait <==> !IsOver(k, d.stop, c) && k.state != RunWait && (!IsRead(k, c) || (d.async && c.read.More?)))
       && (p in {Parked, ReadLocal, Wait} ==> Moves(d, d', s, k.state, p) && d'.socks[s].conn == k.conn)
       && (p == Free ==> Moves(d, d', s, Closed, Free))
       && (p == PreQueue ==>
             Moves(d, d', s, if c.read.Done? then PreQue else Error, PreQueue)
             && (c.read.Done? ==> d'.socks[s].conn == Some(Some(c.read.limits))))
  }

  /** What becomes of the next Sock of the old wait list, unless the driver thread follows its
      NULL connPtr. */
  lemma ReadyVerdicts(w: World, actions: seq<(nat, Action)>, i: nat, c: Choice)
    requires Fresh(w) && Goes(Reached(w, actions), i, ReadyPass, c)
    requires At(Reached(w, actions).drivers[i], Ready) != [] && !After(Reached(w, actions), i, c).drivers[i].crashed
    ensures var v := Reached(w, actions);
            Polled(v.drivers[i], After(v, i, c).drivers[i], At(v.drivers[i], Ready)[0], c)
  {
    hide ThreadStep; hide Inv; hide Fresh; hide Reached; hide After; hide At; hide ReadyOne; hide Polled;
    hide DriverLists.Bare;
    AfterIs(w, actions, i, ReadyPass, c);
    var v := Reached(w, actions);
    var d := v.drivers[i];
    DriverCrash.ReadyStepIs(d, v.limits, c);
    ReadyHeadIs(d, |v.limits|);
    DriverCrash.ReadyCrashes(d, c);
    PollsSo(d, c);
  }

  lemma ReadyHeadIs(d: Driver, nlims: nat)
    requires Inv(d, nlims) && At(d, Ready) != []
    ensures var s := At(d, Ready)[0];
            s < |d.socks| && d.socks[s].place == Ready && d.socks[s].state in {ReadWait, CloseWait, RunWait}
  {
    HeadFacts(d, Ready, nlims);
    hide Inv; hide At; hide ListsOk;
  }

  lemma PollsSo(d: Driver, c: Choice)
    requires At(d, Ready) != [] && At(d, Ready)[0] < |d.socks| && !d.crashed
    requires d.socks[At(d, Ready)[0]].state in {ReadWait, CloseWait, RunWait}
    requires !DriverLists.Bare(d.socks[At(d, Ready)[0]], c)
    ensures Polled(d, ReadyOne(d, c), At(d, Ready)[0], c)
  {
    hide *;
    var s := At(d, Ready)[0];
    if d.socks[s].state == ReadWait {
      WaitingSo(d, s, c);
    } else {
      OthersSo(d, s, c);
    }
  }

  lemma WaitingSo(d: Driver, s: nat, c: Choice)
    requires At(d, Ready) != [] && At(d, Ready)[0] == s < |d.socks| && !d.crashed
    requires d.socks[s].state == ReadWait && !DriverLists.Bare(d.socks[s], c)
    ensures Polled(d, ReadyOne(d, c), s, c)
  {
    hide At; hide Push; hide Set; hide Take; hide SockClose; hide Unlist; hide AfterRead; hide Only;
    CloseShape(d, Ready, s);
    PutShape(d, Ready, s, Closed, None, Wait);
    PutShape(d, Ready, s, Closed, None, ReadLocal);
    TakeShape(d, Ready);
    ReadsSo(d, s, c.read);
    OnlySize(d.socks, ReadyOne(d, c).socks, s);
  }

  lemma OthersSo(d: Driver, s: nat, c: Choice)
    requires At(d, Ready) != [] && At(d, Ready)[0] == s < |d.socks| && !d.crashed
    requires d.socks[s].state in {CloseWait, RunWait}
    ensures Polled(d, ReadyOne(d, c), s, c)
  {
    hide At; hide Push; hide Set; hide Take; hide SockClose; hide Unlist; hide AfterRead; hide Only;
    CloseShape(d, Ready, s);
    UnlistShape(d, Ready, s, Parked);
    PutShape(d, Ready, s, Closed, None, Wait);
    TakeShape(d, Ready);
    OnlySize(d.socks, ReadyOne(d, c).socks, s);
  }

  lemma OnlySize(socks: seq<Sock>, socks': seq<Sock>, s: nat)
    ensures Only(socks, socks', s) ==> |socks'| == |socks|
  {
  }

  lemma ReadsSo(d: Driver, s: nat, result: ReadResult)
    requires s < |d.socks|
    ensures result.More? ==> AfterRead(Take(d, Ready), s, result) == Take(d, Ready)
    ensures !result.More? ==>
              var f := Push(AfterRead(Take(d, Ready), s, result), PreQueue, s);
              Moves(d, f, s, if result.Done? then PreQue else Error, PreQueue)
              && (result.Done? ==> f.socks[s].conn == Some(Some(result.limits)))
  {
    hide Push; hide Set; hide Take; hide Only;
    TakeShape(d, Ready);
    match result {
      case More =>
      case Done(l) => PutShape(d, Ready, s, PreQue, Some(Some(l)), PreQueue);
      case Bad => PutShape(d, Ready, s, Error, d.socks[s].conn, PreQueue);
    }
  }

  // ----- Socks returned for keep-alive or close -----

  ghost predicate Returned(d: Driver, d': Driver, s: nat, c: Choice) {
    && s < |d.socks| == |d'.socks|
    && var k, k', keep := d.socks[s], d'.socks[s], !d.stop && d.socks[s].state == ReadWait;
       && (k'.place == Free <==> !keep && !c.graceful)
       && (k'.place == Wait <==> keep || c.graceful)
       && (k'.place == Free ==> Moves(d, d', s, Closed, Free))
       && (k'.place == Wait ==> Moves(d, d', s, k.state, Wait) && k'.conn == if keep then Some(None) else k.conn)
  }

  /** One that is kept alive waits for its next request with a new Conn, unless the driver stops;
      any other is shut down and waits for its client to go, or is closed at once if that fails. */
  lemma CloseVerdicts(w: World, actions: seq<(nat, Action)>, i: nat, c: Choice)
    requires Fresh(w) && Goes(Reached(w, actions), i, ClosePass, c)
    requires At(Reached(w, actions).drivers[i], Closing) != []
    ensures var v := Reached(w, actions);
            Returned(v.drivers[i], After(v, i, c).drivers[i], At(v.drivers[i], Closing)[0], c)
  {
    hide ThreadStep; hide Inv; hide Fresh; hide Reached; hide After; hide At; hide CloseOne; hide Returned;
    AfterIs(w, actions, i, ClosePass, c);
    var v := Reached(w, actions);
    DriverCrash.CloseStepIs(v.drivers[i], v.limits, c);
    DriverCrash.ClosingHead(v.drivers[i], |v.limits|);
    ReturnsSo(v.drivers[i], c);
  }

  lemma ReturnsSo(d: Driver, c: Choice)
    requires At(d, Closing) != [] && At(d, Closing)[0] < |d.socks|
    ensures Returned(d, CloseOne(d, c), At(d, Closing)[0], c)
  {
    hide At; hide Push; hide Set; hide Take; hide SockClose;
    var s := At(d, Closing)[0];
    CloseShape(d, Closing, s);
    PutShape(d, Closing, s, ReadWait, Some(None), Wait);
  }

  // ----- Socks back from reading, and queued -----

  /** One whose request could not be read is closed, and any other queued: its place is Parked,
      behind all that came before. */
  lemma QueueVerdicts(w: World, actions: seq<(nat, Action)>, i: nat, c: Choice)
    requires Fresh(w)
    ensures Goes(Reached(w, actions), i, PreqPass, c) && At(Reached(w, actions).drivers[i], PreQueue) != [] ==>
              var v := Reached(w, actions);
              var d, d', s := v.drivers[i], After(v, i, c).drivers[i], At(v.drivers[i], PreQueue)[0];
              && s < |d.socks|
              && if d.socks[s].state == PreQue then Moves(d, d', s, PreQue, QueueNow)
                 else d.socks[s].state == Error && Moves(d, d', s, Closed, Free)
    ensures Goes(Reached(w, actions), i, QuePass, c) && At(Reached(w, actions).drivers[i], QueueNow) != [] ==>
              var v := Reached(w, actions);
              var d, d', s := v.drivers[i], After(v, i, c).drivers[i], At(v.drivers[i], QueueNow)[0];
              && s < |d.socks| && d.socks[s].state == PreQue
              && Moves(d, d', s, PreQue, Parked) && d'.fifo == d.fifo + [s] && d'.socks[s].conn == d.socks[s].conn
  {
    hide ThreadStep; hide Inv; hide Fresh; hide Reached; hide After; hide At; hide PreqOne; hide QueOne; hide Moves;
    var v := Reached(w, actions);
    if Goes(v, i, PreqPass, c) && At(v.drivers[i], PreQueue) != [] {
      AfterIs(w, actions, i, PreqPass, c);
      PreqStepIs(v.drivers[i], v.limits, c);
      PreqSo(v.drivers[i], |v.limits|);
    }
    if Goes(v, i, QuePass, c) && At(v.drivers[i], QueueNow) != [] {
      AfterIs(w, actions, i, QuePass, c);
      QueStepIs(v.drivers[i], v.limits, c);
      QueSo(v.drivers[i], |v.limits|);
    }
  }

  lemma PreqStepIs(d: Driver, lims: seq<Limits>, c: Choice)
    requires d.pc == PreqPass && !d.fatal && !d.crashed && Known(c.read, lims)
    ensures ThreadStep(d, lims, c) == (PreqOne(d), lims)
  {
    hide PreqOne;
  }

  lemma QueStepIs(d: Driver, lims: seq<Limits>, c: Choice)
    requires d.pc == QuePass && !d.fatal && !d.crashed && Known(c.read, lims)
    ensures ThreadStep(d, lims, c) == (QueOne(d), lims)
  {
    hide QueOne;
  }

  lemma PreqSo(d: Driver, nlims: nat)
    requires Inv(d, nlims) && At(d, PreQueue) != []
    ensures var s, d' := At(d, PreQueue)[0], PreqOne(d);
            && s < |d.socks|
            && if d.socks[s].state == PreQue then Moves(d, d', s, PreQue, QueueNow)
               else d.socks[s].state == Error && Moves(d, d', s, Closed, Free)
  {
    hide Inv; hide ListsOk; hide At; hide Push; hide Set; hide Take; hide SockClose;
    HeadFacts(d, PreQueue, nlims);
    var s := At(d, PreQueue)[0];
    CloseShape(d, PreQueue, s);
    PutShape(d, PreQueue, s, Closed, None, QueueNow);
  }

  lemma QueSo(d: Driver, nlims: nat)
    requires Inv(d, nlims) && At(d, QueueNow) != []
    ensures var s, d' := At(d, QueueNow)[0], QueOne(d);
            && s < |d.socks| && d.socks[s].state == PreQue
            && Moves(d, d', s, PreQue, Parked) && d'.fifo == d.fifo + [s] && d'.socks[s].conn == d.socks[s].conn
  {
    hide Inv; hide ListsOk; hide At; hide Take; hide SockClose;
    HeadFacts(d, QueueNow, nlims);
    TakeShape(d, QueueNow);
  }

  // ----- new and finished connections -----

  /** A connection is accepted if and only if there is one, a Sock is free and the driver is not
      stopping; that Sock then waits for a request, with a Conn. */
  lemma AcceptVerdicts(w: World, actions: seq<(nat, Action)>, i: nat, c: Choice)
    requires Fresh(w) && Goes(Reached(w, actions), i, AcceptStep, c)
    ensures var v := Reached(w, actions);
            var d, d' := v.drivers[i], After(v, i, c).drivers[i];
            if c.accept && At(d, Free) != [] && !d.stop then
              && Moves(d, d', At(d, Free)[0], ReadWait, Wait) && d'.socks[At(d, Free)[0]].conn == Some(None)
              && d'.nactive == d.nactive + 1
            else d'.socks == d.socks && d'.nactive == d.nactive
  {
    hide ThreadStep; hide Inv; hide Fresh; hide Reached; hide After; hide At; hide Accept; hide Moves;
    AfterIs(w, actions, i, AcceptStep, c);
    var v := Reached(w, actions);
    AcceptStepIs(v.drivers[i], v.limits, c);
    AcceptSo(v.drivers[i], c, |v.limits|);
  }

  lemma AcceptStepIs(d: Driver, lims: seq<Limits>, c: Choice)
    requires d.pc == AcceptStep && !d.fatal && !d.crashed && Known(c.read, lims)
    ensures ThreadStep(d, lims, c) == (Accept(d, c), lims)
  {
    hide Accept;
  }

  lemma AcceptSo(d: Driver, c: Choice, nlims: nat)
    requires Inv(d, nlims)
    ensures var d' := Accept(d, c);
            if c.accept && At(d, Free) != [] && !d.stop then
              && Moves(d, d', At(d, Free)[0], ReadWait, Wait) && d'.socks[At(d, Free)[0]].conn == Some(None)
              && d'.nactive == d.nactive + 1
            else d'.socks == d.socks && d'.nactive == d.nactive
  {
    hide Inv; hide At; hide Accept; hide Accepted; hide Push; hide Set; hide Take;
    DriverLists.AcceptIs(d, c);
    if At(d, Free) != [] {
      FreeHead(d, nlims);
      var s, top := At(d, Free)[0], d.(pc := Top);
      DriverLists.AcceptedIs(top);
      PutShape(top, Free, s, ReadWait, Some(None), Wait);
      AcceptCounts(top, s);
    }
  }

  lemma AcceptCounts(d: Driver, s: nat)
    requires s < |d.socks|
    ensures Push(Set(Take(d, Free), s, ReadWait, Some(None)), Wait, s).nactive == d.nactive
  {
    hide At;
  }

  // ----- whole lists -----

  /** The top of the loop: it ends once the driver stops and no Sock is active; else the flag is
      read, the lists the other threads have left are taken over, and the Conns they have returned
      are to be freed. */
  lemma TopVerdicts(w: World, actions: seq<(nat, Action)>, i: nat, c: Choice)
    requires Fresh(w) && Goes(Reached(w, actions), i, Top, c)
    ensures var v := Reached(w, actions);
            var d, d' := v.drivers[i], After(v, i, c).drivers[i];
            if d.stop && d.nactive == 0 then d' == d
            else
              && d'.stop == d.shutdown && d'.pc == FreePass
              && Carried(d.socks, d'.socks, map[CloseQueue := Closing, RunQueue := PreQueue])
              && |d'.conns| == |d.conns|
              && forall j :: 0 <= j < |d.conns| ==>
                   d'.conns[j] == if d.conns[j].returned == OnFreeList then d.conns[j].(returned := Freeing)
                                  else d.conns[j]
  {
    hide ThreadStep; hide Inv; hide Fresh; hide Reached; hide After; hide Collect; hide Carried;
    AfterIs(w, actions, i, Top, c);
    var v := Reached(w, actions);
    TopStepIs(v.drivers[i], v.limits, c);
    CollectKeeps(v.drivers[i], |v.limits|);
  }

  lemma TopStepIs(d: Driver, lims: seq<Limits>, c: Choice)
    requires d.pc == Top && !d.fatal && !d.crashed && Known(c.read, lims)
    ensures ThreadStep(d, lims, c) == (if d.stop && d.nactive == 0 then d else Collect(d), lims)
  {
    hide Collect;
  }

  /** The Socks that need a reader thread are put in the readers' queue. */
  lemma HandOverVerdicts(w: World, actions: seq<(nat, Action)>, i: nat, c: Choice)
    requires Fresh(w) && Goes(Reached(w, actions), i, HandOver, c)
    ensures var v := Reached(w, actions);
            var d, d' := v.drivers[i], After(v, i, c).drivers[i];
            d'.pc == ClosePass && Carried(d.socks, d'.socks, map[ReadLocal := ReadQueue])
  {
    hide ThreadStep; hide Inv; hide Fresh; hide Reached; hide After; hide Splice; hide Carried;
    AfterIs(w, actions, i, HandOver, c);
    var v := Reached(w, actions);
    HandOverStepIs(v.drivers[i], v.limits, c);
    HandOverKeeps(v.drivers[i], |v.limits|);
  }

  lemma HandOverStepIs(d: Driver, lims: seq<Limits>, c: Choice)
    requires d.pc == HandOver && !d.fatal && !d.crashed && Known(c.read, lims)
    ensures ThreadStep(d, lims, c) == (Splice(d, ReadLocal, ReadQueue).(pc := ClosePass), lims)
  {
    hide Splice;
  }

  /** A Conn that was taken over is freed: an admitted one gives back its place, and a Sock it
      still has is to be shut down. When none is left, the wait list is taken to be polled. */
  ghost predicate Freed(d: Driver, lims: seq<Limits>, d': Driver, lims': seq<Limits>, j: nat) {
    && j < |d.conns| && d.conns[j].returned == Freeing && d'.conns == Without(d.conns, j)
    && (match d.conns[j].sock
        case None => d'.socks == d.socks
        case Some(s) => Moves(d, d', s, CloseWait, Closing) && d'.socks[s].conn == d.socks[s].conn)
    && (match d.conns[j].limits
        case None => lims' == lims
        case Some(l) => l < |lims| && OnlyLimits(lims, lims', l, lims[l].nrunning - 1, lims[l].nwaiting))
  }

  lemma FreeVerdicts(w: World, actions: seq<(nat, Action)>, i: nat, c: Choice)
    requires Fresh(w) && Goes(Reached(w, actions), i, FreePass, c)
    ensures var v := Reached(w, actions);
            var d, v' := v.drivers[i], After(v, i, c);
            if forall j :: 0 <= j < |d.conns| ==> d.conns[j].returned != Freeing then
              Carried(d.socks, v'.drivers[i].socks, map[Wait := Ready]) && v'.drivers[i].pc == ReadyPass
            else exists j: nat :: Freed(d, v.limits, v'.drivers[i], v'.limits, j)
  {
    hide ThreadStep; hide Inv; hide Fresh; hide Reached; hide After; hide Carried; hide Freed; hide NextFreeing;
    hide Reclaim; hide Discount; hide Relabel;
    AfterIs(w, actions, i, FreePass, c);
    var v := Reached(w, actions);
    var d := v.drivers[i];
    FreeStepIs(d, v.limits, c);
    var j := NextFreeing(d.conns);
    if j < |d.conns| {
      FreesSo(d, v.limits, j);
      assert Freed(d, v.limits, Reclaim(d, j), Discount(v.limits, d.conns[j]), j);
    } else {
      WaitCarried(d);
    }
  }

  lemma FreeStepIs(d: Driver, lims: seq<Limits>, c: Choice)
    requires d.pc == FreePass && !d.fatal && !d.crashed && Known(c.read, lims)
    ensures var j := NextFreeing(d.conns);
            ThreadStep(d, lims, c)
              == if j == |d.conns| then (Relabel(d, Wait, Ready).(pc := ReadyPass), lims)
                 else (Reclaim(d, j), Discount(lims, d.conns[j]))
  {
    hide NextFreeing; hide Relabel; hide Reclaim; hide Discount;
  }

  lemma WaitCarried(d: Driver)
    ensures Carried(d.socks, Relabel(d, Wait, Ready).socks, map[Wait := Ready])
  {
    hide At;
  }

  lemma FreesSo(d: Driver, lims: seq<Limits>, j: nat)
    requires Inv(d, |lims|) && j < |d.conns| && d.conns[j].returned == Freeing
    ensures Freed(d, lims, Reclaim(d, j), Discount(lims, d.conns[j]), j)
  {
    hide Inv; hide Push; hide Set; hide Reclaim;
    DriverLists.ConnKnows(d, j, |lims|);
    DriverLists.ReclaimIs(d, j);
    var e := d.(conns := d.conns[..j] + d.conns[j + 1..]);
    assert e.conns == Without(d.conns, j);
    if d.conns[j].sock.Some? {
      var s := d.conns[j].sock.value;
      SetShape(e, s, CloseWait, d.socks[s].conn);
      PushShape(Set(e, s, CloseWait, d.socks[s].conn), Closing, s);
    }
  }

  /** A pass over an empty list changes nothing and leads to the next one; the last before
      admission takes the FIFO. */
  lemma PassVerdicts(w: World, actions: seq<(nat, Action)>, i: nat, pc: Pc, c: Choice)
    requires Fresh(w) && Goes(Reached(w, actions), i, pc, c)
    ensures var v := Reached(w, actions);
            var d, d' := v.drivers[i], After(v, i, c).drivers[i];
            && (pc == ReadyPass && At(d, Ready) == [] ==> d' == d.(pc := HandOver))
            && (pc == ClosePass && At(d, Closing) == [] ==> d' == d.(pc := PreqPass))
            && (pc == PreqPass && At(d, PreQueue) == [] ==> d' == d.(pc := QuePass))
            && (pc == QuePass && At(d, QueueNow) == [] ==> d' == d.(pc := RunPass, pass := d.fifo, fifo := []))
            && (pc == RunPass && d.pass == [] ==> d' == d.(pc := AcceptStep))
            && (pc == AcceptStep ==> d'.pc == Top)
  {
    hide ThreadStep; hide Inv; hide Fresh; hide Reached; hide After;
    AfterIs(w, actions, i, pc, c);
    PassesEnd(Reached(w, actions).drivers[i], Reached(w, actions).limits, c);
  }

  lemma PassesEnd(d: Driver, lims: seq<Limits>, c: Choice)
    requires !d.fatal && !d.crashed && Known(c.read, lims)
    ensures var d' := ThreadStep(d, lims, c).0;
            && (d.pc == ReadyPass && At(d, Ready) == [] ==> d' == d.(pc := HandOver))
            && (d.pc == ClosePass && At(d, Closing) == [] ==> d' == d.(pc := PreqPass))
            && (d.pc == PreqPass && At(d, PreQueue) == [] ==> d' == d.(pc := QuePass))
            && (d.pc == QuePass && At(d, QueueNow) == [] ==> d' == d.(pc := RunPass, pass := d.fifo, fifo := []))
            && (d.pc == RunPass && d.pass == [] ==> d' == d.(pc := AcceptStep))
            && (d.pc == AcceptStep ==> d'.pc == Top)
  {
    hide At; hide Collect; hide FreeOne; hide Splice; hide Poll; hide Push; hide Set; hide Take; hide SockClose;
    hide Arrive; hide Act; hide Judge; hide Finished;
    if d.pc == AcceptStep { DriverTurns.AcceptLives(d, c); }
  }

  // ----- the other threads -----

  /** NsSockClose: a running Sock goes back to the driver, to be kept or closed as asked; a
      refused one is only marked. */
  lemma ConnCloseVerdicts(w: World, actions: seq<(nat, Action)>, i: nat, j: nat, keep: bool)
    requires Fresh(w) && i < |Reached(w, actions).drivers|
    requires var d := Reached(w, actions).drivers[i];
             j < |d.conns| && d.conns[j].returned == InUse && d.conns[j].sock.Some?
    ensures var v := Reached(w, actions);
            var d, d' := v.drivers[i], WorldStep(v, i, ConnClose(j, keep)).drivers[i];
            var s := d.conns[j].sock.value;
            && s < |d.socks| && d'.conns == d.conns[j := d.conns[j].(sock := None)]
            && if d.socks[s].state == Running then Moves(d, d', s, if keep then ReadWait else CloseWait, CloseQueue)
               else Moves(d, d', s, CloseReq, Lost)
  {
    hide Inv; hide Fresh; hide Reached; hide Step; hide Moves; hide CloseConn; hide Only;
    RunKeepsInv(w, actions);
    var v := Reached(w, actions);
    var d := v.drivers[i];
    HeldState(d, j, |v.limits|);
    DriverTurns.ConnStepsAre(d, v.limits, j, keep);
    CloseConnSo(d, j, keep);
  }

  lemma CloseConnSo(d: Driver, j: nat, keep: bool)
    requires j < |d.conns| && d.conns[j].sock.Some? && d.conns[j].sock.value < |d.socks|
    ensures var s, d' := d.conns[j].sock.value, CloseConn(d, j, keep);
            && d'.conns == d.conns[j := d.conns[j].(sock := None)]
            && if d.socks[s].state == Running then Moves(d, d', s, if keep then ReadWait else CloseWait, CloseQueue)
               else Moves(d, d', s, CloseReq, Lost)
  {
    hide Push; hide Set; hide Unlist; hide CloseConn;
    DriverLists.CloseConnIs(d, j, keep);
    var s, e := d.conns[j].sock.value, d.(conns := d.conns[j := d.conns[j].(sock := None)]);
    var state := if d.socks[s].state != Running then CloseReq else if keep then ReadWait else CloseWait;
    SetShape(e, s, state, d.socks[s].conn);
    PushShape(Set(e, s, state, d.socks[s].conn), CloseQueue, s);
    UnlistedShape(Set(e, s, state, d.socks[s].conn), s, Lost);
  }

  /** A Sock read by a reader thread comes back with its Limits known, or in error. */
  lemma ReaderVerdicts(w: World, actions: seq<(nat, Action)>, i: nat, j: nat, result: ReadResult)
    requires Fresh(w) && i < |Reached(w, actions).drivers| && j < |At(Reached(w, actions).drivers[i], Reading)|
    requires !result.More? && Known(result, Reached(w, actions).limits)
    ensures var v := Reached(w, actions);
            var d, d' := v.drivers[i], WorldStep(v, i, ReaderReturn(j, result)).drivers[i];
            var s := At(d, Reading)[j];
            && Moves(d, d', s, if result.Done? then PreQue else Error, RunQueue)
            && (result.Done? ==> d'.socks[s].conn == Some(Some(result.limits)))
  {
    hide Inv; hide Fresh; hide Reached; hide Step; hide Moves; hide At; hide AfterRead; hide Push;
    hide DriverLists.Released;
    RunKeepsInv(w, actions);
    var v := Reached(w, actions);
    DriverTurns.ReaderReturnIs(v.drivers[i], v.limits, j, result);
    ReaderSo(v.drivers[i], j, result);
  }

  lemma ReaderSo(d: Driver, j: nat, result: ReadResult)
    requires j < |At(d, Reading)| && At(d, Reading)[j] < |d.socks| && !result.More?
    ensures var s := At(d, Reading)[j];
            var f := Push(AfterRead(DriverLists.Released(d, j), s, result), RunQueue, s);
            && Moves(d, f, s, if result.Done? then PreQue else Error, RunQueue)
            && (result.Done? ==> f.socks[s].conn == Some(Some(result.limits)))
  {
    hide At; hide Push; hide Set;
    var s, e := At(d, Reading)[j], DriverLists.Released(d, j);
    var state := if result.Done? then PreQue else Error;
    var conn := if result.Done? then Some(Some(result.limits)) else d.socks[s].conn;
    SetShape(e, s, state, conn);
    PushShape(Set(e, s, state, conn), RunQueue, s);
  }
}
