/** When the driver thread follows a NULL Conn: exactly which step does, exactly which step
    puts a Sock on the wait list without a Conn, and a run from startup in which both happen. */
module DriverCrash {
  import opened Common
  import opened Driver
  import opened DriverLaws
  import opened DriverSteps
  import opened DriverAdmission
  import opened DriverTheorems
  import DriverLists
  import DriverScene
  import DriverTurns

  // ----- the step that crashes -----

  /** There is input for the next ready Sock, which waits for a request without a Conn. */
  ghost predicate FollowsNull(d: Driver, lims: seq<Limits>, a: Action) {
    && a.DriverThread? && Known(a.c.read, lims) && !d.fatal && d.pc == ReadyPass
    && At(d, Ready) != [] && At(d, Ready)[0] < |d.socks| && DriverLists.Bare(d.socks[At(d, Ready)[0]], a.c)
  }

  lemma ReadOutcome(d: Driver, e: Driver, s: nat, c: Choice)
    requires s < |d.socks| == |e.socks| && d.socks[s].state == ReadWait
    ensures var r, f := ReadOrWait(d, e, s, c), AfterRead(e, s, c.read);
            if DriverLists.Bare(d.socks[s], c) then r == d.(crashed := true)
            else || r == SockClose(e, s) || r == Push(e, Wait, s) || r == Push(e, ReadLocal, s)
                 || r == Push(f, Wait, s) || r == Push(f, PreQueue, s)
  {
    hide At; hide Push; hide Set; hide SockClose; hide AfterRead;
  }

  lemma ReadLives(d: Driver, e: Driver, s: nat, c: Choice)
    requires s < |d.socks| == |e.socks| && !e.crashed && !d.crashed && d.socks[s].state == ReadWait
    ensures ReadOrWait(d, e, s, c).crashed <==> DriverLists.Bare(d.socks[s], c)
  {
    hide *;
    ReadOutcome(d, e, s, c);
  }

  lemma PollOutcome(d: Driver, e: Driver, s: nat, c: Choice)
    requires s < |d.socks| == |e.socks|
    ensures var r := Poll(d, e, s, c);
            if d.socks[s].state == ReadWait then r == ReadOrWait(d, e, s, c)
            else r == SockClose(e, s) || r == Push(e, Wait, s) || r == Unlist(e, s, Parked) || r == d.(fatal := true)
  {
    hide At; hide Push; hide Set; hide SockClose; hide Unlist; hide ReadOrWait;
  }

  lemma BareReads(k: Sock, c: Choice)
    ensures DriverLists.Bare(k, c) ==> k.state == ReadWait
  {
  }

  lemma PollLives(d: Driver, e: Driver, s: nat, c: Choice)
    requires s < |d.socks| == |e.socks| && !e.crashed && !d.crashed
    ensures Poll(d, e, s, c).crashed <==> DriverLists.Bare(d.socks[s], c)
  {
    hide *;
    PollOutcome(d, e, s, c);
    BareReads(d.socks[s], c);
    if d.socks[s].state == ReadWait {
      ReadLives(d, e, s, c);
    } else {
    }
  }

  lemma ReadyCrashes(d: Driver, c: Choice)
    requires !d.crashed && (At(d, Ready) != [] ==> At(d, Ready)[0] < |d.socks|)
    ensures ReadyOne(d, c).crashed <==> At(d, Ready) != [] && DriverLists.Bare(d.socks[At(d, Ready)[0]], c)
  {
    hide At; hide Take; hide Poll;
    if At(d, Ready) != [] {
      TakeShape(d, Ready);
      PollLives(d, Take(d, Ready), At(d, Ready)[0], c);
    }
  }

  /** No other pass ends the process. */
  lemma PassesLive(d: Driver, lims: seq<Limits>, c: Choice)
    requires Inv(d, |lims|) && d.pc != ReadyPass
    ensures ThreadStep(d, lims, c).0.crashed == d.crashed
  {
    hide Collect; hide FreeOne; hide CloseOne; hide PreqOne; hide QueOne; hide AdmitOne; hide Accept; hide Splice;
    hide Finished; hide Inv; hide ReadyOne; hide Known;
    match d.pc
    case Top => CollectLives(d);
    case FreePass => FreeLives(d, lims);
    case RunPass => AdmitLives(d, lims, c);
    case AcceptStep => DriverTurns.AcceptLives(d, c);
    case _ => DriverTurns.Lives(d, c);
  }

  lemma CollectLives(d: Driver)
    ensures Collect(d).crashed == d.crashed
  {
    hide Splice; hide Relabel; hide At; hide TakeReturned;
  }

  lemma FreeLives(d: Driver, lims: seq<Limits>)
    ensures FreeOne(d, lims).0.crashed == d.crashed
  {
    hide Reclaim; hide Relabel; hide Discount; hide At; hide Renamed; hide NextFreeing;
  }

  lemma AdmitLives(d: Driver, lims: seq<Limits>, c: Choice)
    requires Inv(d, |lims|) && d.pc == RunPass
    ensures AdmitOne(d, lims, c).0.crashed == d.crashed
  {
    hide Inv; hide Act; hide Judge;
    if d.pass != [] {
      ParkedHead(d, |lims|);
      var s := d.pass[0];
      var l, was := d.socks[s].conn.value.value, d.socks[s].state == RunWait;
      DriverTurns.ActLives(d.(pass := d.pass[1..]), s, l, Judge(lims, l, was, c).0);
    }
  }

  lemma StepCrashes(d: Driver, lims: seq<Limits>, a: Action)
    requires Inv(d, |lims|) && !d.crashed
    ensures Step(d, lims, a).0.crashed <==> FollowsNull(d, lims, a)
  {
    hide Inv; hide ThreadStep; hide At; hide Step;
    if !a.DriverThread? {
      DriverTurns.OthersApart(d, lims, a);
    } else {
      ThreadStepIs(d, lims, a.c);
      if d.pc == ReadyPass {
        ReadyHead(d, |lims|);
        ReadyStepIs(d, lims, a.c);
        ReadyCrashes(d, a.c);
      } else {
        PassesLive(d, lims, a.c);
      }
    }
  }

  lemma ThreadStepIs(d: Driver, lims: seq<Limits>, c: Choice)
    ensures Step(d, lims, DriverThread(c)) == ThreadStep(d, lims, c)
  {
    hide ThreadStep;
  }

  lemma ReadyHead(d: Driver, nlims: nat)
    requires Inv(d, nlims)
    ensures At(d, Ready) != [] ==> At(d, Ready)[0] < |d.socks|
  {
    hide Inv; hide At; hide ListsOk; hide SockFits;
    if At(d, Ready) != [] {
      HeadFacts(d, Ready, nlims);
    }
  }

  lemma ReadyStepIs(d: Driver, lims: seq<Limits>, c: Choice)
    requires d.pc == ReadyPass && !d.crashed
    ensures ThreadStep(d, lims, c).0 == if d.fatal || !Known(c.read, lims) then d else ReadyOne(d, c)
  {
    hide ReadyOne;
  }

  /** In every run a step makes a driver crash if and only if there is input for the next
      ready Sock and that waits for a request without a Conn. */
  lemma CrashIsNullConn(w: World, actions: seq<(nat, Action)>, i: nat, a: Action)
    requires Fresh(w) && i < |Reached(w, actions).drivers| && !Reached(w, actions).drivers[i].crashed
    ensures var v := Reached(w, actions);
            WorldStep(v, i, a).drivers[i].crashed <==> FollowsNull(v.drivers[i], v.limits, a)
  {
    RunKeepsInv(w, actions);
    var v := Reached(w, actions);
    InvOf(v, i);
    hide Step; hide Inv; hide FollowsNull; hide WorldInv;
    StepCrashes(v.drivers[i], v.limits, a);
  }

  lemma InvOf(v: World, i: nat)
    requires WorldInv(v) && i < |v.drivers|
    ensures Inv(v.drivers[i], |v.limits|)
  {
  }

  // ----- the step that puts a Sock on the wait list without a Conn -----

  ghost predicate IsBare(k: Sock) {
    k.state == ReadWait && k.conn == None && k.place in {Wait, Ready}
  }

  /** No Sock becomes bare. */
  ghost predicate NoneBared(socks: seq<Sock>, socks': seq<Sock>) {
    |socks'| == |socks| && forall s :: 0 <= s < |socks| && IsBare(socks'[s]) ==> IsBare(socks[s])
  }

  lemma OneBares(socks: seq<Sock>, socks': seq<Sock>, s: nat)
    requires Only(socks, socks', s) && s < |socks| && (IsBare(socks'[s]) ==> IsBare(socks[s]))
    ensures NoneBared(socks, socks')
  {
  }

  lemma SameBares(socks: seq<Sock>, socks': seq<Sock>)
    requires SameStates(socks, socks') || socks' == socks
    ensures NoneBared(socks, socks')
  {
  }

  /** The driver is to stop, and puts back a Sock that was kept alive. */
  ghost predicate PutsBackBare(d: Driver, lims: seq<Limits>, a: Action, s: nat) {
    && a.DriverThread? && Known(a.c.read, lims) && !d.fatal && !d.crashed && d.pc == ClosePass && d.stop && a.c.graceful
    && At(d, Closing) != [] && At(d, Closing)[0] == s < |d.socks| && d.socks[s].state == ReadWait
  }

  lemma FreeBares(d: Driver, lims: seq<Limits>)
    requires Inv(d, |lims|)
    ensures NoneBared(d.socks, FreeOne(d, lims).0.socks)
  {
    hide Inv; hide Reclaim; hide Relabel; hide NoneBared; hide NextFreeing; hide Discount;
    var i := NextFreeing(d.conns);
    if i == |d.conns| {
      WaitIsReady(d);
    } else {
      DriverLists.ConnKnows(d, i, |lims|);
      ReclaimBares(d, i);
    }
  }

  lemma ReclaimBares(d: Driver, i: nat)
    requires i < |d.conns| && (d.conns[i].sock.Some? ==> d.conns[i].sock.value < |d.socks|)
    ensures NoneBared(d.socks, Reclaim(d, i).socks)
  {
    hide Reclaim; hide Push; hide Set; hide NoneBared; hide Only;
    DriverLists.ReclaimIs(d, i);
    SameBares(d.socks, d.socks);
    if d.conns[i].sock.Some? {
      var s, e := d.conns[i].sock.value, d.(conns := d.conns[..i] + d.conns[i + 1..]);
      SetShape(e, s, CloseWait, d.socks[s].conn);
      PushShape(Set(e, s, CloseWait, d.socks[s].conn), Closing, s);
      OneBares(d.socks, Push(Set(e, s, CloseWait, d.socks[s].conn), Closing, s).socks, s);
    }
  }

  lemma WaitIsReady(d: Driver)
    ensures NoneBared(d.socks, Relabel(d, Wait, Ready).socks)
  {
    hide At;
  }

  lemma ReadyBares(d: Driver, c: Choice, nlims: nat)
    requires Inv(d, nlims) && d.pc == ReadyPass
    ensures NoneBared(d.socks, ReadyOne(d, c).socks)
  {
    if At(d, Ready) == [] {
      SameBares(d.socks, d.socks);
    } else {
      HeadFacts(d, Ready, nlims);
      var s := At(d, Ready)[0];
      assert d.socks[s].state in {ReadWait, CloseWait, RunWait};
      hide *;
      ReadyCases(d, c, s);
      ReadyMoves(d, c, s);
    }
  }

  /** Each of the things that can happen to a ready Sock. */
  lemma ReadyMoves(d: Driver, c: Choice, s: nat)
    requires s < |d.socks| && d.socks[s].place == Ready
    ensures NoneBared(d.socks, Unlist(Take(d, Ready), s, Parked).socks)
    ensures NoneBared(d.socks, SockClose(Take(d, Ready), s).socks)
    ensures NoneBared(d.socks, Push(Take(d, Ready), Wait, s).socks)
    ensures NoneBared(d.socks, Push(Take(d, Ready), ReadLocal, s).socks)
    ensures NoneBared(d.socks, d.socks) && d.(crashed := true).socks == d.socks
    ensures !c.read.More? ==> NoneBared(d.socks, Push(AfterRead(Take(d, Ready), s, c.read), PreQueue, s).socks)
  {
    hide *;
    SameBares(d.socks, d.socks);
    UnlistBares(d, s);
    CloseMoves(d, s);
    PushBares(d, s, Wait);
    PushBares(d, s, ReadLocal);
    if !c.read.More? {
      AfterReadShape(d, Ready, s, c.read, PreQueue);
      NotWaiting(Push(AfterRead(Take(d, Ready), s, c.read), PreQueue, s).socks[s]);
      OneBares(d.socks, Push(AfterRead(Take(d, Ready), s, c.read), PreQueue, s).socks, s);
    }
  }

  lemma NotWaiting(k: Sock)
    ensures k.place !in {Wait, Ready} ==> !IsBare(k)
  {
  }

  lemma UnlistBares(d: Driver, s: nat)
    requires s < |d.socks|
    ensures NoneBared(d.socks, Unlist(Take(d, Ready), s, Parked).socks)
  {
    hide Take; hide Unlist; hide Only; hide NoneBared;
    UnlistShape(d, Ready, s, Parked);
    OneBares(d.socks, Unlist(Take(d, Ready), s, Parked).socks, s);
  }

  lemma CloseMoves(d: Driver, s: nat)
    requires s < |d.socks|
    ensures NoneBared(d.socks, SockClose(Take(d, Ready), s).socks)
  {
    hide Take; hide SockClose; hide Only; hide NoneBared;
    CloseShape(d, Ready, s);
    OneBares(d.socks, SockClose(Take(d, Ready), s).socks, s);
  }

  lemma PushBares(d: Driver, s: nat, q: Place)
    requires s < |d.socks| && d.socks[s].place == Ready
    ensures NoneBared(d.socks, Push(Take(d, Ready), q, s).socks)
  {
    hide Take; hide Push; hide Only; hide NoneBared; hide Set;
    PutShape(d, Ready, s, Closed, None, q);
    OneBares(d.socks, Push(Take(d, Ready), q, s).socks, s);
  }

  lemma AfterReadShape(d: Driver, p: Place, s: nat, result: ReadResult, q: Place)
    requires s < |d.socks| && !result.More?
    ensures var e := Push(AfterRead(Take(d, p), s, result), q, s);
            Only(d.socks, e.socks, s) && s < |e.socks| && e.socks[s].place == q
  {
    hide Push; hide Set; hide Take;
    TakeShape(d, p);
    if result.Done? {
      PutShape(d, p, s, PreQue, Some(Some(result.limits)), q);
    } else {
      PutShape(d, p, s, Error, d.socks[s].conn, q);
    }
  }

  lemma PreqBares(d: Driver, nlims: nat)
    requires Inv(d, nlims)
    ensures NoneBared(d.socks, PreqOne(d).socks)
  {
    SameBares(d.socks, d.socks);
    if At(d, PreQueue) != [] {
      HeadFacts(d, PreQueue, nlims);
      hide *;
      PreqMoves(d, At(d, PreQueue)[0]);
    } else { hide Inv; hide At; }
  }

  lemma PreqMoves(d: Driver, s: nat)
    requires At(d, PreQueue) != [] && At(d, PreQueue)[0] == s < |d.socks|
    ensures NoneBared(d.socks, PreqOne(d).socks)
  {
    hide At; hide Push; hide Take; hide SockClose; hide Only; hide NoneBared;
    CloseShape(d, PreQueue, s);
    PutShape(d, PreQueue, s, Closed, None, QueueNow);
    OneBares(d.socks, PreqOne(d).socks, s);
  }

  lemma QueBares(d: Driver, nlims: nat)
    requires Inv(d, nlims)
    ensures NoneBared(d.socks, QueOne(d).socks)
  {
    SameBares(d.socks, d.socks);
    if At(d, QueueNow) != [] {
      HeadFacts(d, QueueNow, nlims);
      hide *;
      QueMoves(d, At(d, QueueNow)[0]);
    } else { hide Inv; hide At; }
  }

  lemma QueMoves(d: Driver, s: nat)
    requires At(d, QueueNow) != [] && At(d, QueueNow)[0] == s < |d.socks|
    ensures NoneBared(d.socks, QueOne(d).socks)
  {
    hide At; hide Arrive; hide Take; hide SockClose; hide Only; hide NoneBared;
    CloseShape(d, QueueNow, s);
    ArriveShape(d, s);
    OneBares(d.socks, QueOne(d).socks, s);
  }

  lemma ArriveShape(d: Driver, s: nat)
    requires s < |d.socks|
    ensures var e := Arrive(Take(d, QueueNow), s);
            Only(d.socks, e.socks, s) && s < |e.socks| && e.socks[s].place == Parked
  {
    hide At;
    TakeShape(d, QueueNow);
  }

  lemma AdmitBares(d: Driver, lims: seq<Limits>, c: Choice)
    requires Inv(d, |lims|) && d.pc == RunPass
    ensures NoneBared(d.socks, AdmitOne(d, lims, c).0.socks)
  {
    hide Inv; hide Act; hide Judge; hide Only; hide NoneBared; hide AdmitOne;
    if d.pass == [] {
      SameBares(d.socks, d.socks);
      NoneAdmitted(d, lims, c);
    } else {
      DriverLists.AdmitIs(d, lims, c);
      var s := d.pass[0];
      var l, was := d.socks[s].conn.value.value, d.socks[s].state == RunWait;
      JudgedStates(lims, l, was, c);
      ActShape(d.(pass := d.pass[1..]), s, l, Judge(lims, l, was, c).0);
      OneBares(d.socks, AdmitOne(d, lims, c).0.socks, s);
    }
  }

  lemma NoneAdmitted(d: Driver, lims: seq<Limits>, c: Choice)
    requires d.pass == []
    ensures AdmitOne(d, lims, c).0.socks == d.socks
  {
  }

  lemma AcceptBares(d: Driver, c: Choice, nlims: nat)
    requires Inv(d, nlims) && d.pc == AcceptStep
    ensures NoneBared(d.socks, Accept(d, c).socks)
  {
    SameBares(d.socks, d.socks);
    if !d.stop && c.accept && At(d, Free) != [] {
      BackToTop(d, nlims);
      AtIsLists();
      hide Inv; hide Accept; hide ListsOk; hide At; hide NoneBared;
      AcceptedFacts(d, c, nlims);
      OneBares(d.socks, Accept(d, c).socks, At(d, Free)[0]);
    } else {
      hide Inv; hide ListsOk; hide At;
    }
  }

  lemma OthersBare(d: Driver, lims: seq<Limits>, a: Action)
    requires Inv(d, |lims|) && !a.DriverThread?
    ensures NoneBared(d.socks, Step(d, lims, a).0.socks)
  {
    SameBares(d.socks, d.socks);
    match a
    case ReaderTake =>
      if At(d, ReadQueue) != [] {
        HeadFacts(d, ReadQueue, |lims|);
        hide *;
        TakesOne(d, lims);
      } else { hide Inv; hide At; }
    case ReaderReturn(i, result) =>
      if i < |At(d, Reading)| && !result.More? {
        PickFacts(d, Reading, i, |lims|);
        hide *;
        ReturnsOne(d, lims, i, result);
      } else { hide Inv; hide At; }
    case ConnClose(i, keep) =>
      if i < |d.conns| && d.conns[i].sock.Some? {
        HeldFacts(d, i, |lims|);
        hide *;
        ClosesOne(d, lims, i, keep);
      } else { hide Inv; }
    case _ => hide Inv;
  }

  lemma ClosesOne(d: Driver, lims: seq<Limits>, i: nat, keep: bool)
    requires i < |d.conns| && d.conns[i].sock.Some? && d.conns[i].sock.value < |d.socks|
    ensures NoneBared(d.socks, Step(d, lims, ConnClose(i, keep)).0.socks)
  {
    hide CloseConn; hide Only; hide NoneBared;
    SameBares(d.socks, d.socks);
    CloseConnShape(d, i, keep);
    OneBares(d.socks, CloseConn(d, i, keep).socks, d.conns[i].sock.value);
  }

  lemma TakesOne(d: Driver, lims: seq<Limits>)
    requires At(d, ReadQueue) != [] && At(d, ReadQueue)[0] < |d.socks|
    ensures NoneBared(d.socks, Step(d, lims, ReaderTake).0.socks)
  {
    hide At; hide Take; hide Push; hide Only; hide NoneBared;
    var s := At(d, ReadQueue)[0];
    PutShape(d, ReadQueue, s, Closed, None, Reading);
    OneBares(d.socks, Push(Take(d, ReadQueue), Reading, s).socks, s);
  }

  lemma ReturnsOne(d: Driver, lims: seq<Limits>, i: nat, result: ReadResult)
    requires i < |At(d, Reading)| && At(d, Reading)[i] < |d.socks| && !result.More?
    ensures NoneBared(d.socks, Step(d, lims, ReaderReturn(i, result)).0.socks)
  {
    hide At; hide Push; hide Set; hide Only; hide NoneBared; hide Without; hide Known;
    var s, e := At(d, Reading)[i], d.(lists := d.lists[Reading := Without(At(d, Reading), i)]);
    SameBares(d.socks, d.socks);
    ReturnShape(e, s, result);
    OneBares(d.socks, Push(AfterRead(e, s, result), RunQueue, s).socks, s);
  }

  lemma ReturnShape(e: Driver, s: nat, result: ReadResult)
    requires s < |e.socks| && !result.More?
    ensures var f := Push(AfterRead(e, s, result), RunQueue, s);
            Only(e.socks, f.socks, s) && s < |f.socks| && f.socks[s].place == RunQueue
  {
    hide Push; hide Set;
    var state := if result.Done? then PreQue else Error;
    var conn := if result.Done? then Some(Some(result.limits)) else e.socks[s].conn;
    SetShape(e, s, state, conn);
    PushShape(Set(e, s, state, conn), RunQueue, s);
  }

  /** One Sock returned for keep-alive or close: the only way to become bare. */
  lemma CloseBares(d: Driver, c: Choice, nlims: nat, s: nat)
    requires Inv(d, nlims) && d.pc == ClosePass && s < |d.socks| && !IsBare(d.socks[s])
    ensures var e := CloseOne(d, c);
            |e.socks| == |d.socks|
            && (IsBare(e.socks[s]) <==>
                  At(d, Closing) != [] && At(d, Closing)[0] == s
                  && d.stop && c.graceful && d.socks[s].state == ReadWait)
  {
    hide Inv; hide ListsOk; hide At; hide CloseOne; hide IsBare;
    if At(d, Closing) != [] {
      ClosingHead(d, nlims);
      ClosesHead(d, c, s);
    } else {
      NoneClosed(d, c);
    }
  }

  lemma ClosingHead(d: Driver, nlims: nat)
    requires Inv(d, nlims) && At(d, Closing) != []
    ensures var t := At(d, Closing)[0]; t < |d.socks| && d.socks[t].conn == None && d.socks[t].place == Closing
  {
    HeadFacts(d, Closing, nlims);
    hide At; hide ListsOk; hide Inv;
  }

  lemma NoneClosed(d: Driver, c: Choice)
    requires At(d, Closing) == []
    ensures CloseOne(d, c).socks == d.socks
  {
    hide At;
  }

  lemma ClosesHead(d: Driver, c: Choice, s: nat)
    requires At(d, Closing) != [] && At(d, Closing)[0] < |d.socks| && s < |d.socks| && !IsBare(d.socks[s])
    requires var t := At(d, Closing)[0]; d.socks[t].conn == None && d.socks[t].place == Closing
    ensures var e := CloseOne(d, c);
            |e.socks| == |d.socks|
            && (IsBare(e.socks[s]) <==>
                  At(d, Closing)[0] == s && d.stop && c.graceful && d.socks[s].state == ReadWait)
  {
    hide At; hide Push; hide Set; hide Take; hide SockClose;
    var t := At(d, Closing)[0];
    CloseShape(d, Closing, t);
    PutShape(d, Closing, t, ReadWait, Some(None), Wait);
  }

  lemma ThreadBares(d: Driver, lims: seq<Limits>, c: Choice)
    requires Inv(d, |lims|) && d.pc != ClosePass
    ensures NoneBared(d.socks, ThreadStep(d, lims, c).0.socks)
  {
    hide Collect; hide FreeOne; hide ReadyOne; hide PreqOne; hide QueOne; hide AdmitOne; hide Accept; hide Splice;
    hide Finished; hide Inv; hide NoneBared; hide Known; hide SameStates; hide CloseOne;
    SameBares(d.socks, d.socks);
    if d.pc == Top {
      CollectKeeps(d, |lims|);
      SameBares(d.socks, Collect(d).socks);
    } else if d.pc == FreePass {
      FreeBares(d, lims);
    } else if d.pc == ReadyPass {
      ReadyBares(d, c, |lims|);
    } else if d.pc == HandOver {
      HandOverKeeps(d, |lims|);
      SameBares(d.socks, Splice(d, ReadLocal, ReadQueue).socks);
    } else if d.pc == PreqPass {
      PreqBares(d, |lims|);
    } else if d.pc == QuePass {
      QueBares(d, |lims|);
    } else if d.pc == RunPass {
      AdmitBares(d, lims, c);
    } else {
      AcceptBares(d, c, |lims|);
    }
  }

  lemma StepBares(d: Driver, lims: seq<Limits>, a: Action, s: nat)
    requires Inv(d, |lims|) && s < |d.socks| && !IsBare(d.socks[s])
    ensures var d' := Step(d, lims, a).0;
            |d'.socks| == |d.socks| && (IsBare(d'.socks[s]) <==> PutsBackBare(d, lims, a, s))
  {
    hide Inv; hide ThreadStep; hide At; hide IsBare;
    if !a.DriverThread? {
      hide Step;
      OthersBare(d, lims, a);
    } else if d.pc == ClosePass {
      CloseStepIs(d, lims, a.c);
      CloseBares(d, a.c, |lims|, s);
    } else {
      ThreadBares(d, lims, a.c);
    }
  }

  lemma CloseStepIs(d: Driver, lims: seq<Limits>, c: Choice)
    requires d.pc == ClosePass
    ensures ThreadStep(d, lims, c).0 == if d.fatal || d.crashed || !Known(c.read, lims) then d else CloseOne(d, c)
  {
    hide CloseOne;
  }

  /** In every run a Sock comes to wait for a request without a Conn if and only if the driver,
      which is to stop, puts it back on the wait list when it is returned for keep-alive. */
  lemma BareIsPutBack(w: World, actions: seq<(nat, Action)>, i: nat, a: Action, s: nat)
    requires Fresh(w) && i < |Reached(w, actions).drivers| && s < |Reached(w, actions).drivers[i].socks|
    requires !IsBare(Reached(w, actions).drivers[i].socks[s])
    ensures var v := Reached(w, actions);
            var d' := WorldStep(v, i, a).drivers[i];
            s < |d'.socks| && (IsBare(d'.socks[s]) <==> PutsBackBare(v.drivers[i], v.limits, a, s))
  {
    RunKeepsInv(w, actions);
    var v := Reached(w, actions);
    InvOf(v, i);
    hide Step; hide Inv; hide IsBare; hide PutsBackBare; hide WorldInv;
    StepBares(v.drivers[i], v.limits, a, s);
  }

  // ----- both happen -----

  /** The default limits, and one Sock. */
  ghost const START := World([Init(true, 1)], [Limits(100, 100, 0, 0)])

  const FREE_SOCK := Sock(Closed, None, Free, false, 0)

  ghost const FIRST := DriverScene.Cast([FREE_SOCK], 0, [], [], [Limits(100, 100, 0, 0)], false, false, 0)

  lemma Starts()
    ensures DriverScene.Scene(START, Top, FIRST) && Fresh(START)
  {
    assert IsFresh(Init(true, 1));
    assert START.drivers[0].socks == [FREE_SOCK];
    assert At(START.drivers[0], Free) == [0] + [];
  }

  /** A request is accepted, read and run. */
  ghost function Runs(ticket: nat): DriverScene.Cast {
    FIRST.With(Sock(Running, None, Held, true, ticket))
         .(conns := [Conn(Some(0), Some(0), InUse)], limits := [Limits(100, 100, 1, 0)], nactive := 1)
  }

  lemma OneRuns() returns (ticket: nat)
    ensures DriverScene.Scene(DriverScene.On(START, 22), Top, Runs(ticket))
  {
    Starts();
    hide DriverScene.Scene; hide DriverScene.On; hide DriverScene.Next; hide START; hide Fresh;
    DriverScene.AcceptTurn(START, FIRST);
    var z := FIRST.With(Sock(ReadWait, Some(None), Wait, true, 0)).(nactive := 1);
    ticket := DriverScene.ReadTurn(DriverScene.On(START, 9), z);
    DriverScene.OnOn(START, 9, 10);
    var y := z.With(Sock(PreQue, Some(Some(0)), Parked, true, ticket));
    DriverScene.Counted(START, 19);
    DriverScene.Admits(DriverScene.On(START, 19), y);
    assert y.With(y.K().(place := Held, state := Running, conn := None))
            .(conns := y.conns + [Conn(Some(0), Some(0), InUse)], limits := AddRunning(y.limits, 0, 1)) == Runs(ticket);
    DriverScene.Counted(START, 20);
    DriverScene.RunEnds(DriverScene.On(START, 20), Runs(ticket));
    DriverScene.Counted(START, 21);
    DriverScene.AcceptsNone(DriverScene.On(START, 21), Runs(ticket));
  }

  /** Its Conn is closed for keep-alive, and the driver is told to stop. */
  ghost function Told(w: World): World {
    WorldStep(WorldStep(w, 0, ConnClose(0, true)), 0, Shutdown)
  }

  ghost function Kept(ticket: nat, p: Place, stop: bool): DriverScene.Cast {
    FIRST.With(Sock(ReadWait, None, p, true, ticket))
         .(conns := [Conn(None, Some(0), InUse)], limits := [Limits(100, 100, 1, 0)], shutdown := true, stop := stop,
           nactive := 1)
  }

  /** In its last turn the Sock goes back on the wait list, and in the next it is ready. */
  lemma KeptIsPutBack(w: World, ticket: nat)
    requires DriverScene.Scene(w, Top, Kept(ticket, CloseQueue, false))
    ensures DriverScene.Scene(DriverScene.On(w, 12), ReadyPass, Kept(ticket, Ready, true))
  {
    hide DriverScene.Scene; hide DriverScene.On; hide DriverScene.Next;
    var y, z := Kept(ticket, Closing, true), Kept(ticket, Wait, true);
    assert Kept(ticket, CloseQueue, false).To(Closing).(stop := true) == y && y.To(Wait) == z;
    DriverScene.Counted(w, 0); DriverScene.Tops(DriverScene.On(w, 0), Kept(ticket, CloseQueue, false));
    DriverScene.Counted(w, 1); DriverScene.FreeEnds(DriverScene.On(w, 1), y);
    DriverScene.Counted(w, 2); DriverScene.ReadyEnds(DriverScene.On(w, 2), y);
    DriverScene.Counted(w, 3); DriverScene.HandsOver(DriverScene.On(w, 3), y);
    DriverScene.Counted(w, 4); DriverScene.PutsBack(DriverScene.On(w, 4), y);
    DriverScene.Counted(w, 5); DriverScene.CloseEnds(DriverScene.On(w, 5), z);
    DriverScene.Counted(w, 6); DriverScene.PreqEnds(DriverScene.On(w, 6), z);
    DriverScene.Counted(w, 7); DriverScene.QueEnds(DriverScene.On(w, 7), z);
    DriverScene.Counted(w, 8); DriverScene.RunEnds(DriverScene.On(w, 8), z);
    DriverScene.Counted(w, 9); DriverScene.AcceptsNone(DriverScene.On(w, 9), z);
    DriverScene.Counted(w, 10); DriverScene.Tops(DriverScene.On(w, 10), z);
    DriverScene.Counted(w, 11); DriverScene.FreeEnds(DriverScene.On(w, 11), z);
    assert z.To(Ready) == Kept(ticket, Ready, true);
  }

  lemma Crashes(w: World, ticket: nat)
    requires DriverScene.Scene(w, ReadyPass, Kept(ticket, Ready, true))
    ensures |w.drivers| == 1 && |DriverScene.Next(w).drivers| == 1 && DriverScene.Next(w).drivers[0].crashed
  {
    var d := w.drivers[0];
    assert At(d, Ready) == [0];
    ReadyCrashes(d, DriverScene.BUSY);
    hide At; hide ReadyOne;
  }

  lemma IsToldOn(w: World, ticket: nat)
    requires DriverScene.Scene(w, Top, Runs(ticket))
    ensures DriverScene.Scene(Told(w), Top, Kept(ticket, CloseQueue, false))
  {
    hide DriverScene.Scene; hide WorldStep;
    DriverScene.KeepsAlive(w, Runs(ticket));
    var z := Runs(ticket);
    assert z.With(z.K().(place := CloseQueue, state := ReadWait)).(conns := [Conn(None, Some(0), InUse)])
        == Kept(ticket, CloseQueue, false).(shutdown := false);
    assert Kept(ticket, CloseQueue, false).(shutdown := false).(shutdown := true) == Kept(ticket, CloseQueue, false);
    DriverScene.ShutsDown(WorldStep(w, 0, ConnClose(0, true)), Kept(ticket, CloseQueue, false).(shutdown := false));
  }

  /** A driver with the default limits serves a request, its Conn is closed for keep-alive just
      as shutdown is requested, and the client sends its next request: the driver thread
      follows a NULL pointer. */
  lemma ShutdownCanCrash()
    ensures Fresh(START)
    ensures var v := Reached(START, DriverScene.Loop(22) + [(0, ConnClose(0, true)), (0, Shutdown)]
                             + DriverScene.Loop(13));
            |v.drivers| == 1 && v.drivers[0].crashed
  {
    Starts();
    hide DriverScene.Scene; hide DriverScene.On; hide DriverScene.Next; hide START; hide Fresh; hide Reached;
    var ticket := OneRuns();
    var acts := DriverScene.Loop(22) + [(0, ConnClose(0, true)), (0, Shutdown)];
    ReachesTold(START);
    IsToldOn(DriverScene.On(START, 22), ticket);
    var w := Reached(START, acts);
    KeptIsPutBack(w, ticket);
    Crashes(DriverScene.On(w, 12), ticket);
    DriverScene.Counted(w, 12);
    DriverScene.OnIsARun(START, acts, 13);
  }

  lemma ReachesTold(w: World)
    ensures Reached(w, DriverScene.Loop(22) + [(0, ConnClose(0, true)), (0, Shutdown)]) == Told(DriverScene.On(w, 22))
  {
    hide WorldStep; hide DriverScene.On;
    DriverScene.OnIsARun(w, [], 22);
    assert [] + DriverScene.Loop(22) == DriverScene.Loop(22);
    LastTwo(w, DriverScene.Loop(22), (0, ConnClose(0, true)), (0, Shutdown));
  }

  lemma LastTwo(w: World, acts: seq<(nat, Action)>, a: (nat, Action), b: (nat, Action))
    ensures Reached(w, acts + [a, b]) == WorldStep(WorldStep(Reached(w, acts), a.0, a.1), b.0, b.1)
  {
    hide WorldStep;
    assert (acts + [a, b])[..|acts| + 1] == acts + [a];
    assert (acts + [a])[..|acts|] == acts;
  }
}
