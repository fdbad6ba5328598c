/** What every step of the driver thread's passes does to the state of the pass. */
module DriverTurns {
  import opened Common
  import opened Driver
  import opened DriverLaws
  import opened DriverLists
  import DriverSteps

  /** Steps of a driver and its threads: where they began, and what was done in each. */
  datatype History = History(d: Driver, limits: seq<Limits>, actions: seq<Action>) {
    /** Another thread acts. */
    ghost function Also(a: Action): History {
      this.(actions := actions + [a])
    }

    /** The driver thread goes on. */
    ghost function Then(c: Choice): History {
      Also(DriverThread(c))
    }

    ghost predicate From(h: History) {
      d == h.d && limits == h.limits && h.actions <= actions
    }
  }

  ghost function Steps(d: Driver, lims: seq<Limits>, actions: seq<Action>): (Driver, seq<Limits>) {
    if actions == [] then (d, lims)
    else
      var r := Steps(d, lims, actions[..|actions| - 1]);
      Step(r.0, r.1, actions[|actions| - 1])
  }

  /** They have led to this state. */
  ghost predicate Leads(h: History, d: Driver, lims: seq<Limits>) {
    Steps(h.d, h.limits, h.actions) == (d, lims)
  }

  /** When nothing is asked of the environment. */
  const IDLE := Choice(false, false, false, false, More, false)

  lemma HistoryStarts(h: History)
    ensures h.From(h)
    ensures forall r: History, q: History :: q.From(r) && r.From(h) ==> q.From(h)
  {
  }

  /** A history of no steps, and one that has gone on. */
  lemma Started(d: Driver, lims: seq<Limits>, c: Choice, r: History)
    ensures Leads(History(d, lims, []), d, lims) && Steps(d, lims, []) == (d, lims)
    ensures r.From(History(d, lims, [])) ==> r.d == d && r.limits == lims
    ensures r.Then(c).actions != []
    ensures forall q: History :: q.From(r) && r.actions != [] ==> q.actions != []
  {
  }

  lemma FinishedIs(d: Driver)
    ensures Finished(d) <==> d.pc == Top && d.stop && d.nactive == 0
  {
  }

  lemma Led(r: History, d: Driver, lims: seq<Limits>)
    requires Leads(r, d, lims)
    ensures Steps(r.d, r.limits, r.actions) == (d, lims)
  {
  }

  lemma OneMore(r: History, h: History, d: Driver, lims: seq<Limits>, c: Choice)
    requires Leads(r, d, lims) && r.From(h)
    ensures var s := ThreadStep(d, lims, c); Leads(r.Then(c), s.0, s.1) && r.Then(c).From(h)
  {
    hide ThreadStep; hide Leads;
    OneAction(r, h, d, lims, DriverThread(c));
  }

  lemma OneAction(r: History, h: History, d: Driver, lims: seq<Limits>, a: Action)
    requires Leads(r, d, lims) && r.From(h)
    ensures var s := Step(d, lims, a); Leads(r.Also(a), s.0, s.1) && r.Also(a).From(h)
  {
    hide Step;
    assert (r.actions + [a])[..|r.actions|] == r.actions;
  }

  /** Only polling can end the process. */
  lemma Lives(d: Driver, c: Choice)
    ensures CloseOne(d, c).crashed == PreqOne(d).crashed == QueOne(d).crashed == d.crashed
  {
    hide At; hide Push; hide Set; hide Take; hide SockClose; hide Arrive;
  }

  lemma CloseTurn(d: Driver, lims: seq<Limits>, c: Choice)
    requires Inv(d, |lims|) && d.pc == ClosePass && !d.crashed && Known(c.read, lims) && At(d, Closing) != []
    ensures var e := CloseOne(d, c);
            && ThreadStep(d, lims, c) == (e, lims) && Inv(e, |lims|) && !e.crashed && e.pc == ClosePass
            && |At(e, Closing)| < |At(d, Closing)|
  {
    DriverSteps.ThreadStepKeeps(d, lims, c);
    DriverSteps.HeadFacts(d, Closing, |lims|);
    CloseShortens(d, c);
    Lives(d, c);
    hide Push; hide Set; hide SockClose; hide Take; hide At; hide ListsOk; hide SockFits;
  }

  lemma CloseEnds(d: Driver, lims: seq<Limits>)
    requires Inv(d, |lims|) && d.pc == ClosePass && !d.crashed && At(d, Closing) == []
    ensures var e := d.(pc := PreqPass); ThreadStep(d, lims, IDLE) == (e, lims) && Inv(e, |lims|)
  {
    DriverSteps.ThreadStepKeeps(d, lims, IDLE);
    hide At; hide ListsOk; hide SocksFit; hide ConnsHold; hide QueueIs; hide PassIs; hide Counts;
  }

  lemma PreqTurn(d: Driver, lims: seq<Limits>)
    requires Inv(d, |lims|) && d.pc == PreqPass && !d.crashed && At(d, PreQueue) != []
    ensures var e := PreqOne(d);
            && ThreadStep(d, lims, IDLE) == (e, lims) && Inv(e, |lims|) && !e.crashed && e.pc == PreqPass
            && |At(e, PreQueue)| < |At(d, PreQueue)|
  {
    DriverSteps.ThreadStepKeeps(d, lims, IDLE);
    DriverSteps.HeadFacts(d, PreQueue, |lims|);
    PreqShortens(d);
    Lives(d, IDLE);
    hide Push; hide Set; hide SockClose; hide Take; hide At; hide ListsOk; hide SockFits;
  }

  lemma PreqEnds(d: Driver, lims: seq<Limits>)
    requires Inv(d, |lims|) && d.pc == PreqPass && !d.crashed && At(d, PreQueue) == []
    ensures var e := d.(pc := QuePass); ThreadStep(d, lims, IDLE) == (e, lims) && Inv(e, |lims|)
  {
    DriverSteps.ThreadStepKeeps(d, lims, IDLE);
    hide At; hide ListsOk; hide SocksFit; hide ConnsHold; hide QueueIs; hide PassIs; hide Counts;
  }

  lemma QueTurn(d: Driver, lims: seq<Limits>)
    requires Inv(d, |lims|) && d.pc == QuePass && !d.crashed && At(d, QueueNow) != []
    ensures var e := QueOne(d);
            && ThreadStep(d, lims, IDLE) == (e, lims) && Inv(e, |lims|) && !e.crashed && e.pc == QuePass
            && |At(e, QueueNow)| < |At(d, QueueNow)|
  {
    DriverSteps.ThreadStepKeeps(d, lims, IDLE);
    DriverSteps.HeadFacts(d, QueueNow, |lims|);
    QueShortens(d);
    Lives(d, IDLE);
    hide Push; hide Set; hide SockClose; hide Take; hide At; hide ListsOk; hide SockFits; hide Arrive;
  }

  lemma QueEnds(d: Driver, lims: seq<Limits>)
    requires Inv(d, |lims|) && d.pc == QuePass && !d.crashed && At(d, QueueNow) == []
    ensures var e := d.(pc := RunPass, pass := d.fifo, fifo := []);
            ThreadStep(d, lims, IDLE) == (e, lims) && Inv(e, |lims|)
  {
    DriverSteps.ThreadStepKeeps(d, lims, IDLE);
    hide At; hide ListsOk; hide SocksFit; hide ConnsHold; hide QueueIs; hide PassIs; hide Counts;
  }

  lemma PollTurn(d: Driver, lims: seq<Limits>, c: Choice)
    requires Inv(d, |lims|) && d.pc == ReadyPass && !d.crashed && Known(c.read, lims) && At(d, Ready) != []
    ensures var e := ReadyOne(d, c);
            && ThreadStep(d, lims, c) == (e, lims) && Inv(e, |lims|) && e.pc == ReadyPass
            && (e.crashed || |At(e, Ready)| < |At(d, Ready)|)
  {
    DriverSteps.ThreadStepKeeps(d, lims, c);
    DriverSteps.HeadFacts(d, Ready, |lims|);
    PollCases(d, c);
    if !Bare(d.socks[At(d, Ready)[0]], c) {
      PollShortens(d, c);
    }
    hide Push; hide Set; hide SockClose; hide Take; hide At; hide ListsOk; hide AfterRead; hide Unlist;
  }

  lemma PollEnds(d: Driver, lims: seq<Limits>)
    requires Inv(d, |lims|) && d.pc == ReadyPass && !d.crashed && At(d, Ready) == []
    ensures var e := d.(pc := HandOver); ThreadStep(d, lims, IDLE) == (e, lims) && Inv(e, |lims|)
  {
    DriverSteps.ThreadStepKeeps(d, lims, IDLE);
    hide At; hide ListsOk; hide SocksFit; hide ConnsHold; hide QueueIs; hide PassIs; hide Counts;
  }

  lemma HandOverTurn(d: Driver, lims: seq<Limits>)
    requires Inv(d, |lims|) && d.pc == HandOver && !d.crashed
    ensures var e := Splice(d, ReadLocal, ReadQueue).(pc := ClosePass);
            ThreadStep(d, lims, IDLE) == (e, lims) && Inv(e, |lims|) && !e.crashed
  {
    DriverSteps.ThreadStepKeeps(d, lims, IDLE);
    hide Splice; hide At; hide ListsOk; hide SocksFit; hide ConnsHold; hide QueueIs; hide PassIs; hide Counts;
  }

  lemma CollectTurn(d: Driver, lims: seq<Limits>)
    requires Inv(d, |lims|) && d.pc == Top && !d.crashed
    ensures At(d, Closing) == []
    ensures !Finished(d) ==>
              var e := Collect(d);
              ThreadStep(d, lims, IDLE) == (e, lims) && Inv(e, |lims|) && !e.crashed && e.pc == FreePass
  {
    DriverSteps.ThreadStepKeeps(d, lims, IDLE);
    OutOfTurn(d, Closing, |lims|);
    CollectIs(d);
    var r := Relabel(d.(stop := d.shutdown, conns := TakeReturned(d.conns)), CloseQueue, Closing);
    hide Splice; hide At; hide ListsOk; hide SocksFit; hide ConnsHold; hide QueueIs; hide PassIs; hide Counts;
    hide Relabel;
    hide Collect;
  }

  /** The lists that are used in a few passes only. */
  lemma OutOfTurn(d: Driver, p: Place, nlims: nat)
    requires Inv(d, nlims) && ((p == Closing && d.pc == Top) || (p == Ready && d.pc == FreePass))
    ensures At(d, p) == []
  {
    if At(d, p) != [] {
      DriverSteps.HeadFacts(d, p, nlims);
    }
    hide At; hide ListsOk;
  }

  lemma FreeTurn(d: Driver, lims: seq<Limits>)
    requires Inv(d, |lims|) && d.pc == FreePass && !d.crashed && NextFreeing(d.conns) < |d.conns|
    ensures var i := NextFreeing(d.conns);
            var e, lims' := Reclaim(d, i), Discount(lims, d.conns[i]);
            && ThreadStep(d, lims, IDLE) == (e, lims') && Inv(e, |lims'|) && !e.crashed && e.pc == FreePass
            && |e.conns| < |d.conns|
  {
    DriverSteps.ThreadStepKeeps(d, lims, IDLE);
    ConnKnows(d, NextFreeing(d.conns), |lims|);
    ReclaimLives(d, NextFreeing(d.conns));
    hide Inv; hide Reclaim;
  }

  lemma ReclaimLives(d: Driver, i: nat)
    requires i < |d.conns|
    ensures Reclaim(d, i).crashed == d.crashed && |Reclaim(d, i).conns| < |d.conns|
  {
    hide At;
  }

  lemma FreeEnds(d: Driver, lims: seq<Limits>)
    requires Inv(d, |lims|) && d.pc == FreePass && !d.crashed && NextFreeing(d.conns) == |d.conns|
    ensures At(d, Ready) == []
    ensures var e := Relabel(d, Wait, Ready).(pc := ReadyPass);
            ThreadStep(d, lims, IDLE) == (e, lims) && Inv(e, |lims|) && !e.crashed
  {
    DriverSteps.ThreadStepKeeps(d, lims, IDLE);
    OutOfTurn(d, Ready, |lims|);
    hide Inv; hide Relabel; hide At;
    InvSound(d, |lims|);
  }

  lemma InvSound(d: Driver, nlims: nat)
    requires Inv(d, nlims)
    ensures !d.fatal
  {
  }

  lemma AdmitTurn(d: Driver, lims: seq<Limits>, c: Choice)
    requires Inv(d, |lims|) && d.pc == RunPass && !d.crashed && d.pass != [] && Known(c.read, lims)
    ensures var r := AdmitOne(d, lims, c);
            && ThreadStep(d, lims, c) == r && Inv(r.0, |r.1|)
            && !r.0.crashed && r.0.pc == RunPass && |r.0.pass| < |d.pass|
  {
    DriverSteps.ThreadStepKeeps(d, lims, c);
    AdmitIs(d, lims, c);
    InvSound(d, |lims|);
    var s := d.pass[0];
    var l := d.socks[s].conn.value.value;
    var state := Judge(lims, l, d.socks[s].state == RunWait, c).0;
    ActLives(d.(pass := d.pass[1..]), s, l, state);
    hide Inv; hide Act; hide AdmitOne;
  }

  lemma ActLives(d: Driver, s: nat, l: nat, state: SockState)
    requires s < |d.socks|
    ensures var e := Act(d, s, l, state); e.crashed == d.crashed && e.pc == d.pc && e.pass == d.pass
  {
    if state == RunWait {
      ActWaits(d, s, l);
    } else if state == Dropped {
      ActDrops(d, s, l);
    } else {
      ActQueues(d, s, l, state);
    }
    hide *;
  }

  lemma ActWaits(d: Driver, s: nat, l: nat)
    requires s < |d.socks|
    ensures var e := Act(d, s, l, RunWait); e.crashed == d.crashed && e.pc == d.pc && e.pass == d.pass
  {
    hide At; hide Push; hide Set;
    PartsPass(d, Wait, s, RunWait, d.socks[s].conn);
    PartsPass(Set(d, s, RunWait, d.socks[s].conn), Wait, s, Closed, None);
  }

  lemma ActDrops(d: Driver, s: nat, l: nat)
    requires s < |d.socks|
    ensures var e := Act(d, s, l, Dropped); e.crashed == d.crashed && e.pc == d.pc && e.pass == d.pass
  {
    hide At; hide SockClose; hide Set;
    PartsPass(d, Wait, s, Dropped, d.socks[s].conn);
    PartsPass(Set(d, s, Dropped, d.socks[s].conn), Wait, s, Closed, None);
  }

  lemma ActQueues(d: Driver, s: nat, l: nat, state: SockState)
    requires s < |d.socks| && state != RunWait && state != Dropped
    ensures var e := Act(d, s, l, state); e.crashed == d.crashed && e.pc == d.pc && e.pass == d.pass
  {
    hide At; hide Unlist; hide Set;
    PartsPass(d, Wait, s, state, None);
    PartsPass(Set(d, s, state, None), Held, s, Closed, None);
  }

  lemma PartsPass(d: Driver, p: Place, s: nat, state: SockState, conn: Option<Option<nat>>)
    requires s < |d.socks|
    ensures |Set(d, s, state, conn).socks| == |d.socks|
    ensures Push(d, p, s).pass == Set(d, s, state, conn).pass == Unlist(d, s, p).pass == SockClose(d, s).pass == d.pass
    ensures Push(d, p, s).crashed == Set(d, s, state, conn).crashed == Unlist(d, s, p).crashed
         == SockClose(d, s).crashed == d.crashed
  {
    hide At;
  }

  lemma AdmitEnds(d: Driver, lims: seq<Limits>)
    requires Inv(d, |lims|) && d.pc == RunPass && !d.crashed && d.pass == []
    ensures var e := d.(pc := AcceptStep); ThreadStep(d, lims, IDLE) == (e, lims) && Inv(e, |lims|)
  {
    DriverSteps.ThreadStepKeeps(d, lims, IDLE);
    InvSound(d, |lims|);
    hide Inv;
  }

  lemma AcceptTurn(d: Driver, lims: seq<Limits>, c: Choice)
    requires Inv(d, |lims|) && d.pc == AcceptStep && !d.crashed && Known(c.read, lims)
    ensures var e := Accept(d, c);
            ThreadStep(d, lims, c) == (e, lims) && Inv(e, |lims|) && !e.crashed && e.pc == Top
  {
    DriverSteps.ThreadStepKeeps(d, lims, c);
    InvSound(d, |lims|);
    AcceptLives(d, c);
    hide Inv; hide Accept;
  }

  lemma AcceptLives(d: Driver, c: Choice)
    ensures Accept(d, c).crashed == d.crashed && Accept(d, c).pc == Top
  {
    hide At;
  }

  // ----- the other threads -----

  /** The lists only the driver thread uses, while it works on them. */
  ghost predicate Own(p: Place) {
    p == Ready || p == Closing || p == PreQueue || p == QueueNow
  }

  /** What the driver thread alone changes is the same in `d` and `e`. */
  ghost predicate Apart(d: Driver, e: Driver) {
    && e.pc == d.pc && e.crashed == d.crashed && e.stop == d.stop && e.pass == d.pass && e.nactive == d.nactive
    && |e.conns| == |d.conns|
    && forall p :: Own(p) ==> At(e, p) == At(d, p)
  }

  lemma ApartTwice(d: Driver, e: Driver, f: Driver)
    requires Apart(d, e) && Apart(e, f)
    ensures Apart(d, f)
  {
    hide At;
  }

  lemma ApartIs(d: Driver, e: Driver)
    requires Apart(d, e)
    ensures e.pc == d.pc && e.crashed == d.crashed && e.pass == d.pass && (Finished(e) <==> Finished(d))
    ensures |e.conns| == |d.conns|
    ensures At(e, Ready) == At(d, Ready) && At(e, Closing) == At(d, Closing)
    ensures At(e, PreQueue) == At(d, PreQueue) && At(e, QueueNow) == At(d, QueueNow)
  {
    hide At;
    assert Own(Ready) && Own(Closing) && Own(PreQueue) && Own(QueueNow);
  }

  /** Fields the driver thread does not look at. */
  lemma ApartFields(d: Driver, e: Driver)
    requires e == d.(shutdown := e.shutdown, conns := e.conns) && |e.conns| == |d.conns|
    ensures Apart(d, e)
  {
  }

  lemma ApartPush(d: Driver, p: Place, s: nat)
    requires s < |d.socks| && !Own(p)
    ensures Apart(d, Push(d, p, s)) && |Push(d, p, s).socks| == |d.socks|
  {
    forall q | Own(q) ensures At(Push(d, p, s), q) == At(d, q) {
      AtPushed(d, p, s, q);
    }
    hide At;
  }

  lemma ApartTake(d: Driver, p: Place)
    requires At(d, p) != [] && !Own(p)
    ensures Apart(d, Take(d, p)) && Take(d, p).socks == d.socks
  {
    forall q | Own(q) ensures At(Take(d, p), q) == At(d, q) {
      AtTaken(d, p, q);
    }
    hide At;
  }

  lemma ApartSet(d: Driver, s: nat, state: SockState, conn: Option<Option<nat>>)
    requires s < |d.socks|
    ensures Apart(d, Set(d, s, state, conn)) && |Set(d, s, state, conn).socks| == |d.socks|
    ensures Apart(d, Unlist(d, s, Lost))
  {
  }

  lemma ApartReleased(d: Driver, i: nat)
    requires i < |At(d, Reading)|
    ensures Apart(d, Released(d, i)) && Released(d, i).socks == d.socks
  {
    forall q | Own(q) ensures At(Released(d, i), q) == At(d, q) {
      AtReleased(d, i, q);
    }
    hide At;
  }

  lemma ApartFrom(d: Driver)
    ensures Apart(d, d)
  {
  }

  lemma OthersKeep(d: Driver, lims: seq<Limits>, a: Action)
    requires Inv(d, |lims|) && !d.crashed && !a.DriverThread?
    ensures var r := Step(d, lims, a); Inv(r.0, |r.1|) && !r.0.crashed && r.1 == lims && Apart(d, r.0)
  {
    hide Inv; hide At; hide CloseConn; hide Push; hide Take; hide AfterRead;
    DriverSteps.StepKeepsInv(d, lims, a);
    OthersApart(d, lims, a);
  }

  /** A reader thread, a connection thread or whoever asks for shutdown acts: what the driver
      thread is in the middle of stays as it is. */
  lemma OthersApart(d: Driver, lims: seq<Limits>, a: Action)
    requires !a.DriverThread?
    ensures Apart(d, Step(d, lims, a).0)
  {
    hide *;
    match a {
      case ReaderTake => ReaderTakeApart(d, lims);
      case ReaderReturn(i, result) => ReaderReturnApart(d, lims, i, result);
      case ConnClose(i, keep) => ConnCloseApart(d, lims, i, keep);
      case ConnReturn(i) => ConnReturnApart(d, lims, i);
      case Shutdown => ShutdownApart(d, lims);
    }
  }

  lemma ConnReturnApart(d: Driver, lims: seq<Limits>, i: nat)
    ensures Apart(d, Step(d, lims, ConnReturn(i)).0)
  {
    hide Apart;
    ApartFields(d, Step(d, lims, ConnReturn(i)).0);
  }

  lemma ShutdownApart(d: Driver, lims: seq<Limits>)
    ensures Apart(d, Step(d, lims, Shutdown).0)
  {
    hide Apart;
    ApartFields(d, Step(d, lims, Shutdown).0);
  }

  lemma ReaderTakeApart(d: Driver, lims: seq<Limits>)
    ensures Apart(d, Step(d, lims, ReaderTake).0)
  {
    hide Apart; hide Push; hide Take; hide At;
    ApartFields(d, d);
    if At(d, ReadQueue) != [] && At(d, ReadQueue)[0] < |d.socks| {
      ApartTake(d, ReadQueue);
      ApartPush(Take(d, ReadQueue), Reading, At(d, ReadQueue)[0]);
      ApartTwice(d, Take(d, ReadQueue), Push(Take(d, ReadQueue), Reading, At(d, ReadQueue)[0]));
    }
  }

  lemma ReadApart(d: Driver, s: nat, result: ReadResult)
    requires s < |d.socks|
    ensures Apart(d, AfterRead(d, s, result))
  {
    hide Apart; hide Set;
    ApartFields(d, d);
    match result {
      case More =>
      case Done(l) => ApartSet(d, s, PreQue, Some(Some(l)));
      case Bad => ApartSet(d, s, Error, d.socks[s].conn);
    }
  }

  lemma ReaderReturnApart(d: Driver, lims: seq<Limits>, i: nat, result: ReadResult)
    ensures Apart(d, Step(d, lims, ReaderReturn(i, result)).0)
  {
    hide Apart; hide Push; hide At; hide AfterRead;
    ApartFields(d, d);
    if i < |At(d, Reading)| && At(d, Reading)[i] < |d.socks| {
      var s, e := At(d, Reading)[i], Released(d, i);
      ApartReleased(d, i);
      ReadApart(e, s, result);
      ApartTwice(d, e, AfterRead(e, s, result));
      ApartPush(AfterRead(e, s, result), RunQueue, s);
      ApartTwice(d, AfterRead(e, s, result), Push(AfterRead(e, s, result), RunQueue, s));
    }
  }

  lemma ConnCloseApart(d: Driver, lims: seq<Limits>, i: nat, keep: bool)
    ensures Apart(d, Step(d, lims, ConnClose(i, keep)).0)
  {
    hide Apart; hide Push; hide Set; hide Unlist; hide At;
    ApartFields(d, d);
    if i < |d.conns| && d.conns[i].sock.Some? && d.conns[i].sock.value < |d.socks| {
      var s, e := d.conns[i].sock.value, d.(conns := d.conns[i := d.conns[i].(sock := None)]);
      ApartFields(d, e);
      var state := if d.socks[s].state != Running then CloseReq else if keep then ReadWait else CloseWait;
      var f := Set(e, s, state, d.socks[s].conn);
      ApartSet(e, s, state, d.socks[s].conn);
      ApartTwice(d, e, f);
      if d.socks[s].state != Running {
        ApartSet(f, s, state, None);
        ApartTwice(d, f, Unlist(f, s, Lost));
      } else {
        ApartPush(f, CloseQueue, s);
        ApartTwice(d, f, Push(f, CloseQueue, s));
      }
    }
  }

  lemma ReaderTakeIs(d: Driver, lims: seq<Limits>)
    ensures Step(d, lims, ReaderTake)
         == (if At(d, ReadQueue) == [] || At(d, ReadQueue)[0] >= |d.socks| then d
             else Push(Take(d, ReadQueue), Reading, At(d, ReadQueue)[0]), lims)
  {
    hide At; hide Push; hide Take;
  }

  /** A reader thread returns the `i`th Sock held. */
  lemma ReaderReturnIs(d: Driver, lims: seq<Limits>, i: nat, result: ReadResult)
    requires Inv(d, |lims|) && i < |At(d, Reading)| && !result.More? && Known(result, lims)
    ensures var s := At(d, Reading)[i];
            && s < |d.socks| && ListsOk(Released(d, i), s)
            && Step(d, lims, ReaderReturn(i, result)) == (Push(AfterRead(Released(d, i), s, result), RunQueue, s), lims)
  {
    hide Inv; hide At; hide Push; hide AfterRead; hide ListsOk;
    DriverSteps.PickFacts(d, Reading, i, |lims|);
  }

  lemma ReaderReturnOff(d: Driver, lims: seq<Limits>, i: nat, result: ReadResult)
    requires i >= |At(d, Reading)| || result.More? || !Known(result, lims)
    ensures Step(d, lims, ReaderReturn(i, result)) == (d, lims)
  {
  }

  lemma ConnStepsAre(d: Driver, lims: seq<Limits>, i: nat, keep: bool)
    ensures i < |d.conns| && d.conns[i].returned.InUse? ==>
              && Step(d, lims, ConnClose(i, keep)) == (CloseConn(d, i, keep), lims)
              && Step(d, lims, ConnReturn(i)) == (d.(conns := d.conns[i := d.conns[i].(returned := OnFreeList)]), lims)
    ensures i >= |d.conns| || !d.conns[i].returned.InUse? ==>
              Step(d, lims, ConnClose(i, keep)) == Step(d, lims, ConnReturn(i)) == (d, lims)
    ensures Step(d, lims, Shutdown) == (d.(shutdown := true), lims)
  {
    hide CloseConn;
  }

  // ----- runs -----

  ghost function Acts(actions: seq<Action>): seq<(nat, Action)> {
    seq(|actions|, i requires 0 <= i < |actions| => (0, actions[i]))
  }

  /** Steps of a driver and its threads are a run of the world, of which all that is proved of
      runs holds. */
  lemma {:induction false} StepsAreARun(d: Driver, lims: seq<Limits>, actions: seq<Action>)
    ensures var r := Steps(d, lims, actions); Reached(World([d], lims), Acts(actions)) == World([r.0], r.1)
  {
    hide Step;
    if actions != [] {
      var n := |actions| - 1;
      StepsAreARun(d, lims, actions[..n]);
      assert Acts(actions)[..n] == Acts(actions[..n]);
      var r := Steps(d, lims, actions[..n]);
      assert [r.0][0 := Step(r.0, r.1, actions[n]).0] == [Step(r.0, r.1, actions[n]).0];
    }
  }
}
