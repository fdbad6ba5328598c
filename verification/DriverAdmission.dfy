/** Admission against Limits shared by any number of drivers: the counters are exact. */
module DriverAdmission {
  import opened Common
  import opened Driver
  import opened DriverLaws
  import opened DriverSteps

  // ----- what the counters should say -----

  /** Conns admitted against Limits `l` and not yet reclaimed. */
  ghost function Admitted(conns: seq<Conn>, l: nat): nat {
    if conns == [] then 0
    else Admitted(conns[..|conns| - 1], l) + if conns[|conns| - 1].limits == Some(l) then 1 else 0
  }

  ghost predicate WaitsFor(k: Sock, l: nat) {
    k.state == RunWait && k.conn == Some(Some(l))
  }

  /** Socks in state RUNWAIT whose Conn has Limits `l`. */
  ghost function Waiting(socks: seq<Sock>, l: nat): nat {
    if socks == [] then 0
    else Waiting(socks[..|socks| - 1], l) + if WaitsFor(socks[|socks| - 1], l) then 1 else 0
  }

  ghost function AllAdmitted(drivers: seq<Driver>, l: nat): nat {
    if drivers == [] then 0
    else AllAdmitted(drivers[..|drivers| - 1], l) + Admitted(drivers[|drivers| - 1].conns, l)
  }

  ghost function AllWaiting(drivers: seq<Driver>, l: nat): nat {
    if drivers == [] then 0
    else AllWaiting(drivers[..|drivers| - 1], l) + Waiting(drivers[|drivers| - 1].socks, l)
  }

  // ----- counting -----

  lemma {:induction false} AdmittedAppend(conns: seq<Conn>, c: Conn, l: nat)
    ensures Admitted(conns + [c], l) == Admitted(conns, l) + if c.limits == Some(l) then 1 else 0
  {
    assert (conns + [c])[..|conns|] == conns;
  }

  lemma {:induction false} AdmittedSame(conns: seq<Conn>, conns': seq<Conn>, l: nat)
    requires |conns'| == |conns|
    requires forall i :: 0 <= i < |conns| ==> conns'[i].limits == conns[i].limits
    ensures Admitted(conns', l) == Admitted(conns, l)
  {
    if conns != [] {
      AdmittedSame(conns[..|conns| - 1], conns'[..|conns| - 1], l);
    }
  }

  lemma {:induction false} AdmittedWithout(conns: seq<Conn>, i: nat, l: nat)
    requires i < |conns|
    ensures Admitted(conns, l) == Admitted(Without(conns, i), l) + if conns[i].limits == Some(l) then 1 else 0
  {
    var n := |conns| - 1;
    if i == n {
      assert Without(conns, i) == conns[..n];
    } else {
      AdmittedWithout(conns[..n], i, l);
      assert Without(conns, i)[..n - 1] == Without(conns[..n], i);
      assert Without(conns, i)[n - 1] == conns[n];
    }
  }

  lemma {:induction false} WaitingSame(socks: seq<Sock>, socks': seq<Sock>, l: nat)
    requires |socks'| == |socks|
    requires forall s :: 0 <= s < |socks| ==> (WaitsFor(socks'[s], l) <==> WaitsFor(socks[s], l))
    ensures Waiting(socks', l) == Waiting(socks, l)
  {
    if socks != [] {
      WaitingSame(socks[..|socks| - 1], socks'[..|socks| - 1], l);
    }
  }

  lemma {:induction false} WaitingOne(socks: seq<Sock>, socks': seq<Sock>, s: nat, l: nat)
    requires s < |socks| && Only(socks, socks', s)
    ensures Waiting(socks', l) + (if WaitsFor(socks[s], l) then 1 else 0)
         == Waiting(socks, l) + (if WaitsFor(socks'[s], l) then 1 else 0)
  {
    var n := |socks| - 1;
    if s == n {
      WaitingSame(socks[..n], socks'[..n], l);
    } else {
      WaitingOne(socks[..n], socks'[..n], s, l);
    }
  }

  lemma {:induction false} AllOne(drivers: seq<Driver>, i: nat, d: Driver, l: nat)
    requires i < |drivers|
    ensures AllAdmitted(drivers[i := d], l) + Admitted(drivers[i].conns, l)
         == AllAdmitted(drivers, l) + Admitted(d.conns, l)
    ensures AllWaiting(drivers[i := d], l) + Waiting(drivers[i].socks, l)
         == AllWaiting(drivers, l) + Waiting(d.socks, l)
    ensures Waiting(drivers[i].socks, l) <= AllWaiting(drivers, l)
  {
    var n := |drivers| - 1;
    if i == n {
      assert drivers[i := d][..n] == drivers[..n];
    } else {
      assert drivers[i := d][..n] == drivers[..n][i := d];
      AllOne(drivers[..n], i, d, l);
    }
  }

  // ----- every step changes counters and counts alike -----

  /** No Sock starts or stops waiting to run. */
  ghost predicate SameWaits(socks: seq<Sock>, socks': seq<Sock>) {
    |socks'| == |socks| && forall s :: 0 <= s < |socks| ==>
      (socks'[s].state == RunWait <==> socks[s].state == RunWait)
      && (socks[s].state == RunWait ==> socks'[s].conn == socks[s].conn)
  }

  ghost predicate SameLimits(conns: seq<Conn>, conns': seq<Conn>) {
    |conns'| == |conns| && forall i :: 0 <= i < |conns| ==> conns'[i].limits == conns[i].limits
  }

  /** Counters and counts move together for Limits `l`. */
  ghost predicate Tracks(d: Driver, lims: seq<Limits>, d': Driver, lims': seq<Limits>, l: nat)
    requires l < |lims|
  {
    && |lims'| == |lims|
    && lims'[l].maxrun == lims[l].maxrun && lims'[l].maxwait == lims[l].maxwait
    && lims'[l].nrunning - lims[l].nrunning == Admitted(d'.conns, l) - Admitted(d.conns, l)
    && lims'[l].nwaiting - lims[l].nwaiting == Waiting(d'.socks, l) - Waiting(d.socks, l)
    && (lims[l].nrunning <= lims[l].maxrun ==> lims'[l].nrunning <= lims[l].maxrun)
    && (lims[l].nwaiting <= lims[l].maxwait ==> lims'[l].nwaiting <= lims[l].maxwait)
  }

  lemma QuietTracks(d: Driver, d': Driver, lims: seq<Limits>, l: nat)
    requires l < |lims| && SameWaits(d.socks, d'.socks) && SameLimits(d.conns, d'.conns)
    ensures Tracks(d, lims, d', lims, l)
  {
    WaitingSame(d.socks, d'.socks, l);
    AdmittedSame(d.conns, d'.conns, l);
  }

  /** No Sock is lost or found again. */
  ghost predicate SameLost(socks: seq<Sock>, socks': seq<Sock>) {
    |socks'| == |socks| && forall s :: 0 <= s < |socks| ==> (socks'[s].place == Lost <==> socks[s].place == Lost)
  }

  /** What a step that neither frees nor admits a Conn nor closes a refused one leaves alone. */
  ghost predicate Quiet(d: Driver, e: Driver) {
    SameWaits(d.socks, e.socks) && SameLimits(d.conns, e.conns) && SameLost(d.socks, e.socks)
  }

  lemma CollectQuiet(d: Driver, nlims: nat)
    requires Inv(d, nlims) && d.pc == Top
    ensures Quiet(d, Collect(d))
  {
    hide Inv; hide Collect;
    CollectKeeps(d, nlims);
  }

  lemma HandOverQuiet(d: Driver, nlims: nat)
    requires Inv(d, nlims) && d.pc == HandOver
    ensures Quiet(d, Splice(d, ReadLocal, ReadQueue).(pc := ClosePass))
  {
    hide Inv; hide Splice;
    HandOverKeeps(d, nlims);
  }

  /** One Sock changes, and was not and is not waiting to run. */
  lemma QuietOne(d: Driver, e: Driver, s: nat)
    requires s < |d.socks| && Only(d.socks, e.socks, s) && SameLimits(d.conns, e.conns)
    requires !d.socks[s].state.RunWait? || e.socks[s].conn == d.socks[s].conn
    requires d.socks[s].place != Lost && e.socks[s].place != Lost
    requires d.socks[s].state.RunWait? <==> e.socks[s].state.RunWait?
    ensures Quiet(d, e)
  {
  }

  lemma TakeShape(d: Driver, p: Place)
    ensures Take(d, p).socks == d.socks && Take(d, p).conns == d.conns
  {
  }

  lemma SetShape(e: Driver, s: nat, state: SockState, conn: Option<Option<nat>>)
    requires s < |e.socks|
    ensures Set(e, s, state, conn).socks == e.socks[s := e.socks[s].(state := state, conn := conn)]
    ensures Set(e, s, state, conn).conns == e.conns
  {
  }

  lemma PushShape(e: Driver, p: Place, s: nat)
    requires s < |e.socks|
    ensures Push(e, p, s).socks == e.socks[s := e.socks[s].(place := p)] && Push(e, p, s).conns == e.conns
  {
  }

  lemma ClosedShape(e: Driver, s: nat)
    requires s < |e.socks|
    ensures SockClose(e, s).socks == e.socks[s := Sock(Closed, None, Free, false, e.socks[s].ticket)]
    ensures SockClose(e, s).conns == e.conns
  {
    hide Push; hide Set;
    SetShape(e, s, Closed, None);
    PushShape(Set(e, s, Closed, None), Free, s);
  }

  lemma UnlistedShape(e: Driver, s: nat, p: Place)
    requires s < |e.socks|
    ensures Unlist(e, s, p).socks == e.socks[s := e.socks[s].(place := p)] && Unlist(e, s, p).conns == e.conns
  {
  }

  lemma CloseShape(d: Driver, p: Place, s: nat)
    requires s < |d.socks|
    ensures var e := SockClose(Take(d, p), s);
            Only(d.socks, e.socks, s) && e.socks[s].state == Closed && e.socks[s].place == Free && e.conns == d.conns
  {
    hide SockClose; hide Take;
    TakeShape(d, p);
    ClosedShape(Take(d, p), s);
  }

  lemma PutShape(d: Driver, p: Place, s: nat, state: SockState, conn: Option<Option<nat>>, q: Place)
    requires s < |d.socks|
    ensures var e := Push(Set(Take(d, p), s, state, conn), q, s);
            && Only(d.socks, e.socks, s) && e.conns == d.conns
            && e.socks[s].state == state && e.socks[s].conn == conn && e.socks[s].place == q
    ensures var e := Push(Take(d, p), q, s);
            && Only(d.socks, e.socks, s) && e.conns == d.conns
            && e.socks[s].state == d.socks[s].state && e.socks[s].conn == d.socks[s].conn && e.socks[s].place == q
  {
    hide Push; hide Set; hide Take;
    TakeShape(d, p);
    SetShape(Take(d, p), s, state, conn);
    PushShape(Set(Take(d, p), s, state, conn), q, s);
    PushShape(Take(d, p), q, s);
  }

  lemma UnlistShape(d: Driver, p: Place, s: nat, q: Place)
    requires s < |d.socks|
    ensures var e := Unlist(Take(d, p), s, q);
            && Only(d.socks, e.socks, s) && e.conns == d.conns
            && e.socks[s].state == d.socks[s].state && e.socks[s].conn == d.socks[s].conn && e.socks[s].place == q
  {
    hide Take; hide Unlist;
    TakeShape(d, p);
    UnlistedShape(Take(d, p), s, q);
  }

  lemma ReadHereQuiet(d: Driver, s: nat, result: ReadResult, nlims: nat)
    requires Inv(d, nlims) && s < |d.socks| && d.socks[s].place == Ready && d.socks[s].state == ReadWait
    ensures Quiet(d, Push(Take(d, Ready), Wait, s))
    ensures !result.More? ==> Quiet(d, Push(AfterRead(Take(d, Ready), s, result), PreQueue, s))
  {
    hide Inv; hide Push; hide Set; hide Take; hide Only; hide Quiet; hide SameLimits;
    TakeShape(d, Ready);
    SameLimitsSelf(d.conns);
    PutShape(d, Ready, s, PreQue, None, Wait);
    QuietOne(d, Push(Take(d, Ready), Wait, s), s);
    match result
    case More =>
    case Done(l) =>
      SetShape(Take(d, Ready), s, PreQue, Some(Some(l)));
      PutShape(d, Ready, s, PreQue, Some(Some(l)), PreQueue);
      QuietOne(d, Push(AfterRead(Take(d, Ready), s, result), PreQueue, s), s);
    case Bad =>
      SetShape(Take(d, Ready), s, Error, d.socks[s].conn);
      PutShape(d, Ready, s, Error, d.socks[s].conn, PreQueue);
      QuietOne(d, Push(AfterRead(Take(d, Ready), s, result), PreQueue, s), s);
  }

  /** The two things that can happen to a Sock in graceful close. */
  lemma DrainQuiet(d: Driver, s: nat, state: SockState)
    requires s < |d.socks| && d.socks[s].place == Ready && d.socks[s].state == state != RunWait
    ensures Quiet(d, SockClose(Take(d, Ready), s)) && Quiet(d, Push(Take(d, Ready), Wait, s))
    ensures Quiet(d, Push(Take(d, Ready), ReadLocal, s))
  {
    hide SockClose; hide Push; hide Take; hide Only; hide Quiet; hide SameLimits;
    SameLimitsSelf(d.conns);
    CloseShape(d, Ready, s);
    QuietOne(d, SockClose(Take(d, Ready), s), s);
    PutShape(d, Ready, s, state, None, Wait);
    QuietOne(d, Push(Take(d, Ready), Wait, s), s);
    PutShape(d, Ready, s, state, None, ReadLocal);
    QuietOne(d, Push(Take(d, Ready), ReadLocal, s), s);
  }

  lemma ParkQuiet(d: Driver, s: nat)
    requires s < |d.socks| && d.socks[s].place == Ready
    ensures Quiet(d, Unlist(Take(d, Ready), s, Parked))
  {
    hide Take; hide Only; hide Quiet; hide SameLimits; hide Unlist;
    SameLimitsSelf(d.conns);
    UnlistShape(d, Ready, s, Parked);
    QuietOne(d, Unlist(Take(d, Ready), s, Parked), s);
  }

  lemma ReadyQuiet(d: Driver, c: Choice, nlims: nat)
    requires Inv(d, nlims) && d.pc == ReadyPass
    ensures Quiet(d, ReadyOne(d, c))
  {
    if At(d, Ready) == [] {
      QuietSelf(d, d.(pc := HandOver));
    } else {
      HeadFacts(d, Ready, nlims);
      var s := At(d, Ready)[0];
      assert d.socks[s].state in {ReadWait, CloseWait, RunWait};
      hide *;
      SameLimitsSelf(d.conns);
      QuietSelf(d, d.(crashed := true));
      ReadyCases(d, c, s);
      if d.socks[s].state == RunWait {
        ParkQuiet(d, s);
      } else {
        DrainQuiet(d, s, d.socks[s].state);
        if d.socks[s].state == ReadWait { ReadHereQuiet(d, s, c.read, nlims); }
      }
    }
  }

  lemma ReadyCases(d: Driver, c: Choice, s: nat)
    requires At(d, Ready) != [] && s == At(d, Ready)[0] && s < |d.socks|
    requires d.socks[s].state in {ReadWait, CloseWait, RunWait}
    ensures d.socks[s].state == RunWait ==> ReadyOne(d, c) == Unlist(Take(d, Ready), s, Parked)
    ensures d.socks[s].state != RunWait ==>
              || ReadyOne(d, c) == SockClose(Take(d, Ready), s)
              || ReadyOne(d, c) == Push(Take(d, Ready), Wait, s)
              || ReadyOne(d, c) == Push(Take(d, Ready), ReadLocal, s)
              || (d.socks[s].state == ReadWait
                  && (ReadyOne(d, c) == d.(crashed := true)
                      || (!c.read.More? && ReadyOne(d, c) == Push(AfterRead(Take(d, Ready), s, c.read), PreQueue, s))))
  {
    TakeShape(d, Ready);
    if d.socks[s].state == ReadWait && c.input && !d.socks[s].conn.None? && d.async {
      hide SockClose; hide Push; hide At; hide Take; hide Unlist;
      ReadShape(Take(d, Ready), s, c.read);
    } else {
      hide SockClose; hide Push; hide At; hide Take; hide Unlist; hide AfterRead;
    }
  }

  lemma ReadShape(e: Driver, s: nat, result: ReadResult)
    requires s < |e.socks|
    ensures |AfterRead(e, s, result).socks| == |e.socks|
    ensures result.More? ==> AfterRead(e, s, result) == e
  {
  }

  lemma QuietSelf(d: Driver, e: Driver)
    requires e.socks == d.socks && SameLimits(d.conns, e.conns)
    ensures Quiet(d, e)
  {
  }

  lemma CloseQuiet(d: Driver, c: Choice, nlims: nat)
    requires Inv(d, nlims) && d.pc == ClosePass
    ensures Quiet(d, CloseOne(d, c))
  {
    hide ListsOk; hide ConnsHold; hide QueueIs; hide PassIs; hide SocksFit; hide At;
    hide SockClose; hide Push; hide Set; hide Take; hide Unlist; hide Only; hide Quiet;
    if At(d, Closing) == [] {
      QuietSelf(d, d.(pc := PreqPass));
    } else {
      HeadFacts(d, Closing, nlims);
      var s := At(d, Closing)[0];
      CloseShape(d, Closing, s);
      PutShape(d, Closing, s, ReadWait, Some(None), Wait);
      QuietOne(d, CloseOne(d, c), s);
    }
  }

  lemma PreqQuiet(d: Driver, nlims: nat)
    requires Inv(d, nlims) && d.pc == PreqPass
    ensures Quiet(d, PreqOne(d))
  {
    hide ListsOk; hide ConnsHold; hide QueueIs; hide PassIs; hide SocksFit; hide At;
    hide SockClose; hide Push; hide Set; hide Take; hide Unlist; hide Only; hide Quiet;
    if At(d, PreQueue) == [] {
      QuietSelf(d, d.(pc := QuePass));
    } else {
      HeadFacts(d, PreQueue, nlims);
      var s := At(d, PreQueue)[0];
      CloseShape(d, PreQueue, s);
      PutShape(d, PreQueue, s, PreQue, None, QueueNow);
      QuietOne(d, PreqOne(d), s);
    }
  }

  lemma QueQuiet(d: Driver, nlims: nat)
    requires Inv(d, nlims) && d.pc == QuePass
    ensures Quiet(d, QueOne(d))
  {
    hide ListsOk; hide ConnsHold; hide QueueIs; hide PassIs; hide SocksFit; hide At;
    if At(d, QueueNow) != [] { HeadFacts(d, QueueNow, nlims); }
  }

  lemma AcceptQuiet(d: Driver, c: Choice, nlims: nat)
    requires Inv(d, nlims) && d.pc == AcceptStep
    ensures Quiet(d, Accept(d, c))
  {
    hide Inv; hide At;
    if At(d, Free) != [] {
      FreeHead(d, nlims);
    }
  }

  lemma FreeHead(d: Driver, nlims: nat)
    requires Inv(d, nlims) && At(d, Free) != []
    ensures var s := At(d, Free)[0];
            s < |d.socks| && d.socks[s].place == Free && d.socks[s].state == Closed
  {
    hide Inv; hide ListsOk; hide At;
    HeadFacts(d, Free, nlims);
  }

  /** The steps of the driver thread other than freeing Conns and admitting. */
  lemma PassesAreQuiet(d: Driver, lims: seq<Limits>, c: Choice)
    requires Inv(d, |lims|) && d.pc != FreePass && d.pc != RunPass
    ensures var r := ThreadStep(d, lims, c);
            r.1 == lims && Quiet(d, r.0)
  {
    hide Inv; hide Collect; hide ReadyOne; hide Splice; hide CloseOne; hide PreqOne; hide QueOne; hide Accept;
    if !d.fatal && !d.crashed && Known(c.read, lims) {
      match d.pc
      case Top =>
        CollectQuiet(d, |lims|);
        QuietSelf(d, d);
      case HandOver => HandOverQuiet(d, |lims|);
      case ReadyPass => ReadyQuiet(d, c, |lims|);
      case ClosePass => CloseQuiet(d, c, |lims|);
      case PreqPass => PreqQuiet(d, |lims|);
      case QuePass => QueQuiet(d, |lims|);
      case AcceptStep => AcceptQuiet(d, c, |lims|);
    }
  }

  lemma ReaderReturnQuiet(d: Driver, i: nat, result: ReadResult, nlims: nat)
    requires Inv(d, nlims) && i < |At(d, Reading)| && !result.More?
    ensures var s := At(d, Reading)[i];
            s < |d.socks| &&
            var e := d.(lists := d.lists[Reading := Without(At(d, Reading), i)]);
            Quiet(d, Push(AfterRead(e, s, result), RunQueue, s))
  {
    hide ListsOk; hide ConnsHold; hide QueueIs; hide PassIs; hide SocksFit; hide At;
    hide Quiet; hide SameLimits;
    PickFacts(d, Reading, i, nlims);
    var s := At(d, Reading)[i];
    var e := Push(AfterRead(d.(lists := d.lists[Reading := Without(At(d, Reading), i)]), s, result), RunQueue, s);
    assert SameLimits(d.conns, e.conns) by { SameLimitsSelf(d.conns); }
    QuietOne(d, e, s);
  }

  lemma SameLimitsSelf(conns: seq<Conn>)
    ensures SameLimits(conns, conns)
  {
  }

  lemma CloseConnFrame(d: Driver, i: nat, keep: bool)
    requires i < |d.conns|
    ensures var r := CloseConn(d, i, keep);
            r.pc == d.pc && r.fifo == d.fifo && r.stop == d.stop && r.shutdown == d.shutdown && r.connless == d.connless
  {
    hide Set; hide Push; hide Unlist;
  }

  lemma ActFrame(d: Driver, s: nat, l: nat, state: SockState)
    requires s < |d.socks|
    ensures var r := Act(d, s, l, state);
            r.pc == d.pc && r.stop == d.stop && r.shutdown == d.shutdown && r.connless == d.connless
  {
    hide Set; hide Push; hide SockClose; hide Dispatch;
  }

  /** Closing a Conn loses its Sock exactly when the Conn had been refused. */
  lemma CloseConnLoses(d: Driver, i: nat, keep: bool, nlims: nat)
    requires Inv(d, nlims) && i < |d.conns|
    ensures var e := CloseConn(d, i, keep);
            && SameWaits(d.socks, e.socks) && SameLimits(d.conns, e.conns)
            && forall s :: 0 <= s < |d.socks| ==>
                 (e.socks[s].place == Lost <==>
                    d.socks[s].place == Lost || (d.conns[i].sock == Some(s) && d.socks[s].state in {Timeout, Overflow}))
  {
    hide Inv; hide CloseConn; hide SameWaits; hide SameLimits; hide Only;
    if d.conns[i].sock.Some? {
      HeldState(d, i, nlims);
      CloseConnShape(d, i, keep);
      LosesOne(d.socks, CloseConn(d, i, keep).socks, d.conns[i].sock.value);
      SockReleased(d.conns, i);
    } else {
      NothingClosed(d, i, keep);
    }
  }

  lemma HeldState(d: Driver, i: nat, nlims: nat)
    requires Inv(d, nlims) && i < |d.conns| && d.conns[i].sock.Some?
    ensures var s := d.conns[i].sock.value;
            s < |d.socks| && d.socks[s].place == Held && d.socks[s].state in {Running, Timeout, Overflow}
  {
    HeldFacts(d, i, nlims);
    hide Inv; hide ListsOk;
  }

  lemma LosesOne(socks: seq<Sock>, socks': seq<Sock>, s: nat)
    requires Only(socks, socks', s) && s < |socks| && socks[s].place == Held
    requires socks[s].state in {Running, Timeout, Overflow}
    requires socks[s].state != Running ==> socks'[s].state == CloseReq && socks'[s].place == Lost
    requires socks[s].state == Running ==>
               socks'[s].state in {ReadWait, CloseWait} && socks'[s].place == CloseQueue
    ensures SameWaits(socks, socks')
    ensures forall u :: 0 <= u < |socks| ==>
              (socks'[u].place == Lost <==>
                 socks[u].place == Lost || (u == s && socks[u].state in {Timeout, Overflow}))
  {
  }

  lemma SockReleased(conns: seq<Conn>, i: nat)
    requires i < |conns|
    ensures SameLimits(conns, conns[i := conns[i].(sock := None)])
  {
  }

  lemma NothingClosed(d: Driver, i: nat, keep: bool)
    requires i < |d.conns| && d.conns[i].sock.None?
    ensures CloseConn(d, i, keep) == d && SameWaits(d.socks, d.socks) && SameLimits(d.conns, d.conns)
  {
  }

  lemma CloseConnShape(d: Driver, i: nat, keep: bool)
    requires i < |d.conns| && d.conns[i].sock.Some? && d.conns[i].sock.value < |d.socks|
    ensures var e, s := CloseConn(d, i, keep), d.conns[i].sock.value;
            && e.conns == d.conns[i := d.conns[i].(sock := None)]
            && Only(d.socks, e.socks, s)
            && (d.socks[s].state != Running ==> e.socks[s].state == CloseReq && e.socks[s].place == Lost)
            && (d.socks[s].state == Running ==>
                  e.socks[s].state in {ReadWait, CloseWait} && e.socks[s].place == CloseQueue)
  {
    var s, e := d.conns[i].sock.value, d.(conns := d.conns[i := d.conns[i].(sock := None)]);
    var state := if d.socks[s].state != Running then CloseReq else if keep then ReadWait else CloseWait;
    var g := Set(e, s, state, d.socks[s].conn);
    hide Push; hide Set; hide Unlist;
    SetShape(e, s, state, d.socks[s].conn);
    UnlistedShape(g, s, Lost);
    PushShape(g, CloseQueue, s);
  }

  /** Reader threads, and connection threads but for closing. */
  lemma OthersAreQuiet(d: Driver, lims: seq<Limits>, a: Action)
    requires Inv(d, |lims|) && !a.DriverThread? && !a.ConnClose?
    ensures var r := Step(d, lims, a);
            r.1 == lims && Quiet(d, r.0)
  {
    hide ListsOk; hide ConnsHold; hide QueueIs; hide PassIs; hide SocksFit; hide At; hide Quiet;
    hide Push; hide Take; hide AfterRead; hide Only;
    QuietSelf(d, d);
    match a
    case ReaderTake =>
      if At(d, ReadQueue) != [] {
        HeadFacts(d, ReadQueue, |lims|);
        PutShape(d, ReadQueue, At(d, ReadQueue)[0], PreQue, None, Reading);
        if At(d, ReadQueue)[0] < |d.socks| { QuietOne(d, Step(d, lims, a).0, At(d, ReadQueue)[0]); }
      }
    case ReaderReturn(i, result) =>
      if i < |At(d, Reading)| && !result.More? {
        ReaderReturnQuiet(d, i, result, |lims|);
      }
    case _ =>
      QuietSelf(d, Step(d, lims, a).0);
  }

  // ----- freeing and admitting -----

  lemma DiscountCounts(lims: seq<Limits>, c: Conn, l: nat)
    requires l < |lims| && (c.limits.Some? ==> c.limits.value < |lims|)
    ensures var r := Discount(lims, c);
            && |r| == |lims| && r[l].maxrun == lims[l].maxrun && r[l].maxwait == lims[l].maxwait
            && r[l].nrunning == lims[l].nrunning - One(c.limits == Some(l)) && r[l].nwaiting == lims[l].nwaiting
  {
  }

  lemma ReclaimShape(d: Driver, i: nat, nlims: nat)
    requires Inv(d, nlims) && i < |d.conns|
    ensures var e := Reclaim(d, i);
            e.conns == Without(d.conns, i) && SameWaits(d.socks, e.socks) && SameLost(d.socks, e.socks)
  {
    if d.conns[i].sock.Some? {
      HeldFacts(d, i, nlims);
      FreedShape(d.(conns := Without(d.conns, i)), d.conns[i].sock.value);
    }
    hide Inv; hide Without; hide Push; hide Set; hide ListsOk;
  }

  lemma ReclaimCounts(d: Driver, i: nat, l: nat, nlims: nat)
    requires Inv(d, nlims) && i < |d.conns|
    ensures var e := Reclaim(d, i);
            && Admitted(e.conns, l) == Admitted(d.conns, l) - One(d.conns[i].limits == Some(l))
            && Waiting(e.socks, l) == Waiting(d.socks, l)
            && SameWaits(d.socks, e.socks) && SameLost(d.socks, e.socks)
  {
    ReclaimShape(d, i, nlims);
    hide Inv; hide Without; hide Waiting; hide Admitted; hide Reclaim; hide SameLost;
    AdmittedWithout(d.conns, i, l);
    WaitingSame(d.socks, Reclaim(d, i).socks, l);
  }

  lemma FreeTracks(d: Driver, lims: seq<Limits>, l: nat)
    requires Inv(d, |lims|) && d.pc == FreePass && l < |lims|
    ensures Tracks(d, lims, FreeOne(d, lims).0, FreeOne(d, lims).1, l)
  {
    hide Inv; hide Waiting; hide Admitted; hide Reclaim; hide Discount; hide SameWaits; hide SameLost; hide NextFreeing;
    var i := NextFreeing(d.conns);
    if i == |d.conns| {
      QuietTracks(d, FreeOne(d, lims).0, lims, l);
    } else {
      ConnLimits(d, i, |lims|);
      ReclaimCounts(d, i, l, |lims|);
      DiscountCounts(lims, d.conns[i], l);
    }
  }

  lemma ConnLimits(d: Driver, i: nat, nlims: nat)
    requires Inv(d, nlims) && i < |d.conns|
    ensures d.conns[i].limits.Some? ==> d.conns[i].limits.value < nlims
  {
  }

  lemma FreedShape(e: Driver, s: nat)
    requires s < |e.socks| && !e.socks[s].state.RunWait? && e.socks[s].place != Lost
    ensures var f := Push(Set(e, s, CloseWait, e.socks[s].conn), Closing, s);
            SameWaits(e.socks, f.socks) && SameLost(e.socks, f.socks) && f.conns == e.conns
  {
  }

  ghost function One(b: bool): int {
    if b then 1 else 0
  }

  /** The counters of Limits `m` after a Sock with Limits `l` has been judged. */
  lemma JudgeCounts(lims: seq<Limits>, l: nat, was: bool, c: Choice, m: nat)
    requires l < |lims| && m < |lims|
    ensures var r := Judge(lims, l, was, c);
            && |r.1| == |lims| && r.1[m].maxrun == lims[m].maxrun && r.1[m].maxwait == lims[m].maxwait
            && r.1[m].nrunning == lims[m].nrunning + One(l == m && r.0 == Running)
            && r.1[m].nwaiting == lims[m].nwaiting - One(l == m && was) + One(l == m && r.0 == RunWait)
            && (lims[m].nrunning <= lims[m].maxrun ==> r.1[m].nrunning <= lims[m].maxrun)
            && (lims[m].nwaiting <= lims[m].maxwait ==> r.1[m].nwaiting <= lims[m].maxwait)
            && (r.0 == Running ==> lims[l].nrunning < lims[l].maxrun)
            && (r.0 == RunWait ==> lims[l].nrunning >= lims[l].maxrun)
            && (r.0 == Overflow ==> lims[l].nwaiting - One(was) >= lims[l].maxwait)
  {
  }

  /** The Socks and Conns after acting on the state decided. */
  lemma ActShape(e: Driver, s: nat, l: nat, state: SockState)
    requires s < |e.socks| && state in {RunWait, Dropped, Running, Timeout, Overflow}
    ensures var f := Act(e, s, l, state);
            && Only(e.socks, f.socks, s)
            && f.socks[s].state == (if state == Dropped then Closed else state) && f.socks[s].place != Lost
            && (state == RunWait ==> f.socks[s].conn == e.socks[s].conn)
            && (state in {RunWait, Dropped} ==> f.conns == e.conns)
            && (state !in {RunWait, Dropped} ==>
                  f.conns == e.conns + [Conn(Some(s), if state == Running then Some(l) else None, InUse)])
  {
    hide Push; hide Set; hide SockClose; hide Unlist;
    if state == RunWait {
      SetShape(e, s, RunWait, e.socks[s].conn);
      PushShape(Set(e, s, RunWait, e.socks[s].conn), Wait, s);
    } else if state == Dropped {
      SetShape(e, s, Dropped, e.socks[s].conn);
      ClosedShape(Set(e, s, Dropped, e.socks[s].conn), s);
    } else {
      SetShape(e, s, state, None);
      UnlistedShape(Set(e, s, state, None), s, Held);
    }
  }

  lemma ActCounts(e: Driver, s: nat, l: nat, state: SockState, m: nat)
    requires s < |e.socks| && state in {RunWait, Dropped, Running, Timeout, Overflow}
    requires e.socks[s].conn == Some(Some(l))
    ensures var f := Act(e, s, l, state);
            && Admitted(f.conns, m) == Admitted(e.conns, m) + One(l == m && state == Running)
            && Waiting(f.socks, m)
                 == Waiting(e.socks, m) - One(l == m && e.socks[s].state == RunWait) + One(l == m && state == RunWait)
  {
    hide Act; hide Waiting; hide Admitted;
    ActShape(e, s, l, state);
    WaitingOne(e.socks, Act(e, s, l, state).socks, s, m);
    AdmittedAppend(e.conns, Conn(Some(s), if state == Running then Some(l) else None, InUse), m);
  }

  /** An admission, seen from Limits `m`. */
  lemma AdmitTracks(d: Driver, lims: seq<Limits>, c: Choice, m: nat)
    requires Inv(d, |lims|) && d.pc == RunPass && m < |lims|
    ensures Tracks(d, lims, AdmitOne(d, lims, c).0, AdmitOne(d, lims, c).1, m)
  {
    hide Inv; hide Judge; hide Act; hide Waiting; hide Admitted;
    if d.pass == [] {
      QuietTracks(d, AdmitOne(d, lims, c).0, lims, m);
    } else {
      ParkedHead(d, |lims|);
      var s := d.pass[0];
      var l, was := d.socks[s].conn.value.value, d.socks[s].state == RunWait;
      JudgeCounts(lims, l, was, c, m);
      JudgedStates(lims, l, was, c);
      ActCounts(d.(pass := d.pass[1..]), s, l, Judge(lims, l, was, c).0, m);
    }
  }

  lemma JudgedStates(lims: seq<Limits>, l: nat, was: bool, c: Choice)
    requires l < |lims|
    ensures Judge(lims, l, was, c).0 in {RunWait, Dropped, Running, Timeout, Overflow}
  {
  }

  lemma StepTracks(d: Driver, lims: seq<Limits>, a: Action, l: nat)
    requires Inv(d, |lims|) && l < |lims|
    ensures var r := Step(d, lims, a); Tracks(d, lims, r.0, r.1, l)
  {
    hide Inv; hide Tracks; hide SameWaits; hide SameLimits; hide SameLost; hide AdmitOne; hide FreeOne; hide CloseConn;
    if a.DriverThread? && d.pc == FreePass {
      if !d.fatal && !d.crashed && Known(a.c.read, lims) { FreeTracks(d, lims, l); } else { IdleTracks(d, lims, l); }
    } else if a.DriverThread? && d.pc == RunPass {
      if !d.fatal && !d.crashed && Known(a.c.read, lims) {
        AdmitTracks(d, lims, a.c, l);
      } else {
        IdleTracks(d, lims, l);
      }
    } else {
      if a.DriverThread? {
        PassesAreQuiet(d, lims, a.c);
      } else if a.ConnClose? {
        if a.i < |d.conns| && d.conns[a.i].returned.InUse? {
          CloseConnLoses(d, a.i, a.keep, |lims|);
        } else {
          QuietSelf(d, d);
        }
      } else {
        OthersAreQuiet(d, lims, a);
      }
      QuietTracks(d, Step(d, lims, a).0, lims, l);
    }
  }

  lemma IdleTracks(d: Driver, lims: seq<Limits>, l: nat)
    requires l < |lims|
    ensures Tracks(d, lims, d, lims, l)
  {
  }
}
