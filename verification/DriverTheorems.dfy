/** What holds in every run of any number of drivers sharing their Limits. */
module DriverTheorems {
  import opened Common
  import opened Driver
  import opened DriverLaws
  import opened DriverSteps
  import opened DriverAdmission

  /** Drivers with nothing accepted yet, and Limits with nothing admitted yet. */
  ghost predicate Fresh(w: World) {
    && (forall i :: 0 <= i < |w.drivers| ==> IsFresh(w.drivers[i]))
    && (forall l :: 0 <= l < |w.limits| ==> w.limits[l].nrunning == 0 && w.limits[l].nwaiting == 0)
  }

  ghost predicate IsFresh(d: Driver) {
    exists async, n :: d == Init(async, n)
  }

  ghost predicate DriversInv(w: World) {
    forall i :: 0 <= i < |w.drivers| ==> Inv(w.drivers[i], |w.limits|)
  }

  ghost predicate Exact(w: World, l: nat)
    requires l < |w.limits|
  {
    && w.limits[l].nrunning == AllAdmitted(w.drivers, l) <= w.limits[l].maxrun
    && w.limits[l].nwaiting == AllWaiting(w.drivers, l) <= w.limits[l].maxwait
  }

  ghost predicate WorldInv(w: World) {
    DriversInv(w) && forall l :: 0 <= l < |w.limits| ==> Exact(w, l)
  }

  lemma {:induction false} NothingYet(drivers: seq<Driver>, l: nat)
    requires forall i :: 0 <= i < |drivers| ==> IsFresh(drivers[i])
    ensures AllAdmitted(drivers, l) == 0 && AllWaiting(drivers, l) == 0
  {
    if drivers != [] {
      NothingYet(drivers[..|drivers| - 1], l);
      var async, n :| drivers[|drivers| - 1] == Init(async, n);
      NoneWaiting(drivers[|drivers| - 1].socks, l);
    }
  }

  lemma {:induction false} NoneWaiting(socks: seq<Sock>, l: nat)
    requires forall s :: 0 <= s < |socks| ==> socks[s].state == Closed
    ensures Waiting(socks, l) == 0
  {
    if socks != [] {
      NoneWaiting(socks[..|socks| - 1], l);
    }
  }

  lemma FreshInv(w: World)
    requires Fresh(w)
    ensures WorldInv(w)
  {
    hide Inv;
    forall i | 0 <= i < |w.drivers| ensures Inv(w.drivers[i], |w.limits|) {
      var async, n :| w.drivers[i] == Init(async, n);
      InitIsInv(async, n, |w.limits|);
    }
    forall l | 0 <= l < |w.limits| ensures Exact(w, l) {
      NothingYet(w.drivers, l);
    }
  }

  lemma LimitsStay(d: Driver, lims: seq<Limits>, a: Action)
    requires Inv(d, |lims|)
    ensures |Step(d, lims, a).1| == |lims|
  {
    hide Inv; hide Step; hide Tracks;
    if lims == [] {
      NoLimits(d, a);
    } else {
      StepTracks(d, lims, a, 0);
      TracksSize(d, lims, Step(d, lims, a).0, Step(d, lims, a).1);
    }
  }

  lemma TracksSize(d: Driver, lims: seq<Limits>, d': Driver, lims': seq<Limits>)
    requires |lims| > 0 && Tracks(d, lims, d', lims', 0)
    ensures |lims'| == |lims|
  {
  }

  lemma NoLimits(d: Driver, a: Action)
    ensures Step(d, [], a).1 == []
  {
    hide Collect; hide ReadyOne; hide Splice; hide CloseOne; hide PreqOne; hide QueOne; hide Accept; hide Push;
    hide Set;
    hide Relabel; hide CloseConn;
  }

  lemma WorldStepKeeps(w: World, i: nat, a: Action)
    requires WorldInv(w)
    ensures WorldInv(WorldStep(w, i, a)) && |WorldStep(w, i, a).limits| == |w.limits|
    ensures |WorldStep(w, i, a).drivers| == |w.drivers|
  {
    hide Inv; hide Step; hide Waiting; hide Admitted; hide AllWaiting; hide AllAdmitted;
    if i < |w.drivers| {
      var d := w.drivers[i];
      var r := Step(d, w.limits, a);
      StepKeepsInv(d, w.limits, a);
      LimitsStay(d, w.limits, a);
      var v := World(w.drivers[i := r.0], r.1);
      forall l | 0 <= l < |w.limits| ensures Exact(v, l) {
        assert Exact(w, l);
        StepTracks(d, w.limits, a, l);
        AllOne(w.drivers, i, r.0, l);
      }
    }
  }

  lemma {:induction false} RunKeepsInv(w: World, actions: seq<(nat, Action)>)
    requires Fresh(w)
    ensures WorldInv(Reached(w, actions)) && |Reached(w, actions).limits| == |w.limits|
  {
    hide WorldInv; hide WorldStep; hide Fresh;
    if actions == [] {
      FreshInv(w);
    } else {
      var last := actions[|actions| - 1];
      RunKeepsInv(w, actions[..|actions| - 1]);
      WorldStepKeeps(Reached(w, actions[..|actions| - 1]), last.0, last.1);
    }
  }

  // ----- admission -----

  /** In every run, whatever drivers share Limits `l`: nrunning counts exactly the Conns
      admitted and not yet reclaimed, nwaiting exactly the Socks in RUNWAIT, and neither
      exceeds its maximum. */
  lemma CountersAreExact(w: World, actions: seq<(nat, Action)>, l: nat)
    requires Fresh(w) && l < |w.limits|
    ensures var v := Reached(w, actions);
            && |v.limits| == |w.limits|
            && v.limits[l].nrunning == AllAdmitted(v.drivers, l) <= v.limits[l].maxrun
            && v.limits[l].nwaiting == AllWaiting(v.drivers, l) <= v.limits[l].maxwait
  {
    RunKeepsInv(w, actions);
    assert Exact(Reached(w, actions), l);
  }

  lemma {:induction false} WaitingSome(socks: seq<Sock>, s: nat, l: nat)
    requires s < |socks| && WaitsFor(socks[s], l)
    ensures Waiting(socks, l) > 0
  {
    if s < |socks| - 1 {
      WaitingSome(socks[..|socks| - 1], s, l);
    }
  }

  /** A Conn that has once been told to wait is never turned away for lack of room. */
  lemma WaitersAreNotRefused(w: World, actions: seq<(nat, Action)>, i: nat, a: Action, s: nat)
    requires Fresh(w)
    ensures var v := Reached(w, actions);
            i < |v.drivers| && s < |v.drivers[i].socks| && v.drivers[i].socks[s].state == RunWait ==>
              var socks' := WorldStep(v, i, a).drivers[i].socks;
              s < |socks'| && socks'[s].state in {RunWait, Running, Timeout, Closed}
  {
    var v := Reached(w, actions);
    RunKeepsInv(w, actions);
    if i < |v.drivers| && s < |v.drivers[i].socks| && v.drivers[i].socks[s].state == RunWait {
      StepOfWaiter(v, i, a, s);
    }
  }

  lemma StepOfWaiter(v: World, i: nat, a: Action, s: nat)
    requires WorldInv(v) && i < |v.drivers| && s < |v.drivers[i].socks| && v.drivers[i].socks[s].state == RunWait
    ensures var d' := Step(v.drivers[i], v.limits, a).0;
            s < |d'.socks| && d'.socks[s].state in {RunWait, Running, Timeout, Closed}
  {
    hide Inv; hide AdmitOne; hide FreeOne; hide SockFits; hide Exact;
    var d := v.drivers[i];
    assert Inv(d, |v.limits|);
    if a.DriverThread? && d.pc == FreePass {
      if !d.fatal && !d.crashed && Known(a.c.read, v.limits) { FreeIsQuiet(d, v.limits); }
    } else if a.DriverThread? && d.pc == RunPass {
      if !d.fatal && !d.crashed && Known(a.c.read, v.limits) { AdmitWaiter(v, i, a.c, s); }
    } else {
      OtherStepsKeepWaits(d, v.limits, a);
    }
  }

  lemma OtherStepsKeepWaits(d: Driver, lims: seq<Limits>, a: Action)
    requires Inv(d, |lims|) && (a.DriverThread? ==> d.pc != FreePass && d.pc != RunPass)
    ensures SameWaits(d.socks, Step(d, lims, a).0.socks)
  {
    hide Inv; hide ThreadStep; hide CloseConn; hide SameWaits; hide SameLost; hide SameLimits;
    if a.DriverThread? {
      PassesAreQuiet(d, lims, a.c);
    } else if a.ConnClose? {
      QuietSelf(d, d);
      SameLimitsSelf(d.conns);
      if a.i < |d.conns| && d.conns[a.i].returned.InUse? { CloseConnLoses(d, a.i, a.keep, |lims|); }
    } else {
      OthersAreQuiet(d, lims, a);
    }
  }

  lemma FreeIsQuiet(d: Driver, lims: seq<Limits>)
    requires Inv(d, |lims|) && d.pc == FreePass
    ensures SameWaits(d.socks, FreeOne(d, lims).0.socks)
  {
    var i := NextFreeing(d.conns);
    if i < |d.conns| {
      hide Inv; hide Reclaim;
      ReclaimCounts(d, i, 0, |lims|);
    }
  }

  /** A waiting Sock is counted, so its leaving makes room. */
  lemma WaiterIsCounted(v: World, i: nat, s: nat, l: nat)
    requires WorldInv(v) && i < |v.drivers| && s < |v.drivers[i].socks| && l < |v.limits|
    requires WaitsFor(v.drivers[i].socks[s], l)
    ensures 0 < v.limits[l].nwaiting <= v.limits[l].maxwait
  {
    hide Inv;
    assert Exact(v, l);
    WaitingSome(v.drivers[i].socks, s, l);
    AllOne(v.drivers, i, v.drivers[i], l);
  }

  lemma AdmitWaiter(v: World, i: nat, c: Choice, s: nat)
    requires WorldInv(v) && i < |v.drivers| && s < |v.drivers[i].socks| && v.drivers[i].socks[s].state == RunWait
    requires v.drivers[i].pc == RunPass
    ensures var d' := AdmitOne(v.drivers[i], v.limits, c).0;
            s < |d'.socks| && d'.socks[s].state in {RunWait, Running, Timeout, Closed}
  {
    var d := v.drivers[i];
    assert Inv(d, |v.limits|);
    hide Inv;
    if d.pass != [] {
      ParkedHead(d, |v.limits|);
      var t := d.pass[0];
      var l := d.socks[t].conn.value.value;
      if t == s { WaiterIsCounted(v, i, s, l); }
      hide WorldInv;
      AdmitOther(d, v.limits, c, s);
    }
  }

  lemma AdmitOther(d: Driver, lims: seq<Limits>, c: Choice, s: nat)
    requires d.pass != [] && d.pass[0] < |d.socks| && HasLimits(d.socks[d.pass[0]], |lims|)
    requires s < |d.socks| && d.socks[s].state == RunWait
    requires d.pass[0] == s ==> var l := d.socks[s].conn.value.value; lims[l].nwaiting <= lims[l].maxwait
    ensures var d' := AdmitOne(d, lims, c).0;
            s < |d'.socks| && d'.socks[s].state in {RunWait, Running, Timeout, Closed}
  {
    hide Act; hide Judge; hide Only;
    var t := d.pass[0];
    var l, was := d.socks[t].conn.value.value, d.socks[t].state == RunWait;
    JudgeCounts(lims, l, was, c, l);
    JudgedStates(lims, l, was, c);
    ActShape(d.(pass := d.pass[1..]), t, l, Judge(lims, l, was, c).0);
    OnlyOther(d.socks, AdmitOne(d, lims, c).0.socks, t, s);
  }

  lemma OnlyOther(socks: seq<Sock>, socks': seq<Sock>, t: nat, s: nat)
    requires Only(socks, socks', t) && s < |socks|
    ensures s < |socks'| && (s != t ==> socks'[s] == socks[s])
  {
  }

  // ----- ownership -----

  /** The Sock is on one of the lists, or on the FIFO, or held by a Conn. */
  ghost predicate Reachable(d: Driver, s: nat) {
    || (exists p :: Listed(p) && s in At(d, p))
    || s in d.fifo || s in d.pass
    || (exists i :: 0 <= i < |d.conns| && d.conns[i].sock == Some(s))
  }

  lemma LostIsUnreachable(d: Driver, s: nat, nlims: nat)
    requires Inv(d, nlims) && s < |d.socks|
    ensures !Reachable(d, s) <==> d.socks[s].place == Lost
  {
    var q := d.fifo + d.pass;
    var k := d.socks[s];
    if Listed(k.place) {
      assert ListOk(d, k.place, NONE);
      assert s in At(d, k.place);
    } else if k.place == Parked {
      assert InFifo(k) && s in q;
    } else if k.place == Lost {
      forall p | Listed(p) ensures s !in At(d, p) {
        assert ListOk(d, p, NONE);
      }
      NotQueued(d, s);
    }
  }

  /** In every run, in every driver: no Sock is on a list twice or on two lists; a Sock held
      by a Conn is held by one Conn only and is on no list; active and free Socks add up; no
      Sock was ever closed twice for one accept; and the wait list's fatal "impossible
      state" was never met. */
  lemma EachSockHasOneOwner(w: World, actions: seq<(nat, Action)>, i: nat)
    requires Fresh(w) && i < |Reached(w, actions).drivers|
    ensures var d := Reached(w, actions).drivers[i];
            && (forall p :: Listed(p) ==> NoDup(At(d, p)))
            && (forall p, q, s :: Listed(p) && Listed(q) && s in At(d, p) && s in At(d, q) ==> p == q)
            && (forall j, k :: 0 <= j < k < |d.conns| && d.conns[j].sock.Some? ==> d.conns[j].sock != d.conns[k].sock)
            && (forall j, p :: 0 <= j < |d.conns| && d.conns[j].sock.Some? && Listed(p) ==>
                  d.conns[j].sock.value !in At(d, p))
            && d.nactive + |At(d, Free)| == |d.socks|
            && !d.reclosed && !d.fatal
  {
    RunKeepsInv(w, actions);
    var v := Reached(w, actions);
    OneOwner(v.drivers[i], |v.limits|);
  }

  lemma OneOwner(d: Driver, nlims: nat)
    requires Inv(d, nlims)
    ensures forall p :: Listed(p) ==> NoDup(At(d, p))
    ensures forall p, q, s :: Listed(p) && Listed(q) && s in At(d, p) && s in At(d, q) ==> p == q
    ensures forall j, p :: 0 <= j < |d.conns| && d.conns[j].sock.Some? && Listed(p) ==>
              d.conns[j].sock.value !in At(d, p)
  {
    hide SocksFit; hide QueueIs; hide PassIs;
    forall p | Listed(p)
      ensures NoDup(At(d, p)) && forall s :: s in At(d, p) ==> s < |d.socks| && d.socks[s].place == p
    {
      assert ListOk(d, p, NONE);
    }
  }

  // ----- following a NULL Conn -----

  ghost predicate Calm(d: Driver) {
    !d.shutdown && !d.stop && !d.connless
  }

  lemma ReadStaysCalm(d: Driver, e: Driver, s: nat, c: Choice)
    requires Calm(d) && Calm(e) && s < |d.socks| == |e.socks|
    ensures Calm(ReadOrWait(d, e, s, c))
  {
    hide At; hide Set; hide AfterRead; hide Push; hide SockClose;
  }

  lemma PollStaysCalm(d: Driver, e: Driver, s: nat, c: Choice)
    requires Calm(d) && Calm(e) && s < |d.socks| == |e.socks|
    ensures Calm(Poll(d, e, s, c))
  {
    ReadStaysCalm(d, e, s, c);
    hide At; hide Push; hide Unlist; hide SockClose; hide ReadOrWait;
  }

  lemma ReadyStaysCalm(d: Driver, c: Choice)
    requires Calm(d)
    ensures Calm(ReadyOne(d, c))
  {
    if At(d, Ready) != [] && At(d, Ready)[0] < |d.socks| {
      PollStaysCalm(d, Take(d, Ready), At(d, Ready)[0], c);
    }
    hide At; hide Take; hide Poll;
  }

  lemma PassesStayCalm(d: Driver, c: Choice)
    requires Calm(d)
    ensures Calm(ReadyOne(d, c)) && Calm(CloseOne(d, c)) && Calm(PreqOne(d)) && Calm(QueOne(d))
  {
    ReadyStaysCalm(d, c);
    hide At; hide Set; hide Take; hide Push; hide SockClose; hide ReadyOne; hide Arrive;
  }

  lemma EndsStayCalm(d: Driver, lims: seq<Limits>, c: Choice)
    requires Calm(d)
    ensures Calm(Collect(d)) && Calm(FreeOne(d, lims).0) && Calm(Accept(d, c))
  {
    hide At; hide Set; hide Relabel; hide Splice; hide Reclaim; hide Discount; hide Take; hide Push;
  }

  lemma AdmitStaysCalm(d: Driver, lims: seq<Limits>, c: Choice)
    requires Calm(d)
    ensures Calm(AdmitOne(d, lims, c).0)
  {
    hide Act; hide Judge;
    if d.pass != [] && d.pass[0] < |d.socks| && HasLimits(d.socks[d.pass[0]], |lims|) {
      var s := d.pass[0];
      var l, was := d.socks[s].conn.value.value, d.socks[s].state == RunWait;
      ActFrame(d.(pass := d.pass[1..]), s, l, Judge(lims, l, was, c).0);
      assert AdmitOne(d, lims, c).0 == Act(d.(pass := d.pass[1..]), s, l, Judge(lims, l, was, c).0);
      hide AdmitOne;
    }
  }

  lemma ThreadStaysCalm(d: Driver, lims: seq<Limits>, c: Choice)
    requires Calm(d)
    ensures Calm(ThreadStep(d, lims, c).0)
  {
    PassesStayCalm(d, c);
    EndsStayCalm(d, lims, c);
    AdmitStaysCalm(d, lims, c);
    hide ReadyOne; hide CloseOne; hide PreqOne; hide QueOne; hide Collect; hide FreeOne; hide Accept; hide AdmitOne;
    hide Splice; hide Known;
  }

  lemma StaysCalm(d: Driver, lims: seq<Limits>, a: Action)
    requires Calm(d) && !a.Shutdown?
    ensures Calm(Step(d, lims, a).0)
  {
    hide At; hide Set; hide AfterRead; hide Take; hide Push; hide Unlist; hide Without; hide Known; hide ThreadStep;
    if a.ConnClose? && a.i < |d.conns| { CloseConnFrame(d, a.i, a.keep); }
    hide CloseConn;
    if a.DriverThread? { ThreadStaysCalm(d, lims, a.c); }
  }

  /** The driver thread does not follow the NULL Conn of a Sock waiting for a request, in any
      run before shutdown is requested. (After it, CloseOne may put back a keep-alive Sock
      without a Conn.) */
  lemma {:induction false} NoCrashBeforeShutdown(w: World, actions: seq<(nat, Action)>, i: nat)
    requires Fresh(w) && i < |w.drivers| && forall n :: 0 <= n < |actions| ==> actions[n] != (i, Shutdown)
    ensures var v := Reached(w, actions);
            i < |v.drivers| && Calm(v.drivers[i]) && !v.drivers[i].crashed
  {
    hide Step; hide Inv; hide Calm; hide WorldInv;
    RunKeepsInv(w, actions);
    if actions == [] {
      FreshIsCalm(w.drivers[i]);
    } else {
      NoCrashBeforeShutdown(w, actions[..|actions| - 1], i);
      var v, last := Reached(w, actions[..|actions| - 1]), actions[|actions| - 1];
      if last.0 == i {
        StaysCalm(v.drivers[i], v.limits, last.1);
      }
    }
    CalmIsSound(Reached(w, actions), i);
  }

  lemma FreshIsCalm(d: Driver)
    requires IsFresh(d)
    ensures Calm(d)
  {
  }

  lemma CalmIsSound(v: World, i: nat)
    requires WorldInv(v) && i < |v.drivers| && Calm(v.drivers[i])
    ensures !v.drivers[i].crashed
  {
    assert Inv(v.drivers[i], |v.limits|);
  }

  // ----- the leak -----

  /** Closing the Conn of a Sock that had been refused, rather than run. */
  ghost predicate ClosesRefused(d: Driver, a: Action, s: nat)
    requires s < |d.socks|
  {
    && a.ConnClose? && a.i < |d.conns| && d.conns[a.i].returned.InUse?
    && d.conns[a.i].sock == Some(s) && d.socks[s].state in {Timeout, Overflow}
  }

  lemma StepLoses(d: Driver, lims: seq<Limits>, a: Action, s: nat)
    requires Inv(d, |lims|) && s < |d.socks|
    ensures var d' := Step(d, lims, a).0;
            && |d'.socks| == |d.socks|
            && (d'.socks[s].place == Lost <==> d.socks[s].place == Lost || ClosesRefused(d, a, s))
  {
    hide Inv; hide ThreadStep; hide CloseConn; hide SameWaits; hide SameLimits;
    if a.DriverThread? {
      ThreadLosesNone(d, lims, a.c);
    } else if a.ConnClose? {
      if a.i < |d.conns| && d.conns[a.i].returned.InUse? {
        CloseConnLoses(d, a.i, a.keep, |lims|);
        SizeOfWaits(d.socks, CloseConn(d, a.i, a.keep).socks);
      }
    } else {
      OthersAreQuiet(d, lims, a);
    }
  }

  lemma SizeOfWaits(socks: seq<Sock>, socks': seq<Sock>)
    requires SameWaits(socks, socks')
    ensures |socks'| == |socks|
  {
  }

  lemma ThreadLosesNone(d: Driver, lims: seq<Limits>, c: Choice)
    requires Inv(d, |lims|)
    ensures SameLost(d.socks, ThreadStep(d, lims, c).0.socks)
  {
    hide Inv; hide FreeOne; hide AdmitOne; hide SameWaits; hide SameLimits; hide Collect;
    hide ReadyOne; hide Splice; hide CloseOne; hide PreqOne; hide QueOne; hide Accept;
    if d.pc == FreePass {
      FreeLosesNone(d, lims);
    } else if d.pc == RunPass {
      AdmitLosesNone(d, lims, c);
    } else {
      PassesAreQuiet(d, lims, c);
    }
  }

  lemma FreeLosesNone(d: Driver, lims: seq<Limits>)
    requires Inv(d, |lims|) && d.pc == FreePass
    ensures SameLost(d.socks, FreeOne(d, lims).0.socks)
  {
    var i := NextFreeing(d.conns);
    if i < |d.conns| {
      hide Inv; hide Reclaim; hide SameLost;
      ReclaimCounts(d, i, 0, |lims|);
    }
  }

  lemma AdmitLosesNone(d: Driver, lims: seq<Limits>, c: Choice)
    requires Inv(d, |lims|) && d.pc == RunPass
    ensures SameLost(d.socks, AdmitOne(d, lims, c).0.socks)
  {
    hide Inv; hide Act; hide Judge;
    if d.pass != [] {
      ParkedHead(d, |lims|);
      var t := d.pass[0];
      var l, was := d.socks[t].conn.value.value, d.socks[t].state == RunWait;
      JudgedStates(lims, l, was, c);
      ActShape(d.(pass := d.pass[1..]), t, l, Judge(lims, l, was, c).0);
    }
  }

  /** A Sock is lost, that is no list, queue or Conn leads to it any more, exactly when a
      connection thread closes the Conn of a Sock that had timed out or overflowed. */
  lemma SocksAreLostByRefusal(w: World, actions: seq<(nat, Action)>, i: nat, a: Action, s: nat)
    requires Fresh(w) && i < |Reached(w, actions).drivers| && s < |Reached(w, actions).drivers[i].socks|
    ensures var d, d' := Reached(w, actions).drivers[i], Reached(w, actions + [(i, a)]).drivers[i];
            s < |d'.socks| && (!Reachable(d', s) <==> !Reachable(d, s) || ClosesRefused(d, a, s))
  {
    hide Inv; hide Step; hide Reachable; hide Exact;
    var v := Reached(w, actions);
    RunKeepsInv(w, actions);
    RunKeepsInv(w, actions + [(i, a)]);
    assert (actions + [(i, a)])[..|actions|] == actions;
    StepLoses(v.drivers[i], v.limits, a, s);
    LostIsUnreachable(v.drivers[i], s, |v.limits|);
    LostIsUnreachable(Reached(w, actions + [(i, a)]).drivers[i], s, |v.limits|);
  }

  lemma WorldStepKeepsLost(v: World, j: nat, a: Action, i: nat, s: nat)
    requires WorldInv(v) && i < |v.drivers| && s < |v.drivers[i].socks| && v.drivers[i].socks[s].place == Lost
    ensures var v' := WorldStep(v, j, a);
            i < |v'.drivers| && s < |v'.drivers[i].socks| && v'.drivers[i].socks[s].place == Lost
  {
    hide Inv; hide Step;
    if i == j {
      StepLoses(v.drivers[i], v.limits, a, s);
    }
  }

  lemma {:induction false} DistinctBelow(l: seq<nat>, n: nat, s: nat)
    requires NoDup(l) && s < n && s !in l && forall i :: 0 <= i < |l| ==> l[i] < n
    ensures |l| < n
  {
    Interval(n);
    DistinctIn(l, Below(n) - {s});
    assert Below(n) - {s} + {s} == Below(n);
  }

  ghost function Below(n: nat): (r: set<nat>)
    ensures forall x: nat :: x in r <==> x < n
  {
    if n == 0 then {} else Below(n - 1) + {n - 1}
  }

  lemma {:induction false} Interval(n: nat)
    ensures |Below(n)| == n
  {
    if n > 0 {
      Interval(n - 1);
    }
  }

  lemma {:induction false} DistinctIn(l: seq<nat>, t: set<nat>)
    requires NoDup(l) && forall i :: 0 <= i < |l| ==> l[i] in t
    ensures |l| <= |t|
  {
    if l != [] {
      var n := |l| - 1;
      DistinctIn(l[..n], t - {l[n]});
    }
  }

  lemma LostIsActive(d: Driver, s: nat, nlims: nat)
    requires Inv(d, nlims) && s < |d.socks| && d.socks[s].place == Lost
    ensures d.nactive > 0 && !Finished(d)
  {
    assert ListOk(d, Free, NONE);
    DistinctBelow(At(d, Free), |d.socks|, s);
  }

  /** A lost Sock stays lost and stays counted as active whatever happens next, so the loop
      of its driver thread, which waits for nactive to be 0, never ends. */
  lemma {:induction false} LostForever(w: World, actions: seq<(nat, Action)>, more: seq<(nat, Action)>, i: nat, s: nat)
    requires Fresh(w) && i < |Reached(w, actions).drivers| && s < |Reached(w, actions).drivers[i].socks|
    requires !Reachable(Reached(w, actions).drivers[i], s)
    ensures var v := Reached(w, actions + more);
            && i < |v.drivers| && s < |v.drivers[i].socks| && !Reachable(v.drivers[i], s)
            && v.drivers[i].nactive > 0 && !Finished(v.drivers[i])
    decreases |more|
  {
    hide Inv; hide WorldStep; hide Exact; hide Reachable; hide Fresh; hide Finished; hide WorldInv;
    var v := Reached(w, actions + more);
    RunKeepsInv(w, actions + more);
    if more == [] {
      assert actions + more == actions;
    } else {
      var rest, last := more[..|more| - 1], more[|more| - 1];
      LostForever(w, actions, rest, i, s);
      RunKeepsInv(w, actions + rest);
      assert (actions + more)[..|actions + more| - 1] == actions + rest;
      LostPlace(Reached(w, actions + rest), i, s);
      WorldStepKeepsLost(Reached(w, actions + rest), last.0, last.1, i, s);
    }
    LostPlace(v, i, s);
  }

  lemma LostPlace(v: World, i: nat, s: nat)
    requires WorldInv(v) && i < |v.drivers| && s < |v.drivers[i].socks|
    ensures !Reachable(v.drivers[i], s) <==> v.drivers[i].socks[s].place == Lost
    ensures v.drivers[i].socks[s].place == Lost ==> v.drivers[i].nactive > 0 && !Finished(v.drivers[i])
  {
    hide Inv; hide Reachable;
    LostIsUnreachable(v.drivers[i], s, |v.limits|);
    if v.drivers[i].socks[s].place == Lost { LostIsActive(v.drivers[i], s, |v.limits|); }
  }
}
