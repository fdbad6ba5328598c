/** Waiting is fair: a Limits that only one driver uses is granted in order of arrival. */
module DriverFairness {
  import opened Common
  import opened Driver
  import opened DriverLaws
  import opened DriverSteps
  import opened DriverAdmission
  import opened DriverTheorems

  /** No driver but `k` has a connection with Limits `l`. */
  ghost predicate UsedOnlyBy(v: World, k: nat, l: nat) {
    forall j :: 0 <= j < |v.drivers| && j != k ==> Unused(v.drivers[j].socks, l)
  }

  ghost predicate Unused(socks: seq<Sock>, l: nat) {
    forall s :: 0 <= s < |socks| ==> socks[s].conn != Some(Some(l))
  }

  /** At no moment of the run. */
  ghost predicate Exclusive(w: World, actions: seq<(nat, Action)>, k: nat, l: nat) {
    forall n :: 0 <= n <= |actions| ==> UsedOnlyBy(Reached(w, actions[..n]), k, l)
  }

  /** The Conn of the Sock is queued and has Limits `l`. */
  ghost predicate Queued(k: Sock, l: nat) {
    InFifo(k) && k.conn == Some(Some(l))
  }

  /** During a pass, if a Sock with Limits `l` has already been left waiting, then no more
      can be admitted. */
  ghost predicate Blocked(d: Driver, lims: seq<Limits>, l: nat)
    requires l < |lims|
  {
    d.pc == RunPass ==>
      forall i :: 0 <= i < |d.fifo| && d.fifo[i] < |d.socks| && d.socks[d.fifo[i]].conn == Some(Some(l)) ==>
        lims[l].nrunning >= lims[l].maxrun
  }

  ghost predicate Fair(v: World, k: nat, l: nat)
    requires l < |v.limits|
  {
    && (forall j :: 0 <= j < |v.drivers| && j != k ==> Admitted(v.drivers[j].conns, l) == 0)
    && (k < |v.drivers| ==> Blocked(v.drivers[k], v.limits, l))
  }

  // ----- drivers that do not use the Limits leave it alone -----

  lemma ForeignStep(d: Driver, lims: seq<Limits>, a: Action, l: nat)
    requires Inv(d, |lims|) && l < |lims| && Unused(d.socks, l) && Admitted(d.conns, l) == 0
    ensures var r := Step(d, lims, a);
            |r.1| == |lims| && Admitted(r.0.conns, l) == 0
            && r.1[l].nrunning == lims[l].nrunning && r.1[l].maxrun == lims[l].maxrun
  {
    hide Inv; hide Admitted; hide Waiting; hide Step; hide Unused;
    StepTracks(d, lims, a, l);
    ForeignAdmits(d, lims, a, l);
  }

  lemma ForeignAdmits(d: Driver, lims: seq<Limits>, a: Action, l: nat)
    requires Inv(d, |lims|) && l < |lims| && Unused(d.socks, l) && Admitted(d.conns, l) == 0
    ensures Admitted(Step(d, lims, a).0.conns, l) == 0
  {
    hide Inv; hide Admitted; hide AdmitOne; hide FreeOne; hide CloseConn; hide SameWaits; hide SameLost;
    hide SameLimits;
    hide Collect; hide ReadyOne; hide Splice; hide CloseOne; hide PreqOne; hide QueOne; hide Accept; hide Unused;
    if a.DriverThread? && d.pc == FreePass {
      ForeignFree(d, lims, l);
    } else if a.DriverThread? && d.pc == RunPass {
      ForeignAdmit(d, lims, a.c, l);
    } else {
      OtherStepsKeepLimits(d, lims, a);
      SameAdmitted(d.conns, Step(d, lims, a).0.conns, l);
    }
  }

  lemma SameAdmitted(conns: seq<Conn>, conns': seq<Conn>, l: nat)
    requires SameLimits(conns, conns')
    ensures Admitted(conns', l) == Admitted(conns, l)
  {
    AdmittedSame(conns, conns', l);
  }

  lemma OtherStepsKeepLimits(d: Driver, lims: seq<Limits>, a: Action)
    requires Inv(d, |lims|) && (a.DriverThread? ==> d.pc != FreePass && d.pc != RunPass)
    ensures SameLimits(d.conns, Step(d, lims, a).0.conns)
  {
    hide Inv; hide ThreadStep; hide CloseConn; hide SameWaits; hide SameLost; hide SameLimits;
    if a.DriverThread? {
      PassesAreQuiet(d, lims, a.c);
    } else if a.ConnClose? {
      SameLimitsSelf(d.conns);
      if a.i < |d.conns| && d.conns[a.i].returned.InUse? { CloseConnLoses(d, a.i, a.keep, |lims|); }
    } else {
      OthersAreQuiet(d, lims, a);
    }
  }

  lemma ForeignFree(d: Driver, lims: seq<Limits>, l: nat)
    requires Inv(d, |lims|) && d.pc == FreePass && Admitted(d.conns, l) == 0
    ensures Admitted(FreeOne(d, lims).0.conns, l) == 0
  {
    var i := NextFreeing(d.conns);
    if i < |d.conns| {
      hide Inv; hide Reclaim; hide Admitted;
      ReclaimCounts(d, i, l, |lims|);
    }
  }

  lemma ForeignAdmit(d: Driver, lims: seq<Limits>, c: Choice, l: nat)
    requires Inv(d, |lims|) && d.pc == RunPass && Unused(d.socks, l) && Admitted(d.conns, l) == 0
    ensures Admitted(AdmitOne(d, lims, c).0.conns, l) == 0
  {
    hide Inv; hide Judge; hide Act; hide Waiting; hide Admitted;
    if d.pass != [] {
      ParkedHead(d, |lims|);
      var s := d.pass[0];
      var m, was := d.socks[s].conn.value.value, d.socks[s].state == RunWait;
      JudgedStates(lims, m, was, c);
      ActCounts(d.(pass := d.pass[1..]), s, m, Judge(lims, m, was, c).0, l);
    }
  }

  // ----- the driver that does -----

  lemma ReadStaysOut(d: Driver, e: Driver, s: nat, c: Choice)
    requires d.pc == e.pc && s < |d.socks| == |e.socks|
    ensures ReadOrWait(d, e, s, c).pc == d.pc
  {
    hide At; hide Set; hide AfterRead; hide Push; hide SockClose;
  }

  lemma PollStaysOut(d: Driver, e: Driver, s: nat, c: Choice)
    requires d.pc == e.pc && s < |d.socks| == |e.socks|
    ensures Poll(d, e, s, c).pc == d.pc
  {
    hide At; hide Push; hide Unlist; hide SockClose; hide ReadOrWait;
    ReadStaysOut(d, e, s, c);
  }

  lemma ReadyStaysOut(d: Driver, c: Choice)
    requires d.pc == ReadyPass
    ensures ReadyOne(d, c).pc != RunPass
  {
    hide At; hide Take; hide Poll;
    if At(d, Ready) != [] && At(d, Ready)[0] < |d.socks| {
      PollStaysOut(d, Take(d, Ready), At(d, Ready)[0], c);
    }
  }

  lemma CloseStaysOut(d: Driver, c: Choice)
    requires d.pc == ClosePass
    ensures CloseOne(d, c).pc != RunPass
  {
    hide At; hide Set; hide Take; hide Push; hide SockClose;
  }

  lemma PreqStaysOut(d: Driver)
    requires d.pc == PreqPass
    ensures PreqOne(d).pc != RunPass
  {
    hide At; hide Take; hide Push; hide SockClose;
  }

  lemma QueBegins(d: Driver)
    requires d.pc == QuePass
    ensures QueOne(d).pc == RunPass ==> QueOne(d).fifo == []
  {
    hide At; hide Take; hide SockClose; hide Arrive;
  }

  lemma EndsStayOut(d: Driver, lims: seq<Limits>, c: Choice)
    ensures d.pc == Top ==> Collect(d).pc != RunPass
    ensures d.pc == FreePass ==> FreeOne(d, lims).0.pc != RunPass
    ensures d.pc == AcceptStep ==> Accept(d, c).pc != RunPass
  {
    hide At; hide Set; hide Relabel; hide Splice; hide Reclaim; hide Discount; hide Take; hide Push;
  }

  /** The admission pass begins with an empty FIFO. */
  lemma PassBegins(d: Driver, lims: seq<Limits>, c: Choice)
    requires d.pc != RunPass
    ensures var e := ThreadStep(d, lims, c).0; e.pc == RunPass ==> e.fifo == []
  {
    if d.pc == ReadyPass { ReadyStaysOut(d, c); }
    if d.pc == ClosePass { CloseStaysOut(d, c); }
    if d.pc == PreqPass { PreqStaysOut(d); }
    if d.pc == QuePass { QueBegins(d); }
    EndsStayOut(d, lims, c);
    hide ReadyOne; hide CloseOne; hide PreqOne; hide QueOne; hide Collect; hide FreeOne; hide Accept; hide Splice;
    hide Known;
  }

  lemma OtherThreadsPc(d: Driver, lims: seq<Limits>, a: Action)
    requires !a.DriverThread?
    ensures var e := Step(d, lims, a).0; e.pc == d.pc && e.fifo == d.fifo
  {
    hide Known; hide At; hide Set; hide AfterRead; hide Take; hide Push; hide Unlist; hide Without; hide CloseConn;
    match a {
      case ReaderTake =>
      case ReaderReturn(i, result) => ReaderReturnPc(d, lims, i, result);
      case ConnClose(i, keep) => if i < |d.conns| { CloseConnFrame(d, i, keep); }
      case _ =>
    }
  }

  lemma ReaderReturnPc(d: Driver, lims: seq<Limits>, i: nat, result: ReadResult)
    ensures var e := Step(d, lims, ReaderReturn(i, result)).0; e.pc == d.pc && e.fifo == d.fifo
  {
    hide Known; hide At; hide AfterRead; hide Push; hide Without;
  }

  lemma WaitersOfPass(d: Driver, i: nat, nlims: nat)
    requires Inv(d, nlims) && d.pc == RunPass && i < |d.fifo|
    ensures d.fifo[i] < |d.socks| && d.socks[d.fifo[i]].state == RunWait && d.fifo[i] !in d.pass
  {
    var q := d.fifo + d.pass;
    assert q[i] == d.fifo[i];
    forall j | 0 <= j < |d.pass| ensures d.pass[j] != d.fifo[i] {
      assert q[|d.fifo| + j] == d.pass[j];
    }
  }

  lemma OwnerStep(d: Driver, lims: seq<Limits>, a: Action, l: nat)
    requires Inv(d, |lims|) && l < |lims| && Blocked(d, lims, l)
    ensures |Step(d, lims, a).1| == |lims| && Blocked(Step(d, lims, a).0, Step(d, lims, a).1, l)
  {
    hide Inv; hide AdmitOne; hide ThreadStep; hide CloseConn;
    LimitsStay(d, lims, a);
    if !a.DriverThread? {
      OtherThreadsPc(d, lims, a);
      OtherStepsKeepWaits(d, lims, a);
      OtherLims(d, lims, a);
      if d.pc == RunPass { SameFifo(d, Step(d, lims, a).0, lims, l); }
    } else if d.pc != RunPass {
      PassBegins(d, lims, a.c);
    } else {
      OwnerThread(d, lims, a.c, l);
    }
  }

  lemma OtherLims(d: Driver, lims: seq<Limits>, a: Action)
    requires !a.DriverThread?
    ensures Step(d, lims, a).1 == lims
  {
    hide Known;
  }

  lemma SameFifo(d: Driver, e: Driver, lims: seq<Limits>, l: nat)
    requires Inv(d, |lims|) && l < |lims| && Blocked(d, lims, l) && d.pc == RunPass
    requires SameWaits(d.socks, e.socks) && e.fifo == d.fifo
    ensures Blocked(e, lims, l)
  {
    hide Inv;
    forall i | 0 <= i < |d.fifo| ensures d.fifo[i] < |d.socks| && e.socks[d.fifo[i]].conn == d.socks[d.fifo[i]].conn {
      WaitersOfPass(d, i, |lims|);
    }
  }

  lemma OwnerThread(d: Driver, lims: seq<Limits>, c: Choice, l: nat)
    requires Inv(d, |lims|) && l < |lims| && Blocked(d, lims, l) && d.pc == RunPass
    ensures var r := ThreadStep(d, lims, c); |r.1| == |lims| && Blocked(r.0, r.1, l)
  {
    hide Inv; hide Blocked; hide AdmitOne;
    if !d.fatal && !d.crashed && Known(c.read, lims) {
      OwnerAdmits(d, lims, c, l);
    }
  }

  lemma OwnerAdmits(d: Driver, lims: seq<Limits>, c: Choice, l: nat)
    requires Inv(d, |lims|) && l < |lims| && Blocked(d, lims, l) && d.pc == RunPass
    ensures var r := AdmitOne(d, lims, c); |r.1| == |lims| && Blocked(r.0, r.1, l)
  {
    hide Inv; hide Judge; hide Act; hide Only; hide Blocked;
    if d.pass == [] {
      PassOver(d, lims, l);
    } else {
      ParkedHead(d, |lims|);
      var s := d.pass[0];
      var m, was := d.socks[s].conn.value.value, d.socks[s].state == RunWait;
      var e := d.(pass := d.pass[1..]);
      var j := Judge(lims, m, was, c);
      JudgedStates(lims, m, was, c);
      JudgeCounts(lims, m, was, c, l);
      ActShape(e, s, m, j.0);
      ActFifo(e, s, m, j.0);
      forall i | 0 <= i < |d.fifo| ensures d.fifo[i] < |d.socks| && d.fifo[i] != s {
        WaitersOfPass(d, i, |lims|);
      }
      BlockedAfter(d, lims, Act(e, s, m, j.0), j.1, s, m, j.0, l);
    }
  }

  lemma PassOver(d: Driver, lims: seq<Limits>, l: nat)
    requires l < |lims|
    ensures Blocked(d.(pc := AcceptStep), lims, l)
  {
  }

  lemma ActFifo(e: Driver, s: nat, l: nat, state: SockState)
    requires s < |e.socks| && state in {RunWait, Dropped, Running, Timeout, Overflow}
    ensures Act(e, s, l, state).fifo == if state == RunWait then e.fifo + [s] else e.fifo
    ensures Act(e, s, l, state).pc == e.pc
  {
  }

  lemma BlockedAfter(d: Driver, lims: seq<Limits>, f: Driver, lims': seq<Limits>, s: nat, m: nat, state: SockState,
                     l: nat)
    requires l < |lims| && |lims'| == |lims| && Blocked(d, lims, l) && d.pc == RunPass
    requires s < |d.socks| && Only(d.socks, f.socks, s) && d.socks[s].conn == Some(Some(m))
    requires state == RunWait ==> f.socks[s].conn == d.socks[s].conn
    requires f.fifo == if state == RunWait then d.fifo + [s] else d.fifo
    requires lims'[l].maxrun == lims[l].maxrun && lims'[l].nrunning >= lims[l].nrunning
    requires state == RunWait && m == l ==> lims[l].nrunning >= lims[l].maxrun
    requires forall i :: 0 <= i < |d.fifo| ==> d.fifo[i] < |d.socks| && d.fifo[i] != s
    ensures Blocked(f, lims', l)
  {
    forall i | 0 <= i < |f.fifo| && f.fifo[i] < |f.socks| && f.socks[f.fifo[i]].conn == Some(Some(l))
      ensures lims'[l].nrunning >= lims'[l].maxrun
    {
      if i < |d.fifo| {
        assert d.fifo[i] == f.fifo[i];
      }
    }
  }

  // ----- every run -----

  lemma FairStep(v: World, i: nat, a: Action, k: nat, l: nat)
    requires WorldInv(v) && l < |v.limits| && Fair(v, k, l) && UsedOnlyBy(v, k, l)
    ensures |WorldStep(v, i, a).limits| == |v.limits| && Fair(WorldStep(v, i, a), k, l)
  {
    hide Inv; hide Step; hide Unused; hide Exact; hide Admitted;
    if i < |v.drivers| {
      var d := v.drivers[i];
      if i == k {
        OwnerStep(d, v.limits, a, l);
      } else {
        ForeignStep(d, v.limits, a, l);
      }
    }
  }

  lemma {:induction false} FairRun(w: World, actions: seq<(nat, Action)>, k: nat, l: nat)
    requires Fresh(w) && l < |w.limits| && Exclusive(w, actions, k, l)
    ensures |Reached(w, actions).limits| == |w.limits| && Fair(Reached(w, actions), k, l)
  {
    hide WorldStep; hide UsedOnlyBy; hide WorldInv; hide Blocked; hide Fresh;
    if actions == [] {
      FreshIsFair(w, k, l);
    } else {
      var rest, last := actions[..|actions| - 1], actions[|actions| - 1];
      forall n | 0 <= n <= |rest| ensures UsedOnlyBy(Reached(w, rest[..n]), k, l) {
        assert rest[..n] == actions[..n];
      }
      FairRun(w, rest, k, l);
      RunKeepsInv(w, rest);
      assert rest[..|rest|] == rest;
      FairStep(Reached(w, rest), last.0, last.1, k, l);
    }
  }

  lemma FreshIsFair(w: World, k: nat, l: nat)
    requires Fresh(w) && l < |w.limits|
    ensures Fair(w, k, l)
  {
    forall j | 0 <= j < |w.drivers| ensures w.drivers[j].conns == [] && w.drivers[j].fifo == [] {
      assert IsFresh(w.drivers[j]);
    }
  }

  /** Whenever another connection is counted as running, it is because driver `k` has
      admitted a Sock that was the first to arrive of all those queued for the same Limits,
      in however many passes they have been left waiting. */
  lemma FirstComeFirstServed(w: World, actions: seq<(nat, Action)>, k: nat, i: nat, a: Action, l: nat)
    requires Fresh(w) && l < |w.limits| && Exclusive(w, actions, k, l)
    requires l < |Reached(w, actions).limits| && l < |WorldStep(Reached(w, actions), i, a).limits|
    requires WorldStep(Reached(w, actions), i, a).limits[l].nrunning > Reached(w, actions).limits[l].nrunning
    ensures var v := Reached(w, actions);
            && i == k < |v.drivers| && v.drivers[k].pass != []
            && AdmitsFirst(v.drivers[k], WorldStep(v, i, a).drivers[k], v.drivers[k].pass[0], l)
  {
    hide WorldInv; hide Inv; hide Step; hide Blocked; hide AdmitsFirst; hide Unused; hide Fresh; hide Reached;
    var v := Reached(w, actions);
    FairRun(w, actions, k, l);
    RunKeepsInv(w, actions);
    assert actions[..|actions|] == actions;
    assert UsedOnlyBy(v, k, l);
    RaisesInOrder(v, k, i, a, l);
  }

  lemma RaisesInOrder(v: World, k: nat, i: nat, a: Action, l: nat)
    requires WorldInv(v) && l < |v.limits| && Fair(v, k, l) && UsedOnlyBy(v, k, l)
    requires l < |WorldStep(v, i, a).limits| && WorldStep(v, i, a).limits[l].nrunning > v.limits[l].nrunning
    ensures i == k < |v.drivers| && v.drivers[k].pass != []
            && AdmitsFirst(v.drivers[k], WorldStep(v, i, a).drivers[k], v.drivers[k].pass[0], l)
  {
    hide Inv; hide Step; hide Blocked; hide AdmitsFirst; hide Unused; hide Exact; hide Admitted;
    assert i < |v.drivers|;
    LimitsStay(v.drivers[i], v.limits, a);
    if i != k {
      ForeignStep(v.drivers[i], v.limits, a, l);
    } else {
      RunsFirst(v.drivers[k], v.limits, a, l);
    }
  }

  /** Sock `s` is queued for Limits `l` in `d`, before every other such Sock, and runs in `e`. */
  ghost predicate AdmitsFirst(d: Driver, e: Driver, s: nat, l: nat) {
    && s < |d.socks| && Queued(d.socks[s], l)
    && (forall u :: 0 <= u < |d.socks| && u != s && Queued(d.socks[u], l) ==> d.socks[s].ticket < d.socks[u].ticket)
    && s < |e.socks| && e.socks[s].state == Running
  }

  lemma RunsFirst(d: Driver, lims: seq<Limits>, a: Action, l: nat)
    requires Inv(d, |lims|) && l < |lims| && Blocked(d, lims, l)
    requires |Step(d, lims, a).1| == |lims| && Step(d, lims, a).1[l].nrunning > lims[l].nrunning
    ensures d.pass != [] && AdmitsFirst(d, Step(d, lims, a).0, d.pass[0], l)
  {
    hide Inv; hide AdmitOne; hide Blocked; hide FreeOne; hide AdmitsFirst; hide SameLost; hide SameWaits;
    hide SameLimits;
    hide CloseConn;
    if !a.DriverThread? {
      OtherLims(d, lims, a);
    } else if d.pc == RunPass {
      AdmitRunsFirst(d, lims, a.c, l);
    } else if d.pc == FreePass {
      FreeOnlyLowers(d, lims, l);
    } else {
      PassesAreQuiet(d, lims, a.c);
    }
  }

  lemma FreeOnlyLowers(d: Driver, lims: seq<Limits>, l: nat)
    requires Inv(d, |lims|) && d.pc == FreePass && l < |lims|
    ensures var r := FreeOne(d, lims); |r.1| == |lims| && r.1[l].nrunning <= lims[l].nrunning
  {
    hide Reclaim;
    if NextFreeing(d.conns) < |d.conns| {
      ConnLimits(d, NextFreeing(d.conns), |lims|);
      DiscountCounts(lims, d.conns[NextFreeing(d.conns)], l);
    }
    hide Inv; hide Discount;
  }

  lemma AdmitRunsFirst(d: Driver, lims: seq<Limits>, c: Choice, l: nat)
    requires Inv(d, |lims|) && l < |lims| && Blocked(d, lims, l) && d.pc == RunPass
    requires |AdmitOne(d, lims, c).1| == |lims| && AdmitOne(d, lims, c).1[l].nrunning > lims[l].nrunning
    ensures d.pass != [] && AdmitsFirst(d, AdmitOne(d, lims, c).0, d.pass[0], l)
  {
    hide Inv; hide Judge; hide Act; hide Blocked; hide Only;
    if d.pass != [] {
      ParkedHead(d, |lims|);
      var s := d.pass[0];
      var m, was := d.socks[s].conn.value.value, d.socks[s].state == RunWait;
      JudgedStates(lims, m, was, c);
      JudgeCounts(lims, m, was, c, l);
      ActShape(d.(pass := d.pass[1..]), s, m, Judge(lims, m, was, c).0);
      ActKeepsSize(d.(pass := d.pass[1..]), s, Act(d.(pass := d.pass[1..]), s, m, Judge(lims, m, was, c).0));
      HeadIsFirst(d, lims, l);
    }
  }

  lemma ActKeepsSize(d: Driver, s: nat, e: Driver)
    requires Only(d.socks, e.socks, s)
    ensures |e.socks| == |d.socks|
  {
  }

  /** Those left waiting in this pass have other Limits, those still to come are later. */
  lemma HeadIsFirst(d: Driver, lims: seq<Limits>, l: nat)
    requires Inv(d, |lims|) && l < |lims| && Blocked(d, lims, l) && d.pc == RunPass && d.pass != []
    requires lims[l].nrunning < lims[l].maxrun
    ensures forall u :: 0 <= u < |d.socks| && u != d.pass[0] && Queued(d.socks[u], l) ==>
              d.pass[0] < |d.socks| && d.socks[d.pass[0]].ticket < d.socks[u].ticket
  {
    hide ListsOk; hide SocksFit; hide ConnsHold; hide InFifo; hide Sound; hide Counts;
    var q, n := d.fifo + d.pass, |d.fifo|;
    assert q[n] == d.pass[0];
    forall j | 0 <= j < n ensures q[j] < |d.socks| && d.socks[q[j]].conn != Some(Some(l)) {
      assert q[j] == d.fifo[j];
    }
    forall u | 0 <= u < |d.socks| && u != d.pass[0] && Queued(d.socks[u], l)
      ensures d.socks[d.pass[0]].ticket < d.socks[u].ticket
    {
      var i :| 0 <= i < |q| && q[i] == u;
      assert i != n;
    }
  }
}
