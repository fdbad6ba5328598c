/** Every step of a driver and its threads keeps the ownership invariant. */
module DriverSteps {
  import opened Common
  import opened Driver
  import opened DriverLaws

  // ----- the building blocks -----

  /** Set then Push: the Sock that is on no list goes to `p`. */
  lemma PutFacts(e: Driver, s: nat, state: SockState, conn: Option<Option<nat>>, p: Place)
    requires s < |e.socks| && ListsOk(e, s) && Listed(p)
    ensures var f := Push(Set(e, s, state, conn), p, s);
            && ListsOk(f, NONE)
            && f.socks == e.socks[s := e.socks[s].(state := state, conn := conn, place := p)]
            && (forall q :: At(f, q) == if q == p then [s] + At(e, p) else At(e, q))
  {
    hide ListsOk; hide Push; hide At;
    var g := Set(e, s, state, conn);
    SetPut(e, s, state, conn, p);
    ListsSame(e, g, s);
    PushCloses(g, p, s);
    forall q ensures At(Push(g, p, s), q) == if q == p then [s] + At(e, p) else At(e, q) {
      AtPushed(g, p, s, q);
      AtSet(e, s, state, conn, q);
      AtSet(e, s, state, conn, p);
    }
  }

  lemma SetPut(e: Driver, s: nat, state: SockState, conn: Option<Option<nat>>, p: Place)
    requires s < |e.socks|
    ensures Push(Set(e, s, state, conn), p, s).socks
         == e.socks[s := e.socks[s].(state := state, conn := conn, place := p)]
    ensures var g := Set(e, s, state, conn);
            g.lists == e.lists && forall u :: 0 <= u < |e.socks| ==> g.socks[u].place == e.socks[u].place
  {
    hide At;
  }

  lemma AtSet(e: Driver, s: nat, state: SockState, conn: Option<Option<nat>>, q: Place)
    requires s < |e.socks|
    ensures At(Set(e, s, state, conn), q) == At(e, q)
  {
  }

  lemma CloseFacts(e: Driver, s: nat)
    requires s < |e.socks| && ListsOk(e, s)
    ensures var f := SockClose(e, s);
            && ListsOk(f, NONE)
            && f.socks == e.socks[s := Sock(Closed, None, Free, false, e.socks[s].ticket)]
            && At(f, Free) == [s] + At(e, Free)
            && f.reclosed == (e.reclosed || !e.socks[s].open)
            && f.nactive == e.nactive - 1
  {
    hide ListsOk;
    PutFacts(e, s, Closed, None, Free);
    ListsSame(Push(Set(e, s, Closed, None), Free, s), SockClose(e, s), NONE);
  }

  lemma UnlistFacts(e: Driver, s: nat, p: Place)
    requires s < |e.socks| && ListsOk(e, s) && !Listed(p)
    ensures ListsOk(Unlist(e, s, p), NONE)
    ensures forall q :: At(Unlist(e, s, p), q) == At(e, q)
  {
    UnlistCloses(e, s, p);
  }

  /** The Sock at the head of a list. */
  lemma HeadFacts(d: Driver, p: Place, nlims: nat)
    requires Inv(d, nlims) && Listed(p) && At(d, p) != []
    ensures var s := At(d, p)[0];
            && s < |d.socks| && d.socks[s].place == p
            && SockFits(d.socks[s], d.pc, d.connless, nlims)
            && ListsOk(Take(d, p), s)
            && Take(d, p).socks == d.socks
            && (forall q :: At(Take(d, p), q) == if q == p then At(d, p)[1..] else At(d, q))
  {
    assert ListOk(d, p, NONE);
    TakeOpens(d, p);
    forall q ensures At(Take(d, p), q) == if q == p then At(d, p)[1..] else At(d, q) {
      AtTaken(d, p, q);
    }
  }

  /** A Sock is taken from a list and closed. */
  lemma TakeAndClose(d: Driver, p: Place, nlims: nat)
    requires Inv(d, nlims) && Listed(p) && p != Free && At(d, p) != [] && At(d, p)[0] < |d.socks|
    requires !InFifo(d.socks[At(d, p)[0]])
    ensures Inv(SockClose(Take(d, p), At(d, p)[0]), nlims)
  {
    hide ListsOk; hide At; hide SocksFit; hide ConnsHold; hide QueueIs; hide PassIs;
    HeadFacts(d, p, nlims);
    var s := At(d, p)[0];
    CloseFacts(Take(d, p), s);
    MoveKeeps(d, SockClose(Take(d, p), s), s, nlims);
  }

  /** A Sock is taken from a list, given a state, and pushed on another list. */
  lemma TakeAndPut(d: Driver, e: Driver, p: Place, s: nat, state: SockState, conn: Option<Option<nat>>, q: Place,
                   nlims: nat)
    requires Inv(d, nlims) && Listed(p) && Listed(q) && p != Free && q != Free && q != Held
    requires At(d, p) != [] && s == At(d, p)[0] && s < |d.socks|
    requires !InFifo(d.socks[s]) && !InFifo(d.socks[s].(state := state, conn := conn, place := q))
    requires e == Push(Set(Take(d, p), s, state, conn), q, s)
          || e == Push(Set(Take(d, p), s, state, conn), q, s).(connless := true)
    requires SockFits(d.socks[s].(state := state, conn := conn, place := q), d.pc, e.connless, nlims)
    ensures Inv(e, nlims)
  {
    hide ListsOk; hide At; hide SocksFit; hide ConnsHold; hide QueueIs; hide PassIs; hide SockFits; hide InFifo;
    HeadFacts(d, p, nlims);
    PutFacts(Take(d, p), s, state, conn, q);
    ListsSame(Push(Set(Take(d, p), s, state, conn), q, s), e, NONE);
    assert At(e, Free) == At(Push(Set(Take(d, p), s, state, conn), q, s), Free) by { AtIsLists(); }
    MoveKeeps(d, e, s, nlims);
  }

  lemma AtIsLists()
    ensures forall d: Driver, e: Driver, p :: d.lists == e.lists ==> At(d, p) == At(e, p)
  {
  }

  lemma SetSame(d: Driver, s: nat)
    requires s < |d.socks|
    ensures Set(d, s, d.socks[s].state, d.socks[s].conn) == d
  {
    assert d.socks[s := d.socks[s]] == d.socks;
  }

  /** Only the driver thread's position, or something the invariant ignores, changes. */
  lemma PcKeeps(d: Driver, e: Driver, nlims: nat)
    requires Inv(d, nlims) && e.lists == d.lists && e.socks == d.socks && e.conns == d.conns
    requires e.fifo == d.fifo && e.pass == d.pass && e.arrivals == d.arrivals && e.nactive == d.nactive
    requires e.connless == d.connless && Sound(e)
    requires SocksFit(d.socks, e.pc, d.connless, nlims) && PassIs(d.fifo, d.pass, d.socks, e.pc)
    ensures Inv(e, nlims)
  {
    hide SocksFit; hide ConnsHold; hide QueueIs; hide PassIs; hide ListOk;
    ListsSame(d, e, NONE);
  }

  lemma EmptyMeansNone(d: Driver, p: Place, s: nat)
    requires ListsOk(d, NONE) && Listed(p) && At(d, p) == [] && s < |d.socks|
    ensures d.socks[s].place != p
  {
    assert ListOk(d, p, NONE);
  }

  /** TakeAndPut without a change of state. */
  lemma TakeAndPush(d: Driver, p: Place, q: Place, nlims: nat)
    requires Inv(d, nlims) && Listed(p) && Listed(q) && p != Free && q != Free
    requires At(d, p) != [] && At(d, p)[0] < |d.socks| && !InFifo(d.socks[At(d, p)[0]])
    requires !InFifo(d.socks[At(d, p)[0]].(place := q))
    requires SockFits(d.socks[At(d, p)[0]].(place := q), d.pc, d.connless, nlims)
    ensures Inv(Push(Take(d, p), q, At(d, p)[0]), nlims)
  {
    hide Inv; hide SockFits; hide InFifo; hide At;
    var s := At(d, p)[0];
    SetSame(Take(d, p), s);
    TakeAndPut(d, Push(Take(d, p), q, s), p, s, d.socks[s].state, d.socks[s].conn, q, nlims);
  }

  // ----- the driver thread's passes -----

  lemma ReadHereKeeps(d: Driver, s: nat, result: ReadResult, nlims: nat)
    requires Inv(d, nlims) && d.pc == ReadyPass && At(d, Ready) != [] && s == At(d, Ready)[0] && s < |d.socks|
    requires d.socks[s].state == ReadWait && d.socks[s].conn == Some(None) && d.socks[s].open
    requires result.Done? ==> result.limits < nlims
    ensures result.More? ==> Inv(Push(Take(d, Ready), Wait, s), nlims)
    ensures !result.More? ==> Inv(Push(AfterRead(Take(d, Ready), s, result), PreQueue, s), nlims)
  {
    hide ListsOk; hide At; hide SocksFit; hide ConnsHold; hide QueueIs; hide PassIs;
    HeadFacts(d, Ready, nlims);
    match result
    case More => TakeAndPush(d, Ready, Wait, nlims);
    case Done(l) =>
      TakeAndPut(d, Push(AfterRead(Take(d, Ready), s, result), PreQueue, s), Ready, s, PreQue, Some(Some(l)), PreQueue,
                 nlims);
    case Bad =>
      TakeAndPut(d, Push(AfterRead(Take(d, Ready), s, result), PreQueue, s), Ready, s, Error, d.socks[s].conn,
                 PreQueue, nlims);
  }

  /** A Conn that waits to run is found through the FIFO only, until the admission pass. */
  lemma ParkKeeps(d: Driver, nlims: nat)
    requires Inv(d, nlims) && d.pc == ReadyPass && At(d, Ready) != [] && At(d, Ready)[0] < |d.socks|
    requires d.socks[At(d, Ready)[0]].state == RunWait
    ensures Inv(Unlist(Take(d, Ready), At(d, Ready)[0], Parked), nlims)
  {
    hide ListsOk; hide At; hide SocksFit; hide ConnsHold; hide QueueIs; hide PassIs;
    HeadFacts(d, Ready, nlims);
    var s := At(d, Ready)[0];
    UnlistFacts(Take(d, Ready), s, Parked);
    MoveKeeps(d, Unlist(Take(d, Ready), s, Parked), s, nlims);
  }

  lemma ReadyOneKeeps(d: Driver, c: Choice, nlims: nat)
    requires Inv(d, nlims) && d.pc == ReadyPass && (c.read.Done? ==> c.read.limits < nlims)
    ensures Inv(ReadyOne(d, c), nlims)
  {
    hide ListsOk; hide At; hide SocksFit; hide ConnsHold; hide QueueIs;
    if At(d, Ready) == [] {
      forall s | 0 <= s < |d.socks| ensures SockFits(d.socks[s], HandOver, d.connless, nlims) {
        EmptyMeansNone(d, Ready, s);
        FitsAt(d, s, nlims);
      }
      assert SocksFit(d.socks, HandOver, d.connless, nlims) by { FitsAll(d.socks, HandOver, d.connless, nlims); }
      PcKeeps(d, d.(pc := HandOver), nlims);
    } else {
      HeadFacts(d, Ready, nlims);
      var s := At(d, Ready)[0];
      var e := Take(d, Ready);
      match d.socks[s].state
      case CloseWait =>
        if (c.input && c.eof) || c.expired || d.stop {
          TakeAndClose(d, Ready, nlims);
        } else {
          TakeAndPush(d, Ready, Wait, nlims);
        }
      case ReadWait =>
        if !c.input {
          if c.expired || d.stop { TakeAndClose(d, Ready, nlims); } else { TakeAndPush(d, Ready, Wait, nlims); }
        } else if d.socks[s].conn.None? {
          PcKeeps(d, d.(crashed := true), nlims);
        } else if !d.async {
          TakeAndPush(d, Ready, ReadLocal, nlims);
        } else {
          ReadHereKeeps(d, s, c.read, nlims);
        }
      case RunWait => ParkKeeps(d, nlims);
      case _ =>
    }
  }

  lemma FitsAt(d: Driver, s: nat, nlims: nat)
    requires SocksFit(d.socks, d.pc, d.connless, nlims) && s < |d.socks|
    ensures SockFits(d.socks[s], d.pc, d.connless, nlims)
  {
  }

  lemma FitsAll(socks: seq<Sock>, pc: Pc, connless: bool, nlims: nat)
    requires forall s :: 0 <= s < |socks| ==> SockFits(socks[s], pc, connless, nlims)
    ensures SocksFit(socks, pc, connless, nlims)
  {
  }

  lemma CloseOneKeeps(d: Driver, c: Choice, nlims: nat)
    requires Inv(d, nlims) && d.pc == ClosePass
    ensures Inv(CloseOne(d, c), nlims)
  {
    hide ListsOk; hide At; hide SocksFit; hide ConnsHold; hide QueueIs;
    if At(d, Closing) == [] {
      forall s | 0 <= s < |d.socks| ensures SockFits(d.socks[s], PreqPass, d.connless, nlims) {
        EmptyMeansNone(d, Closing, s);
        FitsAt(d, s, nlims);
      }
      FitsAll(d.socks, PreqPass, d.connless, nlims);
      PcKeeps(d, d.(pc := PreqPass), nlims);
    } else {
      HeadFacts(d, Closing, nlims);
      var s := At(d, Closing)[0];
      if !d.stop && d.socks[s].state == ReadWait {
        TakeAndPut(d, CloseOne(d, c), Closing, s, ReadWait, Some(None), Wait, nlims);
      } else if !c.graceful {
        TakeAndClose(d, Closing, nlims);
      } else if d.socks[s].state == ReadWait {
        SetSame(Take(d, Closing), s);
        TakeAndPut(d, CloseOne(d, c), Closing, s, ReadWait, None, Wait, nlims);
      } else {
        TakeAndPush(d, Closing, Wait, nlims);
        PcKeeps(Push(Take(d, Closing), Wait, s), CloseOne(d, c), nlims);
      }
    }
  }

  lemma PreqOneKeeps(d: Driver, nlims: nat)
    requires Inv(d, nlims) && d.pc == PreqPass
    ensures Inv(PreqOne(d), nlims)
  {
    hide ListsOk; hide At; hide SocksFit; hide ConnsHold; hide QueueIs;
    if At(d, PreQueue) == [] {
      forall s | 0 <= s < |d.socks| ensures SockFits(d.socks[s], QuePass, d.connless, nlims) {
        FitsAt(d, s, nlims);
      }
      FitsAll(d.socks, QuePass, d.connless, nlims);
      PcKeeps(d, d.(pc := QuePass), nlims);
    } else {
      HeadFacts(d, PreQueue, nlims);
      var s := At(d, PreQueue)[0];
      if d.socks[s].state != PreQue {
        TakeAndClose(d, PreQueue, nlims);
      } else {
        TakeAndPush(d, PreQueue, QueueNow, nlims);
      }
    }
  }

  /** A newly arrived Conn goes to the end of the FIFO. */
  lemma QueueAppend(queue: seq<nat>, socks: seq<Sock>, socks': seq<Sock>, s: nat, arrivals: nat)
    requires QueueIs(queue, socks, arrivals) && s < |socks| && Only(socks, socks', s)
    requires !InFifo(socks[s]) && InFifo(socks'[s]) && socks'[s].ticket == arrivals
    ensures QueueIs(queue + [s], socks', arrivals + 1)
  {
    var q := queue + [s];
    forall u | 0 <= u < |socks'| && InFifo(socks'[u]) ensures u in q {
      if u == s {
        assert q[|queue|] == s;
      }
    }
  }

  lemma ArriveKeeps(d: Driver, nlims: nat)
    requires Inv(d, nlims) && d.pc == QuePass && At(d, QueueNow) != [] && At(d, QueueNow)[0] < |d.socks|
    ensures Inv(Arrive(Take(d, QueueNow), At(d, QueueNow)[0]), nlims)
  {
    hide ListsOk; hide At; hide SocksFit; hide ConnsHold; hide QueueIs;
    HeadFacts(d, QueueNow, nlims);
    var s := At(d, QueueNow)[0];
    var e := Take(d, QueueNow);
    var f := Arrive(e, s);
    UnlistFacts(e, s, Parked);
    ListsSame(Unlist(e, s, Parked), f, NONE);
    AtIsLists();
    FitsOne(d.socks, f.socks, s, d.pc, d.connless, d.connless, nlims);
    ConnsElsewhere(d.conns, d.socks, f.socks, s, nlims);
    assert d.fifo + d.pass == d.fifo && f.fifo + f.pass == d.fifo + [s];
    QueueAppend(d.fifo, d.socks, f.socks, s, d.arrivals);
  }

  lemma AllParked(d: Driver, nlims: nat)
    requires Inv(d, nlims) && d.pc == QuePass
    ensures PassIs([], d.fifo, d.socks, RunPass)
    ensures SocksFit(d.socks, RunPass, d.connless, nlims)
  {
    assert d.fifo + d.pass == d.fifo;
    forall i | 0 <= i < |d.fifo| ensures d.fifo[i] < |d.socks| && d.socks[d.fifo[i]].place == Parked {
      assert InFifo(d.socks[d.fifo[i]]);
      FitsAt(d, d.fifo[i], nlims);
    }
    forall s | 0 <= s < |d.socks| ensures SockFits(d.socks[s], RunPass, d.connless, nlims) {
      FitsAt(d, s, nlims);
    }
  }

  lemma QueOneKeeps(d: Driver, nlims: nat)
    requires Inv(d, nlims) && d.pc == QuePass
    ensures Inv(QueOne(d), nlims)
  {
    hide ListsOk; hide At; hide SocksFit; hide ConnsHold; hide QueueIs;
    if At(d, QueueNow) == [] {
      var e := QueOne(d);
      AllParked(d, nlims);
      assert d.fifo + d.pass == e.fifo + e.pass;
      ListsSame(d, e, NONE);
      AtIsLists();
    } else {
      HeadFacts(d, QueueNow, nlims);
      ArriveKeeps(d, nlims);
    }
  }

  // ----- the admission pass -----

  lemma ParkedHead(d: Driver, nlims: nat)
    requires Inv(d, nlims) && d.pc == RunPass && d.pass != []
    ensures var s := d.pass[0];
            && s < |d.socks| && d.socks[s].place == Parked && d.socks[s].open
            && d.socks[s].state in {PreQue, RunWait} && HasLimits(d.socks[s], nlims)
            && s !in d.pass[1..] && s !in d.fifo
  {
    var s, q := d.pass[0], d.fifo + d.pass;
    FitsAt(d, s, nlims);
    var n := |d.fifo|;
    assert q[n] == s;
    forall i | 0 <= i < |d.pass| - 1 ensures d.pass[1..][i] != s {
      assert q[n + 1 + i] == d.pass[1..][i];
    }
    forall i | 0 <= i < n ensures d.fifo[i] != s {
      assert q[i] == d.fifo[i];
    }
  }

  lemma QueueRemove(fifo: seq<nat>, pass: seq<nat>, socks: seq<Sock>, socks': seq<Sock>, arrivals: nat)
    requires pass != [] && QueueIs(fifo + pass, socks, arrivals) && pass[0] < |socks|
    requires Only(socks, socks', pass[0]) && !InFifo(socks'[pass[0]])
    ensures QueueIs(fifo + pass[1..], socks', arrivals)
  {
    var q, r, n := fifo + pass, fifo + pass[1..], |fifo|;
    assert q[n] == pass[0];
    assert forall i :: 0 <= i < |r| ==> r[i] == q[if i < n then i else i + 1];
    QueueWithout(q, r, n, socks, socks', arrivals);
  }

  lemma OthersQueue(q: seq<nat>, r: seq<nat>, n: nat, socks: seq<Sock>, socks': seq<Sock>, arrivals: nat)
    requires n < |q| && |r| == |q| - 1 && forall i :: 0 <= i < |r| ==> r[i] == q[if i < n then i else i + 1]
    requires QueueIs(q, socks, arrivals) && q[n] < |socks| && Only(socks, socks', q[n])
    ensures forall i :: 0 <= i < |r| ==>
              r[i] != q[n] && r[i] < |socks'| && InFifo(socks'[r[i]]) && socks'[r[i]].ticket < arrivals
    ensures forall i, j :: 0 <= i < j < |r| ==> socks'[r[i]].ticket < socks'[r[j]].ticket
  {
    hide InFifo;
    forall i | 0 <= i < |r| ensures r[i] != q[n] {
      var j := if i < n then i else i + 1;
      assert r[i] == q[j];
    }
  }

  lemma QueueWithout(q: seq<nat>, r: seq<nat>, n: nat, socks: seq<Sock>, socks': seq<Sock>, arrivals: nat)
    requires n < |q| && |r| == |q| - 1 && forall i :: 0 <= i < |r| ==> r[i] == q[if i < n then i else i + 1]
    requires QueueIs(q, socks, arrivals) && q[n] < |socks| && Only(socks, socks', q[n]) && !InFifo(socks'[q[n]])
    ensures QueueIs(r, socks', arrivals)
  {
    hide InFifo;
    OthersQueue(q, r, n, socks, socks', arrivals);
    forall u | 0 <= u < |socks'| && InFifo(socks'[u]) ensures u in r {
      var i :| 0 <= i < |q| && q[i] == u;
      assert r[if i < n then i else i - 1] == u;
    }
  }

  lemma PassRest(d: Driver, socks': seq<Sock>, nlims: nat)
    requires Inv(d, nlims) && d.pc == RunPass && d.pass != [] && Only(d.socks, socks', d.pass[0])
    ensures PassIs(d.fifo, d.pass[1..], socks', RunPass)
    ensures d.pass[0] < |d.socks| && socks'[d.pass[0]].place == Wait ==>
              PassIs(d.fifo + [d.pass[0]], d.pass[1..], socks', RunPass)
  {
    ParkedHead(d, nlims);
  }

  /** The client went away while its Conn was waiting. */
  lemma DropKeeps(d: Driver, nlims: nat)
    requires Inv(d, nlims) && d.pc == RunPass && d.pass != [] && d.pass[0] < |d.socks|
    ensures var s := d.pass[0];
            Inv(SockClose(Set(d.(pass := d.pass[1..]), s, Dropped, d.socks[s].conn), s), nlims)
  {
    hide ListsOk; hide At; hide SocksFit; hide ConnsHold; hide QueueIs; hide PassIs;
    ParkedHead(d, nlims);
    var s := d.pass[0];
    var e := d.(pass := d.pass[1..]);
    var g := Set(e, s, Dropped, d.socks[s].conn);
    var f := SockClose(g, s);
    UnlistedOpens(d, s);
    ListsSame(d, g, s);
    CloseFacts(g, s);
    AtIsLists();
    FitsOne(d.socks, f.socks, s, d.pc, d.connless, d.connless, nlims);
    ConnsElsewhere(d.conns, d.socks, f.socks, s, nlims);
    QueueRemove(d.fifo, d.pass, d.socks, f.socks, d.arrivals);
    PassRest(d, f.socks, nlims);
  }

  lemma ConnsAdd(conns: seq<Conn>, socks: seq<Sock>, socks': seq<Sock>, s: nat, c: Conn, nlims: nat)
    requires ConnsHold(conns, socks, nlims) && s < |socks| && Only(socks, socks', s)
    requires socks[s].place != Held && socks'[s].place == Held && c.sock == Some(s)
    requires c.limits.Some? ==> c.limits.value < nlims
    ensures ConnsHold(conns + [c], socks', nlims)
  {
    var all := conns + [c];
    forall u | 0 <= u < |socks'| && socks'[u].place == Held
      ensures exists i :: 0 <= i < |all| && all[i].sock == Some(u)
    {
      if u == s {
        assert all[|conns|].sock == Some(s);
      } else {
        var i :| 0 <= i < |conns| && conns[i].sock == Some(u);
        assert all[i].sock == Some(u);
      }
    }
  }

  /** A Conn is given to the connection threads, admitted or refused. */
  lemma DispatchKeeps(d: Driver, state: SockState, limits: Option<nat>, nlims: nat)
    requires Inv(d, nlims) && d.pc == RunPass && d.pass != [] && d.pass[0] < |d.socks|
    requires state in {Running, Timeout, Overflow} && (limits.Some? ==> limits.value < nlims)
    ensures Inv(Dispatch(d.(pass := d.pass[1..]), d.pass[0], state, limits), nlims)
  {
    hide ListsOk; hide At; hide SocksFit; hide ConnsHold; hide QueueIs; hide PassIs;
    ParkedHead(d, nlims);
    var s := d.pass[0];
    var e := d.(pass := d.pass[1..]);
    var g := Set(e, s, state, None);
    var f := Dispatch(e, s, state, limits);
    UnlistedOpens(d, s);
    ListsSame(d, g, s);
    UnlistFacts(g, s, Held);
    ListsSame(Unlist(g, s, Held), f, NONE);
    AtIsLists();
    FitsOne(d.socks, f.socks, s, d.pc, d.connless, d.connless, nlims);
    ConnsAdd(d.conns, d.socks, f.socks, s, Conn(Some(s), limits, InUse), nlims);
    QueueRemove(d.fifo, d.pass, d.socks, f.socks, d.arrivals);
    PassRest(d, f.socks, nlims);
  }

  /** A Conn keeps waiting: it keeps its place in the FIFO. */
  lemma WaitOnKeeps(d: Driver, nlims: nat)
    requires Inv(d, nlims) && d.pc == RunPass && d.pass != [] && d.pass[0] < |d.socks|
    ensures var s := d.pass[0];
            Inv(Push(Set(d.(pass := d.pass[1..]), s, RunWait, d.socks[s].conn), Wait, s).(fifo := d.fifo + [s]), nlims)
  {
    hide ListsOk; hide At; hide SocksFit; hide ConnsHold; hide QueueIs; hide PassIs;
    ParkedHead(d, nlims);
    var s := d.pass[0];
    var e := d.(pass := d.pass[1..]);
    var g := Push(Set(e, s, RunWait, d.socks[s].conn), Wait, s);
    var f := g.(fifo := d.fifo + [s]);
    UnlistedOpens(d, s);
    ListsSame(d, e, s);
    PutFacts(e, s, RunWait, d.socks[s].conn, Wait);
    ListsSame(g, f, NONE);
    AtIsLists();
    var k := d.socks[s].(state := RunWait, place := Wait);
    assert f.socks == d.socks[s := k];
    assert SockFits(k, d.pc, d.connless, nlims) && InFifo(k) && InFifo(d.socks[s]);
    WaitOnParts(d, s, k, nlims);
  }

  lemma WaitOnParts(d: Driver, s: nat, k: Sock, nlims: nat)
    requires Inv(d, nlims) && d.pc == RunPass && d.pass != [] && d.pass[0] == s && s < |d.socks|
    requires d.socks[s].place == Parked && k == d.socks[s].(state := RunWait, place := Wait)
    requires SockFits(k, d.pc, d.connless, nlims)
    ensures var socks' := d.socks[s := k];
            && SocksFit(socks', d.pc, d.connless, nlims)
            && ConnsHold(d.conns, socks', nlims)
            && QueueIs((d.fifo + [s]) + d.pass[1..], socks', d.arrivals)
            && PassIs(d.fifo + [s], d.pass[1..], socks', d.pc)
  {
    hide ListsOk; hide At; hide SocksFit; hide ConnsHold; hide QueueIs; hide PassIs; hide SockFits;
    var socks' := d.socks[s := k];
    FitsOne(d.socks, socks', s, d.pc, d.connless, d.connless, nlims);
    ConnsElsewhere(d.conns, d.socks, socks', s, nlims);
    assert (d.fifo + [s]) + d.pass[1..] == d.fifo + d.pass;
    QueueOne(d.fifo + d.pass, d.socks, socks', s, d.arrivals);
    PassRest(d, socks', nlims);
  }

  lemma PassDone(d: Driver, nlims: nat)
    requires Inv(d, nlims) && d.pc == RunPass && d.pass == []
    ensures SocksFit(d.socks, AcceptStep, d.connless, nlims)
  {
    assert d.fifo + d.pass == d.fifo;
    forall s | 0 <= s < |d.socks| ensures SockFits(d.socks[s], AcceptStep, d.connless, nlims) {
      FitsAt(d, s, nlims);
      assert InFifo(d.socks[s]) ==> s in d.fifo;
    }
  }

  lemma ActKeeps(d: Driver, l: nat, state: SockState, nlims: nat)
    requires Inv(d, nlims) && d.pc == RunPass && d.pass != [] && d.pass[0] < |d.socks| && l < nlims
    requires state in {RunWait, Dropped, Running, Timeout, Overflow}
    ensures Inv(Act(d.(pass := d.pass[1..]), d.pass[0], l, state), nlims)
  {
    hide Inv; hide Dispatch; hide SockClose; hide Push; hide Set;
    match state
    case RunWait => WaitOnKeeps(d, nlims);
    case Dropped => DropKeeps(d, nlims);
    case Running => DispatchKeeps(d, Running, Some(l), nlims);
    case _ => DispatchKeeps(d, state, None, nlims);
  }

  lemma AdmitOneKeeps(d: Driver, lims: seq<Limits>, c: Choice)
    requires Inv(d, |lims|) && d.pc == RunPass
    ensures Inv(AdmitOne(d, lims, c).0, |lims|)
  {
    hide Inv; hide PassIs; hide Act; hide AddRunning; hide AddWaiting;
    if d.pass == [] {
      PassDone(d, |lims|);
      PassEnds(d, |lims|);
    } else {
      ParkedHead(d, |lims|);
      var l := d.socks[d.pass[0]].conn.value.value;
      ActKeeps(d, l, Judge(lims, l, d.socks[d.pass[0]].state == RunWait, c).0, |lims|);
    }
  }

  lemma PassEnds(d: Driver, nlims: nat)
    requires Inv(d, nlims) && d.pc == RunPass && d.pass == []
    requires SocksFit(d.socks, AcceptStep, d.connless, nlims)
    ensures Inv(d.(pc := AcceptStep), nlims)
  {
    PcKeeps(d, d.(pc := AcceptStep), nlims);
  }

  // ----- collecting, freeing and accepting -----

  /** Every Sock stays as it is, but for those of some places, which go to others. */
  ghost predicate Carried(socks: seq<Sock>, socks': seq<Sock>, to: map<Place, Place>) {
    && |socks'| == |socks|
    && forall s :: 0 <= s < |socks| ==>
         && socks'[s].state == socks[s].state && socks'[s].conn == socks[s].conn
         && socks'[s].place == if socks[s].place in to then to[socks[s].place] else socks[s].place
  }

  /** Pushing one list on another, where the two suit the same Socks. */
  lemma SpliceKeeps(d: Driver, from: Place, to: Place, nlims: nat)
    requires Inv(d, nlims)
    requires (from == RunQueue && to == PreQueue) || (from == ReadLocal && to == ReadQueue)
    ensures var e := Splice(d, from, to);
            && Inv(e, nlims) && e.pc == d.pc && e.conns == d.conns && Carried(d.socks, e.socks, map[from := to])
    decreases |At(d, from)|
  {
    hide Inv; hide SockFits; hide Push; hide Take; hide Carried; hide Splice; hide ListsOk; hide At;
    if At(d, from) == [] {
      NoneCarried(d, from, to, nlims);
      SpliceIs(d, from, to);
    } else {
      HeadFacts(d, from, nlims);
      SpliceOne(d, from, to, nlims);
      SpliceIs(d, from, to);
      var e := Push(Take(d, from), to, At(d, from)[0]);
      SpliceKeeps(e, from, to, nlims);
      OneCarried(d.socks, e.socks, Splice(e, from, to).socks, At(d, from)[0], from, to);
    }
  }

  lemma SpliceIs(d: Driver, from: Place, to: Place)
    requires from != to
    ensures At(d, from) == [] ==> Splice(d, from, to) == d
    ensures At(d, from) != [] && At(d, from)[0] < |d.socks| ==>
              Splice(d, from, to) == Splice(Push(Take(d, from), to, At(d, from)[0]), from, to)
  {
    hide At; hide Push; hide Take;
  }

  lemma OneCarried(socks: seq<Sock>, one: seq<Sock>, rest: seq<Sock>, s: nat, from: Place, to: Place)
    requires s < |socks| && socks[s].place == from && one == socks[s := socks[s].(place := to)] && from != to
    requires Carried(one, rest, map[from := to])
    ensures Carried(socks, rest, map[from := to])
  {
  }

  lemma NoneCarried(d: Driver, from: Place, to: Place, nlims: nat)
    requires Inv(d, nlims) && At(d, from) == [] && Listed(from)
    ensures Carried(d.socks, d.socks, map[from := to])
  {
    hide At; hide ListsOk;
    forall s: nat | s < |d.socks| ensures d.socks[s].place != from {
      EmptyMeansNone(d, from, s);
    }
  }

  lemma SpliceOne(d: Driver, from: Place, to: Place, nlims: nat)
    requires Inv(d, nlims) && At(d, from) != [] && At(d, from)[0] < |d.socks|
    requires (from == RunQueue && to == PreQueue) || (from == ReadLocal && to == ReadQueue)
    ensures var e := Push(Take(d, from), to, At(d, from)[0]);
            && Inv(e, nlims) && |At(e, from)| < |At(d, from)|
            && e.socks == d.socks[At(d, from)[0] := d.socks[At(d, from)[0]].(place := to)]
            && e.pc == d.pc && e.conns == d.conns
  {
    hide ListsOk; hide SocksFit; hide ConnsHold; hide QueueIs; hide PassIs; hide At;
    HeadFacts(d, from, nlims);
    AtPushed(Take(d, from), to, At(d, from)[0], from);
    TakeAndPush(d, from, to, nlims);
  }

  lemma RelabelParts(d: Driver, from: Place, to: Place, pc: Pc, nlims: nat)
    requires Inv(d, nlims) && pc != RunPass && d.pass == []
    requires (from == CloseQueue && to == Closing && d.pc == Top && pc == FreePass)
          || (from == Wait && to == Ready && d.pc == FreePass && pc == ReadyPass)
    ensures forall s :: 0 <= s < |d.socks| ==> d.socks[s].place != to
    ensures var socks' := Renamed(d.socks, from, to);
            SocksFit(socks', pc, d.connless, nlims) && ConnsHold(d.conns, socks', nlims)
            && QueueIs(d.fifo + d.pass, socks', d.arrivals) && PassIs(d.fifo, d.pass, socks', pc)
  {
    hide QueueIs; hide ListsOk;
    var socks' := Renamed(d.socks, from, to);
    forall s | 0 <= s < |d.socks|
      ensures d.socks[s].place != to && SockFits(socks'[s], pc, d.connless, nlims)
      ensures InFifo(socks'[s]) <==> InFifo(d.socks[s])
    {
      FitsAt(d, s, nlims);
    }
    QueueSame(d.fifo + d.pass, d.socks, socks', d.arrivals);
  }

  lemma RelabelStep(d: Driver, from: Place, to: Place, pc: Pc, nlims: nat)
    requires Inv(d, nlims) && pc != RunPass && d.pc != RunPass
    requires (from == CloseQueue && to == Closing && d.pc == Top && pc == FreePass)
          || (from == Wait && to == Ready && d.pc == FreePass && pc == ReadyPass)
    ensures Inv(Relabel(d, from, to).(pc := pc), nlims)
  {
    hide SocksFit; hide ConnsHold; hide QueueIs; hide Renamed; hide ListOk; hide At;
    var e := Relabel(d, from, to);
    RelabelParts(d, from, to, pc, nlims);
    RelabelKeeps(d, from, to);
    ListsSame(e, e.(pc := pc), NONE);
    AtRelabeled(d, from, to, Free);
    AtIsLists();
  }

  /** Socks keep their state and Conn, are neither lost nor found, and wait if they did. */
  ghost predicate SameStates(socks: seq<Sock>, socks': seq<Sock>) {
    |socks'| == |socks| && forall s :: 0 <= s < |socks| ==>
      socks'[s].state == socks[s].state && socks'[s].conn == socks[s].conn
      && (socks'[s].place == Lost <==> socks[s].place == Lost)
      && (socks'[s].place in {Wait, Ready} <==> socks[s].place in {Wait, Ready})
  }

  lemma CollectKeeps(d: Driver, nlims: nat)
    requires Inv(d, nlims) && d.pc == Top
    ensures Inv(Collect(d), nlims) && Collect(d).conns == TakeReturned(d.conns)
    ensures SameStates(d.socks, Collect(d).socks) && Collect(d).stop == d.shutdown && Collect(d).pc == FreePass
    ensures Carried(d.socks, Collect(d).socks, map[CloseQueue := Closing, RunQueue := PreQueue])
  {
    hide SocksFit; hide ConnsHold; hide QueueIs; hide PassIs; hide ListsOk; hide Renamed; hide Splice; hide At;
    hide Carried; hide SameStates;
    var e := Relabel(d, CloseQueue, Closing).(pc := FreePass);
    var f := e.(stop := d.shutdown, conns := TakeReturned(d.conns));
    RelabelStep(d, CloseQueue, Closing, FreePass, nlims);
    ListsSame(e, f, NONE);
    AtIsLists();
    ReturnedHold(d.conns, f.socks, nlims);
    SpliceKeeps(f, RunQueue, PreQueue, nlims);
    RenamedCarried(d.socks);
    CarriedTwice(d.socks, f.socks, Splice(f, RunQueue, PreQueue).socks);
  }

  lemma RenamedCarried(socks: seq<Sock>)
    ensures Carried(socks, Renamed(socks, CloseQueue, Closing), map[CloseQueue := Closing])
  {
  }

  lemma CarriedTwice(a: seq<Sock>, b: seq<Sock>, c: seq<Sock>)
    requires Carried(a, b, map[CloseQueue := Closing]) && Carried(b, c, map[RunQueue := PreQueue])
    ensures Carried(a, c, map[CloseQueue := Closing, RunQueue := PreQueue]) && SameStates(a, c)
  {
  }

  lemma ReturnedHold(conns: seq<Conn>, socks: seq<Sock>, nlims: nat)
    requires ConnsHold(conns, socks, nlims)
    ensures ConnsHold(TakeReturned(conns), socks, nlims)
  {
    var t := TakeReturned(conns);
    forall s | 0 <= s < |socks| && socks[s].place == Held ensures exists i :: 0 <= i < |t| && t[i].sock == Some(s) {
      var i :| 0 <= i < |conns| && conns[i].sock == Some(s);
      assert t[i].sock == Some(s);
    }
  }

  lemma ConnsRemove(conns: seq<Conn>, socks: seq<Sock>, socks': seq<Sock>, i: nat, nlims: nat)
    requires ConnsHold(conns, socks, nlims) && i < |conns| && |socks'| == |socks|
    requires forall u :: 0 <= u < |socks| && conns[i].sock != Some(u) ==> socks'[u] == socks[u]
    requires forall u :: 0 <= u < |socks| && conns[i].sock == Some(u) ==> socks'[u].place != Held
    ensures ConnsHold(Without(conns, i), socks', nlims)
  {
    var r := Without(conns, i);
    forall u | 0 <= u < |socks'| && socks'[u].place == Held ensures exists j :: 0 <= j < |r| && r[j].sock == Some(u) {
      var j :| 0 <= j < |conns| && conns[j].sock == Some(u);
      assert r[if j < i then j else j - 1].sock == Some(u);
    }
  }

  /** The last Socks of the old wait list become the ready list. */
  lemma StartReadyKeeps(d: Driver, nlims: nat)
    requires Inv(d, nlims) && d.pc == FreePass
    ensures Inv(Relabel(d, Wait, Ready).(pc := ReadyPass), nlims)
  {
    hide Inv;
    RelabelStep(d, Wait, Ready, ReadyPass, nlims);
  }

  /** A finished Conn that never closed its Sock: the Sock is closed gracefully. */
  lemma FreeHeldKeeps(d: Driver, i: nat, nlims: nat)
    requires Inv(d, nlims) && d.pc == FreePass && i < |d.conns| && d.conns[i].sock.Some?
    ensures var s := d.conns[i].sock.value;
            && s < |d.socks|
            && Inv(Reclaim(d, i), nlims)
  {
    hide ListsOk; hide At; hide SocksFit; hide QueueIs; hide PassIs;
    var s := d.conns[i].sock.value;
    assert d.socks[s].place == Held;
    FitsAt(d, s, nlims);
    var e := d.(conns := Without(d.conns, i));
    var f := Push(Set(e, s, CloseWait, d.socks[s].conn), Closing, s);
    hide ConnsHold;
    UnlistedOpens(d, s);
    ListsSame(d, e, s);
    PutFacts(e, s, CloseWait, d.socks[s].conn, Closing);
    AtIsLists();
    FitsOne(d.socks, f.socks, s, d.pc, d.connless, d.connless, nlims);
    ConnsRemove(d.conns, d.socks, f.socks, i, nlims);
    QueueOne(d.fifo + d.pass, d.socks, f.socks, s, d.arrivals);
    PassOne(d.fifo, d.pass, d.socks, f.socks, s, d.pc);
  }

  lemma FreeDoneKeeps(d: Driver, i: nat, nlims: nat)
    requires Inv(d, nlims) && i < |d.conns| && d.conns[i].sock.None?
    ensures Inv(Reclaim(d, i), nlims)
  {
    hide SocksFit; hide QueueIs; hide PassIs; hide ConnsHold; hide ListOk;
    ConnsRemove(d.conns, d.socks, d.socks, i, nlims);
    ListsSame(d, d.(conns := Without(d.conns, i)), NONE);
    AtIsLists();
  }

  lemma FreeOneKeeps(d: Driver, lims: seq<Limits>)
    requires Inv(d, |lims|) && d.pc == FreePass
    ensures Inv(FreeOne(d, lims).0, |lims|)
  {
    hide Inv; hide Relabel; hide Reclaim;
    var i := NextFreeing(d.conns);
    if i == |d.conns| {
      StartReadyKeeps(d, |lims|);
    } else if d.conns[i].sock.Some? {
      FreeHeldKeeps(d, i, |lims|);
    } else {
      FreeDoneKeeps(d, i, |lims|);
    }
  }

  lemma HandOverKeeps(d: Driver, nlims: nat)
    requires Inv(d, nlims) && d.pc == HandOver
    ensures Inv(Splice(d, ReadLocal, ReadQueue).(pc := ClosePass), nlims)
    ensures Splice(d, ReadLocal, ReadQueue).conns == d.conns
    ensures SameStates(d.socks, Splice(d, ReadLocal, ReadQueue).socks)
    ensures Carried(d.socks, Splice(d, ReadLocal, ReadQueue).socks, map[ReadLocal := ReadQueue])
  {
    hide ListsOk; hide At; hide ConnsHold; hide QueueIs; hide Splice; hide SocksFit;
    var e := Splice(d, ReadLocal, ReadQueue);
    SpliceKeeps(d, ReadLocal, ReadQueue, nlims);
    forall s | 0 <= s < |e.socks| ensures SockFits(e.socks[s], ClosePass, e.connless, nlims) {
      FitsAt(e, s, nlims);
    }
    FitsAll(e.socks, ClosePass, e.connless, nlims);
    PcKeeps(e, e.(pc := ClosePass), nlims);
  }

  lemma BackToTop(d: Driver, nlims: nat)
    requires Inv(d, nlims) && d.pc == AcceptStep
    ensures Inv(d.(pc := Top), nlims)
  {
    hide ListsOk; hide At; hide ConnsHold; hide QueueIs; hide SocksFit;
    forall s | 0 <= s < |d.socks| ensures SockFits(d.socks[s], Top, d.connless, nlims) {
      FitsAt(d, s, nlims);
    }
    FitsAll(d.socks, Top, d.connless, nlims);
    PcKeeps(d, d.(pc := Top), nlims);
  }

  lemma AcceptedFacts(d: Driver, c: Choice, nlims: nat)
    requires Inv(d.(pc := Top), nlims) && !d.stop && c.accept && At(d, Free) != []
    ensures var e, s := Accept(d, c), At(d, Free)[0];
            && ListsOk(e, NONE) && s < |d.socks|
            && e.socks == d.socks[s := Sock(ReadWait, Some(None), Wait, true, d.socks[s].ticket)]
            && At(e, Free) == At(d, Free)[1..] && e.nactive == d.nactive + 1
  {
    AtIsLists();
    hide *;
    var top, s := d.(pc := Top), At(d, Free)[0];
    HeadFacts(top, Free, nlims);
    AcceptsFirst(d, c);
    OpenedFacts(top, s);
  }

  lemma AcceptsFirst(d: Driver, c: Choice)
    requires !d.stop && c.accept && At(d, Free) != [] && At(d, Free)[0] < |d.socks|
    ensures Accept(d, c) == Accepted(d.(pc := Top), At(d, Free)[0]) && Listed(Free)
  {
    hide Accepted;
  }

  lemma OpenedFacts(d: Driver, s: nat)
    requires s < |d.socks| && ListsOk(Take(d, Free), s) && Take(d, Free).socks == d.socks
    ensures var e := Accepted(d, s);
            && ListsOk(e, NONE)
            && e.socks == d.socks[s := Sock(ReadWait, Some(None), Wait, true, d.socks[s].ticket)]
            && At(e, Free) == At(Take(d, Free), Free) && e.nactive == d.nactive + 1
  {
    hide ListsOk; hide At; hide Take; hide Set; hide Push;
    AtIsLists();
    var e := Take(d, Free);
    PutFacts(e, s, ReadWait, Some(None), Wait);
    PutCount(d, s);
    var g := Push(Set(e, s, ReadWait, Some(None)), Wait, s);
    ListsSame(g, Opened(g, s), NONE);
  }

  lemma PutCount(d: Driver, s: nat)
    requires s < |Take(d, Free).socks|
    ensures Push(Set(Take(d, Free), s, ReadWait, Some(None)), Wait, s).nactive == d.nactive
    ensures |Set(Take(d, Free), s, ReadWait, Some(None)).socks| == |Take(d, Free).socks|
  {
    hide At;
  }

  lemma AcceptFrame(d: Driver, c: Choice)
    requires !d.stop && c.accept && At(d, Free) != [] && At(d, Free)[0] < |d.socks|
    ensures var e := Accept(d, c);
            && e.pc == Top && e.conns == d.conns && e.fifo == d.fifo && e.pass == d.pass && e.arrivals == d.arrivals
            && e.connless == d.connless && e.fatal == d.fatal && e.reclosed == d.reclosed && e.crashed == d.crashed
  {
    hide At;
  }

  /** A connection is accepted on a free Sock. */
  lemma AcceptKeeps(d: Driver, c: Choice, nlims: nat)
    requires Inv(d, nlims) && d.pc == AcceptStep
    ensures Inv(Accept(d, c), nlims)
  {
    hide ListsOk; hide At; hide ConnsHold; hide QueueIs; hide SocksFit; hide PassIs;
    BackToTop(d, nlims);
    var top := d.(pc := Top);
    AtIsLists();
    if !d.stop && c.accept && At(top, Free) != [] {
      HeadFacts(top, Free, nlims);
      AcceptedFacts(d, c, nlims);
      AcceptFrame(d, c);
      hide Accept;
      MoveKeeps(top, Accept(d, c), At(d, Free)[0], nlims);
    }
  }

  lemma ThreadStepKeeps(d: Driver, lims: seq<Limits>, c: Choice)
    requires Inv(d, |lims|)
    ensures Inv(ThreadStep(d, lims, c).0, |lims|)
  {
    hide Inv; hide Collect; hide FreeOne; hide ReadyOne; hide Splice; hide CloseOne; hide PreqOne; hide QueOne;
    hide AdmitOne; hide Accept;
    if !d.fatal && !d.crashed && Known(c.read, lims) {
      match d.pc
      case Top => CollectKeeps(d, |lims|);
      case FreePass => FreeOneKeeps(d, lims);
      case ReadyPass => ReadyOneKeeps(d, c, |lims|);
      case HandOver => HandOverKeeps(d, |lims|);
      case ClosePass => CloseOneKeeps(d, c, |lims|);
      case PreqPass => PreqOneKeeps(d, |lims|);
      case QuePass => QueOneKeeps(d, |lims|);
      case RunPass => AdmitOneKeeps(d, lims, c);
      case AcceptStep => AcceptKeeps(d, c, |lims|);
    }
  }

  // ----- reader and connection threads -----

  lemma ReaderTakeKeeps(d: Driver, nlims: nat)
    requires Inv(d, nlims) && At(d, ReadQueue) != [] && At(d, ReadQueue)[0] < |d.socks|
    ensures Inv(Push(Take(d, ReadQueue), Reading, At(d, ReadQueue)[0]), nlims)
  {
    hide ListsOk; hide At; hide SocksFit; hide ConnsHold; hide QueueIs; hide PassIs;
    HeadFacts(d, ReadQueue, nlims);
    TakeAndPush(d, ReadQueue, Reading, nlims);
  }

  lemma HoldsWithout(l: seq<nat>, socks: seq<Sock>, p: Place, i: nat)
    requires Holds(l, socks, p, NONE) && i < |l|
    ensures Holds(Without(l, i), socks, p, l[i])
  {
    var r := Without(l, i);
    forall s | 0 <= s < |socks| && s != l[i] && socks[s].place == p ensures s in r {
      var j :| 0 <= j < |l| && l[j] == s;
      assert r[if j < i then j else j - 1] == s;
    }
  }

  lemma HoldsOther(l: seq<nat>, socks: seq<Sock>, p: Place, s: nat)
    requires Holds(l, socks, p, NONE) && s < |socks| && socks[s].place != p
    ensures Holds(l, socks, p, s)
  {
  }

  lemma PickFacts(d: Driver, p: Place, i: nat, nlims: nat)
    requires Inv(d, nlims) && Listed(p) && p != Free && i < |At(d, p)|
    ensures var s, e := At(d, p)[i], d.(lists := d.lists[p := Without(At(d, p), i)]);
            && s < |d.socks| && d.socks[s].place == p && ListsOk(e, s)
            && At(e, Free) == At(d, Free)
            && SockFits(d.socks[s], d.pc, d.connless, nlims)
  {
    var s, e := At(d, p)[i], d.(lists := d.lists[p := Without(At(d, p), i)]);
    assert ListOk(d, p, NONE);
    assert s < |d.socks| && d.socks[s].place == p;
    FitsAt(d, s, nlims);
    hide Holds;
    forall q | Listed(q) ensures ListOk(e, q, s) {
      assert ListOk(d, q, NONE);
      if q == p {
        HoldsWithout(At(d, p), d.socks, p, i);
        assert At(e, q) == Without(At(d, p), i);
      } else {
        HoldsOther(At(d, q), d.socks, q, s);
        assert At(e, q) == At(d, q);
      }
    }
  }

  lemma ReaderReturnKeeps(d: Driver, i: nat, result: ReadResult, nlims: nat)
    requires Inv(d, nlims) && i < |At(d, Reading)| && !result.More? && (result.Done? ==> result.limits < nlims)
    ensures var s := At(d, Reading)[i];
            && s < |d.socks|
            && var e := d.(lists := d.lists[Reading := Without(At(d, Reading), i)]);
               Inv(Push(AfterRead(e, s, result), RunQueue, s), nlims)
  {
    hide ListsOk; hide At; hide SocksFit; hide ConnsHold; hide QueueIs; hide PassIs;
    PickFacts(d, Reading, i, nlims);
    var s, e := At(d, Reading)[i], d.(lists := d.lists[Reading := Without(At(d, Reading), i)]);
    var f := Push(AfterRead(e, s, result), RunQueue, s);
    match result
    case Done(l) =>
      PutFacts(e, s, PreQue, Some(Some(l)), RunQueue);
      MoveKeeps(d, f, s, nlims);
    case Bad =>
      PutFacts(e, s, Error, d.socks[s].conn, RunQueue);
      MoveKeeps(d, f, s, nlims);
  }

  lemma ConnsRelease(conns: seq<Conn>, socks: seq<Sock>, socks': seq<Sock>, i: nat, s: nat, nlims: nat)
    requires ConnsHold(conns, socks, nlims) && i < |conns| && conns[i].sock == Some(s) && s < |socks|
    requires Only(socks, socks', s) && socks'[s].place != Held
    ensures ConnsHold(conns[i := conns[i].(sock := None)], socks', nlims)
  {
    var r := conns[i := conns[i].(sock := None)];
    forall u | 0 <= u < |socks'| && socks'[u].place == Held ensures exists j :: 0 <= j < |r| && r[j].sock == Some(u) {
      var j :| 0 <= j < |conns| && conns[j].sock == Some(u);
      assert r[j].sock == Some(u);
    }
  }

  /** A Conn lets go of its Sock, which goes elsewhere. */
  lemma ReleaseKeeps(d: Driver, f: Driver, i: nat, s: nat, nlims: nat)
    requires Inv(d, nlims) && i < |d.conns| && d.conns[i].sock == Some(s) && s < |d.socks|
    requires Only(d.socks, f.socks, s) && ListsOk(f, NONE) && Sound(f) && Counts(f)
    requires f.conns == d.conns[i := d.conns[i].(sock := None)]
    requires f.pc == d.pc && f.fifo == d.fifo && f.pass == d.pass && f.arrivals == d.arrivals
             && f.connless == d.connless
    requires SockFits(f.socks[s], d.pc, d.connless, nlims) && f.socks[s].ticket == d.socks[s].ticket
    requires f.socks[s].place != Held && !InFifo(f.socks[s]) && !InFifo(d.socks[s])
    ensures Inv(f, nlims)
  {
    hide ListsOk; hide SockFits; hide Counts; hide Sound; hide SocksFit; hide ConnsHold; hide QueueIs; hide PassIs;
    hide InFifo;
    FitsOne(d.socks, f.socks, s, d.pc, d.connless, d.connless, nlims);
    ConnsRelease(d.conns, d.socks, f.socks, i, s, nlims);
    QueueOne(d.fifo + d.pass, d.socks, f.socks, s, d.arrivals);
    NotQueued(d, s);
    PassOne(d.fifo, d.pass, d.socks, f.socks, s, d.pc);
  }

  lemma HeldFacts(d: Driver, i: nat, nlims: nat)
    requires Inv(d, nlims) && i < |d.conns| && d.conns[i].sock.Some?
    ensures var s := d.conns[i].sock.value;
            && s < |d.socks| && d.socks[s].place == Held && SockFits(d.socks[s], d.pc, d.connless, nlims)
            && ListsOk(d.(conns := d.conns[i := d.conns[i].(sock := None)]), s)
  {
    var s := d.conns[i].sock.value;
    FitsAt(d, s, nlims);
    hide ListOk;
    UnlistedOpens(d, s);
    ListsSame(d, d.(conns := d.conns[i := d.conns[i].(sock := None)]), s);
  }

  /** A refused Conn is closed: its Sock is lost. */
  lemma LoseKeeps(d: Driver, i: nat, keep: bool, nlims: nat)
    requires Inv(d, nlims) && i < |d.conns| && d.conns[i].sock.Some? && d.conns[i].sock.value < |d.socks|
    requires d.socks[d.conns[i].sock.value].state != Running
    ensures Inv(CloseConn(d, i, keep), nlims)
  {
    hide ConnsHold; hide ListsOk; hide At; hide SocksFit; hide QueueIs; hide PassIs;
    HeldFacts(d, i, nlims);
    var s := d.conns[i].sock.value;
    var e := d.(conns := d.conns[i := d.conns[i].(sock := None)]);
    var g := Set(e, s, CloseReq, d.socks[s].conn);
    AtIsLists();
    ListsSame(e, g, s);
    UnlistFacts(g, s, Lost);
    ReleaseKeeps(d, CloseConn(d, i, keep), i, s, nlims);
  }

  lemma RunningCloses(d: Driver, i: nat, keep: bool)
    requires i < |d.conns| && d.conns[i].sock.Some? && d.conns[i].sock.value < |d.socks|
    requires d.socks[d.conns[i].sock.value].state == Running
    ensures var s, e := d.conns[i].sock.value, d.(conns := d.conns[i := d.conns[i].(sock := None)]);
            CloseConn(d, i, keep)
              == Push(Set(e, s, if keep then ReadWait else CloseWait, d.socks[s].conn), CloseQueue, s)
  {
    hide Set; hide Push;
  }

  /** An admitted Conn is closed: its Sock goes back to the driver. */
  lemma GiveBackKeeps(d: Driver, i: nat, keep: bool, nlims: nat)
    requires Inv(d, nlims) && i < |d.conns| && d.conns[i].sock.Some? && d.conns[i].sock.value < |d.socks|
    requires d.socks[d.conns[i].sock.value].state == Running
    ensures Inv(CloseConn(d, i, keep), nlims)
  {
    hide ConnsHold; hide ListsOk; hide At; hide SocksFit; hide QueueIs; hide PassIs;
    hide Set; hide Push; hide CloseConn;
    HeldFacts(d, i, nlims);
    var s := d.conns[i].sock.value;
    var e := d.(conns := d.conns[i := d.conns[i].(sock := None)]);
    var state := if keep then ReadWait else CloseWait;
    AtIsLists();
    PutFacts(e, s, state, d.socks[s].conn, CloseQueue);
    PutFrame(e, s, state, d.socks[s].conn, CloseQueue);
    RunningCloses(d, i, keep);
    ReleaseKeeps(d, CloseConn(d, i, keep), i, s, nlims);
  }

  lemma PutFrame(e: Driver, s: nat, state: SockState, conn: Option<Option<nat>>, p: Place)
    requires s < |e.socks|
    ensures var f := Push(Set(e, s, state, conn), p, s);
            && f.conns == e.conns && f.pass == e.pass && f.arrivals == e.arrivals && f.nactive == e.nactive
            && f.fatal == e.fatal && f.reclosed == e.reclosed && f.crashed == e.crashed
  {
  }

  lemma CloseConnKeeps(d: Driver, i: nat, keep: bool, nlims: nat)
    requires Inv(d, nlims) && i < |d.conns|
    ensures Inv(CloseConn(d, i, keep), nlims)
  {
    hide Inv;
    if d.conns[i].sock.Some? && d.conns[i].sock.value < |d.socks| {
      if d.socks[d.conns[i].sock.value].state != Running {
        LoseKeeps(d, i, keep, nlims);
      } else {
        GiveBackKeeps(d, i, keep, nlims);
      }
    }
  }

  lemma ConnReturnKeeps(d: Driver, i: nat, nlims: nat)
    requires Inv(d, nlims) && i < |d.conns|
    ensures Inv(d.(conns := d.conns[i := d.conns[i].(returned := OnFreeList)]), nlims)
  {
    hide SocksFit; hide QueueIs; hide PassIs; hide ListOk;
    var e := d.(conns := d.conns[i := d.conns[i].(returned := OnFreeList)]);
    forall s | 0 <= s < |d.socks| && d.socks[s].place == Held
      ensures exists j :: 0 <= j < |e.conns| && e.conns[j].sock == Some(s)
    {
      var j :| 0 <= j < |d.conns| && d.conns[j].sock == Some(s);
      assert e.conns[j].sock == Some(s);
    }
    ListsSame(d, e, NONE);
    AtIsLists();
  }

  /** Every step of a driver, its readers and its connection threads keeps ownership. */
  lemma StepKeepsInv(d: Driver, lims: seq<Limits>, a: Action)
    requires Inv(d, |lims|)
    ensures Inv(Step(d, lims, a).0, |lims|)
  {
    hide Inv; hide ThreadStep; hide At; hide CloseConn; hide SocksFit;
    match a
    case DriverThread(c) => ThreadStepKeeps(d, lims, c);
    case ReaderTake =>
      if At(d, ReadQueue) != [] && At(d, ReadQueue)[0] < |d.socks| { ReaderTakeKeeps(d, |lims|); }
    case ReaderReturn(i, result) =>
      if i < |At(d, Reading)| && !result.More? && Known(result, lims) { ReaderReturnKeeps(d, i, result, |lims|); }
    case ConnClose(i, keep) =>
      if i < |d.conns| { CloseConnKeeps(d, i, keep, |lims|); }
    case ConnReturn(i) =>
      if i < |d.conns| { ConnReturnKeeps(d, i, |lims|); }
    case Shutdown => ShutdownKeeps(d, |lims|);
  }

  lemma ShutdownKeeps(d: Driver, nlims: nat)
    requires Inv(d, nlims)
    ensures Inv(d.(shutdown := true), nlims)
  {
    PcKeeps(d, d.(shutdown := true), nlims);
  }

  lemma InitLists(async: bool, maxsock: nat)
    ensures ListsOk(Init(async, maxsock), NONE)
  {
    var d := Init(async, maxsock);
    var l := seq(maxsock, i => i);
    forall p | Listed(p) ensures ListOk(d, p, NONE) {
      if p == Free {
        assert At(d, p) == l;
        forall s | 0 <= s < maxsock ensures s in l {
          assert l[s] == s;
        }
      }
    }
  }

  /** Free Socks fit anywhere. */
  lemma FreeSocksFit(socks: seq<Sock>, nlims: nat)
    requires forall s :: 0 <= s < |socks| ==> socks[s] == Sock(Closed, None, Free, false, 0)
    ensures SocksFit(socks, Top, false, nlims) && ConnsHold([], socks, nlims) && QueueIs([], socks, 0)
  {
  }

  lemma InitIsInv(async: bool, maxsock: nat, nlims: nat)
    ensures Inv(Init(async, maxsock), nlims)
  {
    InitLists(async, maxsock);
    FreeSocksFit(Init(async, maxsock).socks, nlims);
    var d := Init(async, maxsock);
    assert At(d, Free) == seq(maxsock, i => i) && d.fifo + d.pass == [];
    hide At; hide ListsOk; hide SocksFit; hide ConnsHold; hide QueueIs;
  }
}
