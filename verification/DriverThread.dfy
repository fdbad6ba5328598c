/** The driver thread as it is built (nsd/driver.c): Socks on linked lists, list pointers,
    counters, and a loop of passes. Whatever the environment decides, a turn of the loop is a
    run of steps of Driver.ThreadStep. */
module DriverThread {
  import opened Common
  import opened Driver
  import opened DriverLaws
  import opened DriverLists
  import opened DriverTurns
  import DriverSteps

  /** Socks as first linked: each to the next. */
  ghost predicate AllFree(socks: seq<SockStruct>, from: nat)
    reads socks
  {
    && (forall i :: 0 <= i < |socks| ==>
          socks[i].id == from + i && socks[i].state == Closed && socks[i].connPtr == None)
    && (forall i :: 0 <= i < |socks| ==> socks[i].nextPtr == if i + 1 < |socks| then socks[i + 1] else null)
  }

  lemma FreeNexts(socks: seq<SockStruct>, i: nat)
    requires AllFree(socks, 0) && i < |socks|
    ensures socks[i].nextPtr == if i + 1 < |socks| then socks[i + 1] else null
  {
  }

  method AllocateSocks(maxsock: nat) returns (block: seq<SockStruct>)
    ensures |block| == maxsock && fresh(block) && AllFree(block, 0)
  {
    block := [];
    var first: SockStruct?, n: nat := null, maxsock;
    while n > 0
      invariant n <= maxsock && |block| == maxsock - n && fresh(block)
      invariant first == if block == [] then null else block[0]
      invariant AllFree(block, n)
    {
      n := n - 1;
      var s := new SockStruct(n, first);
      block := [s] + block;
      first := s;
    }
  }

  class Thread {
    const async: bool
    const socks: seq<SockStruct>
    var listPtrs: map<Place, SockStruct?>
    var shutdown: bool
    var stop: bool
    var nactive: int
    var conns: seq<Conn>
    var fifo: seq<nat>            // firstConnPtr .. lastConnPtr, by Sock
    var connPtr: seq<nat>         // the rest of the old FIFO
    var limits: seq<Limits>
    var reading: seq<nat>         // the Socks the reader threads have
    var crashed: bool             // a NULL connPtr was followed
    var fatal: bool               // Ns_Fatal was called
    ghost var d: Driver
    ghost var nexts: seq<SockStruct?>

    ghost predicate Valid(hole: int)
      reads `listPtrs, `shutdown, `stop, `nactive, `conns, `fifo, `connPtr, `reading, `crashed, `fatal, `d, `nexts
      reads socks
    {
      && |socks| == |d.socks| == |nexts|
      && Block(socks) && Same(socks, d) && Links(socks, nexts)
      && ListsOk(d, hole) && Chained(listPtrs, d, socks, nexts)
      && Fields()
    }

    /** The Socks are allocated and pushed on the free list (lines 491-502). */
    constructor (async: bool, maxsock: nat, limits: seq<Limits>)
      ensures Good() && d == Init(async, maxsock) && this.limits == limits && fresh(socks)
    {
      hide *;
      var block := AllocateSocks(maxsock);
      this.async, this.limits, socks := async, limits, block;
      listPtrs := map[Free := if block == [] then null else block[0]];
      shutdown, stop, nactive, conns, fifo, connPtr := false, false, 0, [], [], [];
      reading, crashed, fatal := [], false, false;
      d := Init(async, maxsock);
      nexts := seq(maxsock, i requires 0 <= i < maxsock => if i + 1 < maxsock then block[i + 1] else null);
      new;
      StartsGood(maxsock);
    }

    lemma StartsGood(maxsock: nat)
      requires |socks| == |nexts| == maxsock && AllFree(socks, 0)
      requires forall i :: 0 <= i < maxsock ==> nexts[i] == if i + 1 < maxsock then socks[i + 1] else null
      requires listPtrs == map[Free := if socks == [] then null else socks[0]] && d == Init(async, maxsock)
      requires !shutdown && !stop && nactive == 0 && conns == [] && fifo == [] && connPtr == [] && reading == []
      requires !crashed && !fatal
      ensures Good()
    {
      DriverSteps.InitIsInv(async, maxsock, |limits|);
      InitChained(async, socks, nexts);
      assert ListsOk(d, NONE);
      hide Chained; hide ListsOk; hide SocksFit; hide ConnsHold; hide QueueIs; hide PassIs;
      forall i | 0 <= i < |socks| ensures socks[i].nextPtr == nexts[i] {
        FreeNexts(socks, i);
      }
    }

    ghost predicate Fields()
      reads `shutdown, `stop, `nactive, `conns, `fifo, `connPtr, `reading, `crashed, `fatal, `d
    {
      && async == d.async && shutdown == d.shutdown && stop == d.stop && nactive == d.nactive
      && conns == d.conns && fifo == d.fifo && connPtr == d.pass && crashed == d.crashed && fatal == d.fatal
      && reading == At(d, Reading)
    }

    ghost predicate Has(s: SockStruct) {
      s.id < |socks| && socks[s.id] == s
    }

    /** SockPush. */
    method SockPush(s: SockStruct, p: Place)
      requires Has(s) && Valid(s.id) && Linked(p)
      modifies this`listPtrs, this`d, this`nexts, s`nextPtr
      ensures Valid(NONE) && d == Push(old(d), p, s.id)
    {
      hide ListsOk; hide Chained; hide First; hide At;
      PushCloses(d, p, s.id);
      AtPushed(d, p, s.id, Reading);
      ChainsPushed(listPtrs, d, socks, nexts, s.id, p);
      s.nextPtr := First(listPtrs, p);
      nexts := nexts[s.id := First(listPtrs, p)];
      listPtrs := listPtrs[p := s];
      d := Push(d, p, s.id);
    }

    /** Take the first Sock of a list: `s = *p; *p = s->nextPtr`. */
    method SockTake(p: Place) returns (s: SockStruct)
      requires Valid(NONE) && Linked(p) && First(listPtrs, p) != null
      modifies this`listPtrs, this`d
      ensures Has(s) && Valid(s.id) && old(At(d, p)) != [] && s.id == old(At(d, p))[0]
      ensures s == old(First(listPtrs, p)) && d == Take(old(d), p)
    {
      hide ListsOk; hide Chained; hide First; hide At;
      TakeKeeps(d, p);
      ChainsTaken(listPtrs, d, socks, nexts, p);
      TakeOpens(d, p);
      AtTaken(d, p, Reading);
      s := First(listPtrs, p);
      listPtrs := listPtrs[p := s.nextPtr];
      d := Take(d, p);
    }

    /** SockState, and the Conn the Sock is responsible for. */
    method SetSock(s: SockStruct, state: SockState, connPtr: Option<Option<nat>>)
      requires Has(s) && Valid(s.id)
      modifies this`d, s`state, s`connPtr
      ensures Valid(s.id) && d == Set(old(d), s.id, state, connPtr)
    {
      hide ListsOk; hide Chained;
      ghost var was := d;
      s.state := state;
      s.connPtr := connPtr;
      d := Set(d, s.id, state, connPtr);
      ListsSame(was, d, s.id);
      SameChains(listPtrs, was, d, socks, nexts);
    }

    method SetAndPush(s: SockStruct, state: SockState, connPtr: Option<Option<nat>>, p: Place)
      requires Has(s) && Valid(s.id) && Linked(p)
      modifies this`listPtrs, this`d, this`nexts, s`state, s`connPtr, s`nextPtr
      ensures Valid(NONE) && d == Push(Set(old(d), s.id, state, connPtr), p, s.id)
    {
      hide *;
      SetSock(s, state, connPtr);
      SockPush(s, p);
    }

    /** SockClose. */
    method Close(s: SockStruct)
      requires Has(s) && Valid(s.id)
      modifies this`listPtrs, this`d, this`nexts, this`nactive, s`state, s`connPtr, s`nextPtr
      ensures Valid(NONE) && d == SockClose(old(d), s.id)
    {
      hide *;
      AllLinked();
      Look(s, s.id);
      ghost var was := d;
      CloseIs(d, s.id);
      SetAndPush(s, Closed, None, Free);
      OneLess(SockClose(was, s.id));
    }

    /** One Sock less is active. */
    method OneLess(ghost e: Driver)
      requires Valid(NONE) && Alike(d, e)
      requires e == d.(socks := e.socks, nactive := d.nactive - 1, reclosed := e.reclosed)
      modifies this`nactive, this`d
      ensures Valid(NONE) && d == e
    {
      hide ListsOk; hide Chained; hide First; hide At; hide Same; hide Links; hide Block;
      AlikeKeeps(listPtrs, d, e, socks, nexts, NONE);
      nactive := nactive - 1;
      d := e;
    }

    /** The Sock goes on no list. */
    ghost method Leave(s: SockStruct, p: Place)
      requires Has(s) && Valid(s.id) && !Listed(p)
      modifies this`d
      ensures Valid(NONE) && d == Unlist(old(d), s.id, p)
    {
      hide ListsOk; hide Chained;
      ghost var was := d;
      UnlistCloses(d, s.id, p);
      d := Unlist(d, s.id, p);
      SameChains(listPtrs, was, d, socks, nexts);
    }

    lemma Look(s: SockStruct, hole: int)
      requires Has(s) && Valid(hole)
      ensures |socks| == |d.socks| && s.id < |d.socks| && Fields()
      ensures s.state == d.socks[s.id].state && s.connPtr == d.socks[s.id].conn
    {
    }

    lemma Shared(hole: int)
      requires Valid(hole)
      ensures |socks| == |d.socks| && connPtr == d.pass && conns == d.conns && stop == d.stop
      ensures nactive == d.nactive && crashed == d.crashed
    {
    }

    lemma Lists(p: Place)
      requires Valid(NONE) && Linked(p)
      ensures First(listPtrs, p) == null <==> At(d, p) == []
      ensures |socks| == |d.socks| && Fields()
    {
      ChainsEmpty(listPtrs, d, socks, nexts, p);
    }

    /** Only bookkeeping changes. */
    ghost method Note(e: Driver)
      requires Valid(NONE) && e == d.(pc := e.pc, connless := e.connless)
      modifies this`d
      ensures Valid(NONE) && d == e
    {
      hide ListsOk; hide Chained;
      ListsSame(d, e, NONE);
      SameChains(listPtrs, d, e, socks, nexts);
      d := e;
    }

    /** Lines 1551-1563: one Sock returned for keep-alive or close. */
    method CloseNext(c: Choice)
      requires Valid(NONE) && First(listPtrs, Closing) != null
      modifies this, socks
      ensures Valid(NONE) && old(At(d, Closing)) != [] && d == CloseOne(old(d), c)
      ensures limits == old(limits)
    {
      hide ListsOk; hide Chained; hide First; hide Valid; hide At; hide Push; hide Set; hide Take; hide SockClose;
      ghost var was := d;
      var s := SockTake(Closing);
      Look(s, s.id);
      if !stop && s.state == ReadWait {
        SetAndPush(s, ReadWait, Some(None), Wait);
      } else if !c.graceful {
        Close(s);
      } else {
        ghost var bare := s.state == ReadWait;
        SockPush(s, Wait);
        Note(d.(connless := was.connless || bare));
      }
    }

    /** Lines 1569-1592: one Sock back from reading. */
    method PreqNext()
      requires Valid(NONE) && First(listPtrs, PreQueue) != null
      modifies this, socks
      ensures Valid(NONE) && old(At(d, PreQueue)) != [] && d == PreqOne(old(d))
      ensures limits == old(limits)
    {
      hide ListsOk; hide Chained; hide First; hide Valid; hide At; hide Push; hide Set; hide Take; hide SockClose;
      var s := SockTake(PreQueue);
      Look(s, s.id);
      if s.state != PreQue {
        Close(s);
      } else {
        SockPush(s, QueueNow);
      }
    }

    /** AppendConn of a newly arrived request. */
    method AppendConn(s: SockStruct)
      requires Has(s) && Valid(s.id)
      modifies this`d, this`fifo
      ensures Valid(NONE) && d == Arrive(old(d), s.id)
    {
      hide ListsOk; hide Chained; hide First; hide At; hide Alike; hide Same; hide Links;
      ghost var was := d;
      Leave(s, Parked);
      ghost var left := d;
      fifo := fifo + [s.id];
      d := Arrive(was, s.id);
      ArriveIs(was, s.id);
      AlikeKeeps(listPtrs, left, d, socks, nexts, NONE);
    }

    /** Lines 1600-1611. */
    method QueNext()
      requires Valid(NONE) && First(listPtrs, QueueNow) != null
      modifies this, socks
      ensures Valid(NONE) && old(At(d, QueueNow)) != [] && d == QueOne(old(d))
      ensures limits == old(limits)
    {
      hide ListsOk; hide Chained; hide First; hide Valid; hide At; hide Push; hide Arrive; hide Take; hide SockClose;
      var s := SockTake(QueueNow);
      Look(s, s.id);
      if s.state == Error {
        Close(s);
      } else {
        AppendConn(s);
      }
    }

    /** SockRead has left its result in the Sock. */
    method Read(s: SockStruct, result: ReadResult)
      requires Has(s) && Valid(s.id)
      modifies this`d, s`state, s`connPtr
      ensures Valid(s.id) && d == AfterRead(old(d), s.id, result)
    {
      hide Valid; hide Set;
      Look(s, s.id);
      match result
      case More =>
      case Done(l) => SetSock(s, PreQue, Some(Some(l)));
      case Bad => SetSock(s, Error, s.connPtr);
    }

    /** Lines 1391-1464: a Sock waiting for a request is read or has waited too long. */
    method ReadNext(s: SockStruct, c: Choice, ghost was: Driver)
      requires Has(s) && Valid(s.id) && s.id < |was.socks| == |d.socks|
      requires was.socks == d.socks && was.stop == d.stop && was.async == d.async
      requires c.input ==> s.connPtr.Some?
      modifies this, socks
      ensures Valid(NONE) && d == ReadOrWait(was, old(d), s.id, c)
      ensures limits == old(limits)
    {
      hide ListsOk; hide Chained; hide First; hide Valid; hide At; hide Push; hide AfterRead; hide SockClose;
      Look(s, s.id);
      if !c.input {
        if c.expired || stop {
          Close(s);
        } else {
          SockPush(s, Wait);
        }
      } else if !async {
        SockPush(s, ReadLocal);
      } else {
        Read(s, c.read);
        if c.read.More? {
          SockPush(s, Wait);
        } else {
          SockPush(s, PreQueue);
        }
      }
    }

    /** Lines 1356-1478, for the Sock taken off the old wait list. */
    method HandleNext(s: SockStruct, c: Choice, ghost was: Driver)
      requires Has(s) && Valid(s.id) && s.id < |was.socks| && d == Take(was, Ready)
      requires s.state in {CloseWait, ReadWait, RunWait, CloseReq, Error}
      requires s.state == ReadWait && c.input ==> s.connPtr.Some?
      modifies this, socks
      ensures Valid(NONE) && d == Poll(was, old(d), s.id, c)
      ensures limits == old(limits)
    {
      hide ListsOk; hide Chained; hide First; hide Valid; hide At; hide Push; hide Take; hide SockClose;
      hide ReadOrWait;
      hide Unlist;
      Look(s, s.id);
      TakeFrame(was);
      if s.state == CloseWait {
        if (c.input && c.eof) || c.expired || stop {
          Close(s);
        } else {
          SockPush(s, Wait);
        }
      } else if s.state == ReadWait {
        ReadNext(s, c, was);
      } else if s.state == RunWait {
        Leave(s, Parked);
      } else {
        Close(s);
      }
    }

    lemma Peek(p: Place)
      requires Valid(NONE) && Linked(p) && First(listPtrs, p) != null
      ensures Has(First(listPtrs, p)) && At(d, p) != [] && First(listPtrs, p).id == At(d, p)[0]
    {
      ChainsTaken(listPtrs, d, socks, nexts, p);
    }

    /** The process ends, with an error message or without. */
    method Die(fatal: bool)
      requires Valid(NONE)
      modifies this`d, this`fatal, this`crashed
      ensures Valid(NONE) && d == if fatal then old(d).(fatal := true) else old(d).(crashed := true)
    {
      hide ListsOk; hide Chained; hide At; hide Alike; hide Same; hide Links;
      ghost var was := d;
      if fatal {
        this.fatal := true;
        d := d.(fatal := true);
      } else {
        crashed := true;
        d := d.(crashed := true);
      }
      DeadIsAlike(was);
      AlikeKeeps(listPtrs, was, d, socks, nexts, NONE);
    }

    /** Lines 1354-1478: the next Sock of the old wait list. */
    method PollNext(c: Choice)
      requires Valid(NONE) && First(listPtrs, Ready) != null
      modifies this, socks
      ensures Valid(NONE) && old(At(d, Ready)) != [] && d == ReadyOne(old(d), c)
      ensures limits == old(limits)
    {
      hide ListsOk; hide Chained; hide First; hide Valid; hide At; hide Push; hide Take; hide SockClose;
      hide ReadOrWait;
      hide Unlist;
      Peek(Ready);
      Look(First(listPtrs, Ready), NONE);
      PollCases(d, c);
      if First(listPtrs, Ready).state == ReadWait && c.input && First(listPtrs, Ready).connPtr == None {
        Die(false);
        return;
      }
      if First(listPtrs, Ready).state !in {CloseWait, ReadWait, RunWait, CloseReq, Error} {
        Die(true);
        return;
      }
      ghost var was := d;
      var s := SockTake(Ready);
      HandleNext(s, c, was);
    }

    /** Lines 1662-1687, under the lock of Limits `l`. */
    method Decide(s: SockStruct, l: nat, c: Choice) returns (state: SockState)
      requires l < |limits| && Has(s) && Valid(s.id)
      modifies this`limits
      ensures Has(s) && Valid(s.id)
      ensures (state, limits) == Judge(old(limits), l, s.state == RunWait, c)
      ensures var L, drop := old(limits)[l], s.state == RunWait && c.input;
              var full, waiting := L.nrunning >= L.maxrun, L.nwaiting - if s.state == RunWait then 1 else 0;
              && (state == Dropped <==> drop) && (state == Running <==> !drop && !full)
              && (state == Timeout <==> !drop && full && c.expired)
              && (state == RunWait <==> !drop && full && !c.expired && waiting < L.maxwait)
              && (state == Overflow <==> !drop && full && !c.expired && waiting >= L.maxwait)
    {
      hide Valid;
      if s.state == RunWait {
        limits := limits[l := limits[l].(nwaiting := limits[l].nwaiting - 1)];
        if c.input {
          return Dropped;
        }
      }
      if limits[l].nrunning < limits[l].maxrun {
        limits := limits[l := limits[l].(nrunning := limits[l].nrunning + 1)];
        state := Running;
      } else if c.expired {
        state := Timeout;
      } else if limits[l].nwaiting < limits[l].maxwait {
        limits := limits[l := limits[l].(nwaiting := limits[l].nwaiting + 1)];
        state := RunWait;
      } else {
        state := Overflow;
      }
    }

    /** AppendConn of a Conn that keeps waiting. */
    method AppendWaiting(s: nat)
      requires Valid(NONE)
      modifies this`d, this`fifo
      ensures Valid(NONE) && d == old(d).(fifo := old(d).fifo + [s])
    {
      hide ListsOk; hide Chained; hide At; hide Alike; hide Same; hide Links;
      ghost var was := d;
      fifo := fifo + [s];
      d := d.(fifo := d.fifo + [s]);
      FieldsAlike(was, d);
      AlikeKeeps(listPtrs, was, d, socks, nexts, NONE);
    }

    /** NsQueueConn. */
    method QueueConn(s: SockStruct, state: SockState, limits: Option<nat>)
      requires Has(s) && Valid(s.id)
      modifies this`d, this`conns, s`state, s`connPtr
      ensures Valid(NONE) && d == Dispatch(old(d), s.id, state, limits)
    {
      hide ListsOk; hide Chained; hide At; hide Alike; hide Same; hide Links; hide Set; hide Unlist;
      SetSock(s, state, None);
      Leave(s, Held);
      ghost var was := d;
      conns := conns + [Conn(Some(s.id), limits, InUse)];
      d := d.(conns := d.conns + [Conn(Some(s.id), limits, InUse)]);
      FieldsAlike(was, d);
      AlikeKeeps(listPtrs, was, d, socks, nexts, NONE);
    }

    /** Lines 1688-1718: act on the state decided. */
    method ActOn(s: SockStruct, l: nat, state: SockState)
      requires Has(s) && Valid(s.id)
      modifies this`listPtrs, this`d, this`nexts, this`nactive, this`fifo, this`conns, s`state, s`connPtr, s`nextPtr
      ensures Valid(NONE) && d == Act(old(d), s.id, l, state)
    {
      hide Valid; hide Set; hide Push; hide SockClose; hide Dispatch;
      Look(s, s.id);
      if state == RunWait {
        SetAndPush(s, RunWait, s.connPtr, Wait);
        AppendWaiting(s.id);
        PushFrame(old(d), s.id);
      } else if state == Dropped {
        SetSock(s, Dropped, s.connPtr);
        Close(s);
      } else {
        QueueConn(s, state, if state == Running then Some(l) else None);
      }
    }

    /** The next Conn of the old FIFO; its Sock is on no list. */
    method NextConn() returns (s: SockStruct)
      requires Valid(NONE) && connPtr != [] && connPtr[0] < |socks| && !Listed(d.socks[connPtr[0]].place)
      modifies this`d, this`connPtr
      ensures Has(s) && s in socks && Valid(s.id) && s.id == old(connPtr)[0] && d == old(d).(pass := old(d).pass[1..])
      ensures connPtr == old(connPtr)[1..]
      ensures s.state == old(d).socks[s.id].state && s.connPtr == old(d).socks[s.id].conn
    {
      hide ListsOk; hide Chained; hide At; hide Alike; hide Same; hide Links;
      ghost var was := d;
      s := socks[connPtr[0]];
      Look(s, NONE);
      UnlistedOpens(d, s.id);
      connPtr := connPtr[1..];
      d := d.(pass := d.pass[1..]);
      FieldsAlike(was, d);
      AlikeKeeps(listPtrs, was, d, socks, nexts, s.id);
    }

    /** Lines 1617-1720: run, keep waiting or refuse one Conn of the FIFO. */
    method AdmitNext(c: Choice)
      requires Valid(NONE) && Inv(d, |limits|) && d.pc == RunPass && connPtr != []
      modifies this, socks
      ensures Valid(NONE) && (d, limits) == AdmitOne(old(d), old(limits), c)
      ensures |connPtr| < old(|connPtr|)
    {
      hide *;
      Shared(NONE);
      AdmitIs(d, limits, c);
      var s := NextConn();
      var l := s.connPtr.value.value;
      var state := Decide(s, l, c);
      ActOn(s, l, state);
    }

    // ----- whole lists -----

    /** `to = from; from = NULL`. */
    method TakeList(from: Place, to: Place)
      requires Valid(NONE) && Linked(from) && Linked(to) && from != to && First(listPtrs, to) == null
      modifies this`listPtrs, this`d
      ensures Valid(NONE) && d == Relabel(old(d), from, to)
    {
      hide ListsOk; hide Chained; hide First; hide At; hide Links;
      RelabelIsFine(listPtrs, d, socks, nexts, from, to);
      AtRelabeled(d, from, to, Reading);
      listPtrs := listPtrs[to := First(listPtrs, from)][from := null];
      d := Relabel(d, from, to);
    }

    /** `while ((s = from) != NULL) { from = s->nextPtr; SockPush(s, &to); }` */
    method SpliceAll(from: Place, to: Place)
      requires Valid(NONE) && Linked(from) && Linked(to) && from != to
      modifies this`listPtrs, this`d, this`nexts, socks`nextPtr
      ensures Valid(NONE) && d == Splice(old(d), from, to)
    {
      hide Valid; hide First; hide Splice; hide Push; hide Take; hide At;
      Lists(from);
      SpliceEnds(d, from, to);
      while First(listPtrs, from) != null
        invariant Valid(NONE) && Splice(d, from, to) == Splice(old(d), from, to)
        invariant First(listPtrs, from) == null ==> Splice(d, from, to) == d
        decreases |At(d, from)|
      {
        Peek(from);
        Shared(NONE);
        SpliceTurn(d, from, to);
        var s := SockTake(from);
        SockPush(s, to);
        Lists(from);
        SpliceEnds(d, from, to);
      }
    }

    /** The flags and the Conns returned, under the lock. */
    method ReadFlags()
      requires Valid(NONE)
      modifies this`d, this`stop, this`conns
      ensures Valid(NONE) && d == old(d).(stop := old(d).shutdown, conns := TakeReturned(old(d).conns))
      ensures First(listPtrs, Closing) == old(First(listPtrs, Closing))
    {
      hide ListsOk; hide Chained; hide First; hide At; hide Alike; hide Same; hide Links; hide TakeReturned;
      ghost var was := d;
      stop := shutdown;
      conns := TakeReturned(conns);
      d := d.(stop := d.shutdown, conns := TakeReturned(d.conns));
      FieldsAlike(was, d);
      AlikeKeeps(listPtrs, was, d, socks, nexts, NONE);
    }

    /** Lines 1218-1241: collect what the other threads left. */
    method CollectAll()
      requires Valid(NONE) && First(listPtrs, Closing) == null
      modifies this, socks`nextPtr
      ensures Valid(NONE) && d == Collect(old(d)) && limits == old(limits)
    {
      hide *;
      AllLinked();
      CollectIs(d);
      ReadFlags();
      TakeList(CloseQueue, Closing);
      Note(d.(pc := FreePass));
      SpliceAll(RunQueue, PreQueue);
    }

    // ----- Conns given to the connection threads -----

    /** The Conn gives back its place. */
    method GiveBack(c: Conn)
      requires Valid(NONE) && (c.limits.Some? ==> c.limits.value < |limits|)
      modifies this`limits
      ensures Valid(NONE) && limits == Discount(old(limits), c) && |limits| == old(|limits|)
    {
      hide Valid;
      if c.limits.Some? {
        var l := c.limits.value;
        limits := limits[l := limits[l].(nrunning := limits[l].nrunning - 1)];
      }
    }

    /** Conn `i` leaves its Sock, which is on no list, or has none to leave. */
    method LeaveSock(i: nat, rest: seq<Conn>) returns (s: SockStruct?)
      requires Valid(NONE) && Inv(d, |limits|) && i < |conns|
      modifies this`conns, this`d
      ensures d == old(d).(conns := rest) && (s == null <==> old(conns)[i].sock.None?)
      ensures s == null ==> Valid(NONE)
      ensures s != null ==> Has(s) && s in socks && Valid(s.id) && s.id == old(conns)[i].sock.value
    {
      hide ListsOk; hide Chained; hide At; hide Alike; hide Same; hide Links;
      ghost var was, hole := d, NONE;
      s := null;
      if conns[i].sock.Some? {
        DriverSteps.HeldFacts(d, i, |limits|);
        s := socks[conns[i].sock.value];
        hole := s.id;
        ListsSame(d.(conns := d.conns[i := d.conns[i].(sock := None)]), d, hole);
      }
      hide Inv;
      conns := rest;
      d := d.(conns := rest);
      FieldsAlike(was, d);
      AlikeKeeps(listPtrs, was, d, socks, nexts, hole);
    }

    /** Lines 1247-1307: reclaim Conn `i`. */
    method FreeNext(i: nat)
      requires Valid(NONE) && Inv(d, |limits|) && i < |conns|
      modifies this, socks
      ensures Valid(NONE) && i < |old(d).conns| && d == Reclaim(old(d), i)
      ensures limits == Discount(old(limits), old(d).conns[i])
    {
      hide *;
      Shared(NONE);
      ConnKnows(d, i, |limits|);
      ReclaimIs(d, i);
      GiveBack(conns[i]);
      var s := LeaveSock(i, conns[..i] + conns[i + 1..]);
      if s != null {
        Look(s, s.id);
        SetAndPush(s, CloseWait, s.connPtr, Closing);
      }
    }

    /** NsSockClose, by the connection thread that has Conn `i`; `keep` if DriverKeep agrees. */
    method NsSockClose(i: nat, keep: bool)
      requires Valid(NONE) && Inv(d, |limits|) && i < |conns|
      modifies this, socks
      ensures Valid(NONE) && i < |old(d).conns| && d == CloseConn(old(d), i, keep)
      ensures limits == old(limits)
    {
      hide *;
      Shared(NONE);
      ConnKnows(d, i, |limits|);
      CloseConnIs(d, i, keep);
      var s := LeaveSock(i, conns[i := conns[i].(sock := None)]);
      if s != null {
        Look(s, s.id);
        if s.state != Running {
          SetSock(s, CloseReq, s.connPtr);
          Leave(s, Lost);
        } else {
          SetAndPush(s, if keep then ReadWait else CloseWait, s.connPtr, CloseQueue);
        }
      }
    }

    // ----- the other threads -----

    /** A reader thread has the Sock. */
    method Hold(s: SockStruct)
      requires Has(s) && Valid(s.id)
      modifies this`reading, this`d
      ensures Valid(NONE) && d == Push(old(d), Reading, s.id)
    {
      hide ListsOk; hide Chained; hide First; hide At;
      PushCloses(d, Reading, s.id);
      ChainsHeld(listPtrs, d, socks, nexts, s.id);
      AtPushed(d, Reading, s.id, Reading);
      reading := [s.id] + reading;
      d := Push(d, Reading, s.id);
    }

    /** It no longer has the `i`th. */
    method Release(i: nat) returns (s: SockStruct)
      requires Valid(NONE) && i < |reading| && reading[i] < |socks| && ListsOk(Released(d, i), reading[i])
      modifies this`reading, this`d
      ensures Has(s) && s in socks && Valid(s.id) && s.id == old(reading)[i]
      ensures i < |At(old(d), Reading)| && d == Released(old(d), i)
    {
      hide ListsOk; hide Chained; hide First; hide At;
      ChainsReleased(listPtrs, d, socks, nexts, i);
      AtReleased(d, i, Reading);
      s := socks[reading[i]];
      reading := reading[..i] + reading[i + 1..];
      d := Released(d, i);
    }

    /** A reader thread takes the first Sock to be read. */
    method ReaderTakes()
      requires Valid(NONE)
      modifies this, socks
      ensures Valid(NONE) && (d, limits) == Step(old(d), old(limits), ReaderTake)
    {
      hide *;
      AllLinked();
      Lists(ReadQueue);
      ReaderTakeIs(d, limits);
      if First(listPtrs, ReadQueue) != null {
        Peek(ReadQueue);
        Look(First(listPtrs, ReadQueue), NONE);
        var s := SockTake(ReadQueue);
        Hold(s);
      }
    }

    /** A reader thread has read the `i`th Sock and returns it. */
    method ReaderReturns(i: nat, result: ReadResult)
      requires Valid(NONE) && Inv(d, |limits|)
      modifies this, socks
      ensures Valid(NONE) && (d, limits) == Step(old(d), old(limits), ReaderReturn(i, result))
    {
      hide *;
      AllLinked();
      Readers(NONE);
      if i < |reading| && !result.More? && (result.Done? ==> result.limits < |limits|) {
        Knows(result);
        ReaderReturnIs(d, limits, i, result);
        var s := Release(i);
        Read(s, result);
        SockPush(s, RunQueue);
      } else {
        Knows(result);
        ReaderReturnOff(d, limits, i, result);
      }
    }

    lemma Readers(hole: int)
      requires Valid(hole)
      ensures reading == At(d, Reading) && |socks| == |d.socks|
    {
    }

    lemma Knows(result: ReadResult)
      ensures Known(result, limits) <==> (result.Done? ==> result.limits < |limits|)
    {
    }

    /** Only the Conns or the flag change. */
    method SetConns(conns: seq<Conn>, shutdown: bool)
      requires Valid(NONE)
      modifies this`conns, this`shutdown, this`d
      ensures Valid(NONE) && d == old(d).(conns := conns, shutdown := shutdown)
    {
      hide ListsOk; hide Chained; hide At; hide Alike; hide Same; hide Links;
      ghost var was := d;
      this.conns, this.shutdown := conns, shutdown;
      d := d.(conns := conns, shutdown := shutdown);
      FieldsAlike(was, d);
      AlikeKeeps(listPtrs, was, d, socks, nexts, NONE);
    }

    lemma Flag()
      requires Valid(NONE)
      ensures shutdown == d.shutdown && conns == d.conns
    {
    }

    /** Another thread acts, if it can. */
    method Other(a: Action)
      requires Good() && !a.DriverThread?
      modifies this, socks
      ensures Good() && (d, limits) == Step(old(d), old(limits), a) && Apart(old(d), d)
    {
      hide *;
      Enter();
      OthersKeep(d, limits, a);
      Flag();
      match a {
        case ReaderTake => ReaderTakes();
        case ReaderReturn(i, result) => ReaderReturns(i, result);
        case ConnClose(i, keep) =>
          ConnStepsAre(d, limits, i, keep);
          if i < |conns| && conns[i].returned.InUse? {
            NsSockClose(i, keep);
          }
        case ConnReturn(i) =>
          ConnStepsAre(d, limits, i, false);
          if i < |conns| && conns[i].returned.InUse? {
            SetConns(conns[i := conns[i].(returned := OnFreeList)], shutdown);
          }
        case Shutdown =>
          ConnStepsAre(d, limits, 0, false);
          SetConns(conns, true);
      }
      Exit();
    }

    /** Any number of steps of the other threads, between two of the driver thread. */
    method Others(ghost h: History) returns (ghost r: History)
      requires Good() && Leads(h, d, limits)
      modifies this, socks
      ensures Good() && Leads(r, d, limits) && r.From(h) && Apart(old(d), d)
    {
      hide *;
      r := h;
      HistoryStarts(h);
      ApartFrom(d);
      var n: nat :| n >= 0;
      for i := 0 to n
        invariant Good() && Leads(r, d, limits) && r.From(h) && Apart(old(d), d)
      {
        var a: Action := *;
        if !a.DriverThread? {
          ghost var was := d;
          OneAction(r, h, d, limits, a);
          Other(a);
          ApartTwice(old(d), was, d);
          r := r.Also(a);
        }
      }
    }

    // ----- accepting -----

    /** SockAccept and SockWait. */
    method AcceptSock()
      requires Valid(NONE) && First(listPtrs, Free) != null
      modifies this, socks
      ensures Valid(NONE) && old(At(d, Free)) != [] && old(At(d, Free))[0] < |old(d).socks|
      ensures d == Accepted(old(d), old(At(d, Free))[0]) && limits == old(limits)
    {
      hide *;
      AllLinked();
      AcceptedIs(d);
      Peek(Free);
      Shared(NONE);
      var s := SockTake(Free);
      SetAndPush(s, ReadWait, Some(None), Wait);
      Shared(NONE);
      CountActive(s);
    }

    /** Lines 1726-1732. */
    method TryAccept(c: Choice)
      requires Valid(NONE)
      modifies this, socks
      ensures Valid(NONE) && d == Accept(old(d), c) && limits == old(limits)
    {
      hide *;
      AllLinked();
      AcceptIs(d, c);
      Lists(Free);
      Note(d.(pc := Top));
      if !stop && c.accept && First(listPtrs, Free) != null {
        AcceptSock();
      }
    }

    /** One more Sock is open. */
    method CountActive(s: SockStruct)
      requires Valid(NONE) && Has(s) && s.id < |d.socks|
      modifies this`nactive, this`d
      ensures Valid(NONE)
      ensures d == Opened(old(d), s.id)
    {
      hide ListsOk; hide Chained; hide At; hide Same; hide Links;
      ghost var was := d;
      nactive := nactive + 1;
      d := Opened(d, s.id);
      AlikeKeeps(listPtrs, was, d, socks, nexts, NONE);
    }

    // ----- the loop -----

    /** The thread is in good order and has not died. */
    ghost predicate Good()
      reads this, socks
    {
      Valid(NONE) && Inv(d, |limits|) && !d.crashed
    }

    lemma Enter()
      requires Good()
      ensures Valid(NONE) && Inv(d, |limits|) && !d.crashed
    {
    }

    lemma Exit()
      requires Valid(NONE) && Inv(d, |limits|) && !d.crashed
      ensures Good()
    {
    }

    /** What poll, recv, shutdown, accept and SockRead report this time. */
    method Environment() returns (c: Choice)
      ensures Known(c.read, limits)
    {
      c := *;
      if c.read.Done? && c.read.limits >= |limits| {
        c := c.(read := More);
      }
    }

    /** Between two steps of the loop the other threads do what they like. */
    method Between(ghost h: History) returns (ghost r: History)
      requires Valid(NONE) && Inv(d, |limits|) && !d.crashed && Leads(h, d, limits)
      modifies this, socks
      ensures Valid(NONE) && Inv(d, |limits|) && !d.crashed && Leads(r, d, limits) && r.From(h)
      ensures d.pc == old(d).pc && d.pass == old(d).pass && |d.conns| == |old(d).conns|
      ensures At(d, Ready) == old(At(d, Ready)) && At(d, Closing) == old(At(d, Closing))
      ensures At(d, PreQueue) == old(At(d, PreQueue)) && At(d, QueueNow) == old(At(d, QueueNow))
      ensures Finished(d) <==> Finished(old(d))
      ensures connPtr == d.pass && conns == d.conns && crashed == d.crashed
    {
      hide *;
      Exit();
      r := Others(h);
      ApartIs(old(d), d);
      Enter();
      Shared(NONE);
    }

    /** Free connections done executing; then take the wait list. */
    method FreePassAll(ghost h: History) returns (ghost r: History)
      requires Good() && d.pc == FreePass && Leads(h, d, limits)
      modifies this, socks
      ensures Good() && d.pc == ReadyPass && Leads(r, d, limits) && r.From(h)
    {
      hide *;
      r := h;
      Enter();
      AllLinked();
      HistoryStarts(h);
      r := Between(h);
      var i := NextReturned();
      while i < |conns|
        invariant Valid(NONE) && Inv(d, |limits|) && !d.crashed
        invariant d.pc == FreePass && Leads(r, d, limits) && r.From(h)
        invariant i == NextFreeing(conns) && conns == d.conns
        decreases |conns|
      {
        FreeTurn(d, limits);
        OneMore(r, h, d, limits, IDLE);
        FreeNext(i);
        Shared(NONE);
        r := Between(r.Then(IDLE));
        i := NextReturned();
      }
      FreeEnds(d, limits);
      OneMore(r, h, d, limits, IDLE);
      Lists(Ready);
      TakeList(Wait, Ready);
      Note(d.(pc := ReadyPass));
      r := r.Then(IDLE);
      Exit();
    }

    /** The first Conn returned, if there is one. */
    method NextReturned() returns (i: nat)
      requires Valid(NONE)
      ensures i == NextFreeing(conns) && conns == d.conns
    {
      i := 0;
      while i < |conns| && !conns[i].returned.Freeing?
        invariant i <= |conns| && forall j :: 0 <= j < i ==> !conns[j].returned.Freeing?
      {
        i := i + 1;
      }
    }

    /** Process ready sockets. Only a Sock without a Conn ends the process here. */
    method ReadyPassAll(ghost h: History) returns (ghost r: History)
      requires Good() && d.pc == ReadyPass && Leads(h, d, limits)
      modifies this, socks
      ensures Leads(r, d, limits) && r.From(h) && crashed == d.crashed
      ensures !crashed ==> Good() && d.pc == HandOver
    {
      hide *;
      r := h;
      Enter();
      AllLinked();
      HistoryStarts(h);
      Shared(NONE);
      while First(listPtrs, Ready) != null && !crashed
        invariant Valid(NONE) && Inv(d, |limits|) && crashed == d.crashed
        invariant d.pc == ReadyPass && Leads(r, d, limits) && r.From(h)
        decreases !crashed, |At(d, Ready)|
      {
        Lists(Ready);
        r := Between(r);
        Lists(Ready);
        var c := Environment();
        PollTurn(d, limits, c);
        OneMore(r, h, d, limits, c);
        PollNext(c);
        Shared(NONE);
        r := r.Then(c);
      }
      if crashed {
        return;
      }
      Lists(Ready);
      r := Between(r);
      PollEnds(d, limits);
      OneMore(r, h, d, limits, IDLE);
      Note(d.(pc := HandOver));
      r := r.Then(IDLE);
      Shared(NONE);
      Exit();
    }

    /** Move Socks to the reader threads. */
    method HandOverAll(ghost h: History) returns (ghost r: History)
      requires Good() && d.pc == HandOver && Leads(h, d, limits)
      modifies this, socks
      ensures Good() && d.pc == ClosePass && Leads(r, d, limits) && r.From(h)
    {
      hide *;
      Enter();
      AllLinked();
      HistoryStarts(h);
      r := Between(h);
      HandOverTurn(d, limits);
      OneMore(r, h, d, limits, IDLE);
      SpliceAll(ReadLocal, ReadQueue);
      Note(d.(pc := ClosePass));
      r := r.Then(IDLE);
      Exit();
    }

    /** Process Socks returned for keep-alive or close. */
    method ClosePassAll(ghost h: History) returns (ghost r: History)
      requires Good() && d.pc == ClosePass && Leads(h, d, limits)
      modifies this, socks
      ensures Good() && d.pc == PreqPass && Leads(r, d, limits) && r.From(h)
    {
      hide *;
      r := h;
      Enter();
      AllLinked();
      HistoryStarts(h);
      while First(listPtrs, Closing) != null
        invariant Valid(NONE) && Inv(d, |limits|) && !d.crashed
        invariant d.pc == ClosePass && Leads(r, d, limits) && r.From(h)
        decreases |At(d, Closing)|
      {
        Lists(Closing);
        r := Between(r);
        Lists(Closing);
        var c := Environment();
        CloseTurn(d, limits, c);
        OneMore(r, h, d, limits, c);
        CloseNext(c);
        r := r.Then(c);
      }
      Lists(Closing);
      r := Between(r);
      CloseEnds(d, limits);
      OneMore(r, h, d, limits, IDLE);
      Note(d.(pc := PreqPass));
      r := r.Then(IDLE);
      Exit();
    }

    /** Process Socks ready to run. */
    method PreqPassAll(ghost h: History) returns (ghost r: History)
      requires Good() && d.pc == PreqPass && Leads(h, d, limits)
      modifies this, socks
      ensures Good() && d.pc == QuePass && Leads(r, d, limits) && r.From(h)
    {
      hide *;
      r := h;
      Enter();
      AllLinked();
      HistoryStarts(h);
      while First(listPtrs, PreQueue) != null
        invariant Valid(NONE) && Inv(d, |limits|) && !d.crashed
        invariant d.pc == PreqPass && Leads(r, d, limits) && r.From(h)
        decreases |At(d, PreQueue)|
      {
        Lists(PreQueue);
        r := Between(r);
        Lists(PreQueue);
        PreqTurn(d, limits);
        OneMore(r, h, d, limits, IDLE);
        PreqNext();
        r := r.Then(IDLE);
      }
      Lists(PreQueue);
      r := Between(r);
      PreqEnds(d, limits);
      OneMore(r, h, d, limits, IDLE);
      Note(d.(pc := QuePass));
      r := r.Then(IDLE);
      Exit();
    }

    /** Add Socks now ready to the queue; then take the queue. */
    method QuePassAll(ghost h: History) returns (ghost r: History)
      requires Good() && d.pc == QuePass && Leads(h, d, limits)
      modifies this, socks
      ensures Good() && d.pc == RunPass && Leads(r, d, limits) && r.From(h)
    {
      hide *;
      r := h;
      Enter();
      AllLinked();
      HistoryStarts(h);
      while First(listPtrs, QueueNow) != null
        invariant Valid(NONE) && Inv(d, |limits|) && !d.crashed
        invariant d.pc == QuePass && Leads(r, d, limits) && r.From(h)
        decreases |At(d, QueueNow)|
      {
        Lists(QueueNow);
        r := Between(r);
        Lists(QueueNow);
        QueTurn(d, limits);
        OneMore(r, h, d, limits, IDLE);
        QueNext();
        r := r.Then(IDLE);
      }
      Lists(QueueNow);
      r := Between(r);
      QueEnds(d, limits);
      OneMore(r, h, d, limits, IDLE);
      TakeFifo();
      r := r.Then(IDLE);
      Exit();
    }

    /** `connPtr = firstConnPtr; firstConnPtr = lastConnPtr = NULL`. */
    method TakeFifo()
      requires Valid(NONE)
      modifies this`connPtr, this`fifo, this`d
      ensures Valid(NONE) && d == old(d).(pc := RunPass, pass := old(d).fifo, fifo := [])
    {
      hide ListsOk; hide Chained; hide At; hide Alike; hide Same; hide Links;
      ghost var was := d;
      connPtr, fifo := fifo, [];
      d := d.(pc := RunPass, pass := d.fifo, fifo := []);
      FieldsAlike(was, d);
      AlikeKeeps(listPtrs, was, d, socks, nexts, NONE);
    }

    /** Attempt to queue any waiting connections. */
    method RunPassAll(ghost h: History) returns (ghost r: History)
      requires Good() && d.pc == RunPass && Leads(h, d, limits)
      modifies this, socks
      ensures Good() && d.pc == AcceptStep && Leads(r, d, limits) && r.From(h)
    {
      hide *;
      r := h;
      Enter();
      HistoryStarts(h);
      Shared(NONE);
      while connPtr != []
        invariant Valid(NONE) && Inv(d, |limits|) && !d.crashed && connPtr == d.pass
        invariant d.pc == RunPass && Leads(r, d, limits) && r.From(h)
        decreases |connPtr|
      {
        r := Between(r);
        var c := Environment();
        AdmitTurn(d, limits, c);
        OneMore(r, h, d, limits, c);
        AdmitNext(c);
        Shared(NONE);
        r := r.Then(c);
      }
      r := Between(r);
      AdmitEnds(d, limits);
      OneMore(r, h, d, limits, IDLE);
      Note(d.(pc := AcceptStep));
      r := r.Then(IDLE);
      Exit();
    }

    /** Attempt to accept a new Sock. */
    method AcceptAll(ghost h: History) returns (ghost r: History)
      requires Good() && d.pc == AcceptStep && Leads(h, d, limits)
      modifies this, socks
      ensures Good() && d.pc == Top && Leads(r, d, limits) && r.From(h)
    {
      hide *;
      Enter();
      HistoryStarts(h);
      r := Between(h);
      var c := Environment();
      AcceptTurn(d, limits, c);
      OneMore(r, h, d, limits, c);
      TryAccept(c);
      r := r.Then(c);
      Exit();
    }

    /** Get current flags, free Conns, closing Socks and Socks returning from the readers. */
    method CollectPass(ghost h: History) returns (ghost r: History)
      requires Good() && d.pc == Top && !Finished(d) && Leads(h, d, limits)
      modifies this, socks
      ensures Good() && d.pc == FreePass && Leads(r, d, limits) && r.From(h) && r.actions != []
    {
      hide *;
      Enter();
      AllLinked();
      HistoryStarts(h);
      r := Between(h);
      CollectTurn(d, limits);
      Lists(Closing);
      OneMore(r, h, d, limits, IDLE);
      CollectAll();
      Started(d, limits, IDLE, r);
      r := r.Then(IDLE);
      Exit();
    }

    /** The rest of the loop once ready Socks have been processed. */
    method FinishTurn(ghost h: History) returns (ghost r: History)
      requires Good() && d.pc == HandOver && Leads(h, d, limits)
      modifies this, socks
      ensures Good() && d.pc == Top && Leads(r, d, limits) && r.From(h)
    {
      hide *;
      HistoryStarts(h);
      r := HandOverAll(h);
      r := ClosePassAll(r);
      r := PreqPassAll(r);
      r := QuePassAll(r);
      r := RunPassAll(r);
      r := AcceptAll(r);
    }

    /** A turn of DriverThread's loop, unless it has ended: whatever the environment decides and
        the other threads do meanwhile, it is a run of steps of the state machine. */
    method Turn() returns (ghost actions: seq<Action>)
      requires Good() && d.pc == Top
      modifies this, socks
      ensures (d, limits) == Steps(old(d), old(limits), actions)
      ensures !d.crashed ==> Good() && d.pc == Top
      ensures actions == [] <==> Finished(old(d))
    {
      hide *;
      Enter();
      Shared(NONE);
      ghost var start := History(d, limits, []);
      Started(d, limits, IDLE, start);
      HistoryStarts(start);
      FinishedIs(d);
      if stop && nactive == 0 {
        return [];
      }
      ghost var was, lims := d, limits;
      ghost var h := CollectPass(start);
      Started(was, lims, IDLE, h);
      HistoryStarts(h);
      h := FreePassAll(h);
      h := ReadyPassAll(h);
      if !crashed {
        h := FinishTurn(h);
        Enter();
      }
      Started(was, lims, IDLE, h);
      Led(h, d, limits);
      actions := h.actions;
    }
  }
}
