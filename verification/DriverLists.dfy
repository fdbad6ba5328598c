/** Socks linked through their one nextPtr on whichever list they are on (nsd/driver.c): the
    links always spell out the lists of the driver's state, because no Sock is on two. */
module DriverLists {
  import opened Common
  import opened Driver
  import opened DriverLaws
  import DriverSteps

  /** A Sock; `id` is its position in the block allocated at startup, and connPtr is as in
      Driver.Sock. */
  class SockStruct {
    const id: nat
    var state: SockState
    var connPtr: Option<Option<nat>>
    var nextPtr: SockStruct?

    constructor (id: nat, nextPtr: SockStruct?)
      ensures this.id == id && state == Closed && connPtr == None && this.nextPtr == nextPtr
    {
      this.id, this.nextPtr := id, nextPtr;
      state, connPtr := Closed, None;
    }
  }

  function First(ptrs: map<Place, SockStruct?>, p: Place): SockStruct? {
    if p in ptrs then ptrs[p] else null
  }

  /** Every Sock is where its id says, and no Sock is there twice. */
  ghost predicate Block(socks: seq<SockStruct>) {
    forall i :: 0 <= i < |socks| ==> socks[i].id == i
  }

  ghost predicate Same(socks: seq<SockStruct>, d: Driver)
    reads socks`state, socks`connPtr
  {
    && |socks| == |d.socks|
    && forall i :: 0 <= i < |socks| ==> socks[i].state == d.socks[i].state && socks[i].connPtr == d.socks[i].conn
  }

  /** `nexts` is what the Socks' links are. */
  ghost predicate Links(socks: seq<SockStruct>, nexts: seq<SockStruct?>)
    reads socks`nextPtr
  {
    |socks| == |nexts| && forall i :: 0 <= i < |socks| ==> socks[i].nextPtr == nexts[i]
  }

  /** The links from `first` on lead through the Socks of `l`, in order. */
  ghost predicate Chain(first: SockStruct?, l: seq<nat>, socks: seq<SockStruct>, nexts: seq<SockStruct?>)
    requires |nexts| == |socks|
  {
    if l == [] then first == null
    else l[0] < |socks| && first == socks[l[0]] && Chain(nexts[l[0]], l[1..], socks, nexts)
  }

  /** The lists linked through nextPtr: all but the Socks the reader threads hold. */
  ghost predicate Linked(p: Place) {
    Listed(p) && p != Reading
  }

  lemma AllLinked()
    ensures Linked(CloseQueue) && Linked(Closing) && Linked(RunQueue) && Linked(PreQueue)
    ensures Linked(ReadLocal) && Linked(ReadQueue) && Linked(Wait) && Linked(Ready) && Linked(Free) && Linked(QueueNow)
  {
  }

  ghost predicate Chained(ptrs: map<Place, SockStruct?>, d: Driver, socks: seq<SockStruct>, nexts: seq<SockStruct?>)
    requires |nexts| == |socks|
  {
    forall p :: Linked(p) ==> Chain(First(ptrs, p), At(d, p), socks, nexts)
  }

  lemma {:induction false} ChainElsewhere(first: SockStruct?, l: seq<nat>, socks: seq<SockStruct>,
                                          nexts: seq<SockStruct?>,
                                          s: nat, next: SockStruct?)
    requires |nexts| == |socks| && s < |socks| && forall i :: 0 <= i < |l| ==> l[i] != s
    requires Chain(first, l, socks, nexts)
    ensures Chain(first, l, socks, nexts[s := next])
  {
    if l != [] {
      ChainElsewhere(nexts[l[0]], l[1..], socks, nexts, s, next);
    }
  }

  lemma ChainPushed(first: SockStruct?, l: seq<nat>, socks: seq<SockStruct>, nexts: seq<SockStruct?>, s: nat)
    requires |nexts| == |socks| && s < |socks| && forall i :: 0 <= i < |l| ==> l[i] != s
    requires Chain(first, l, socks, nexts)
    ensures Chain(socks[s], [s] + l, socks, nexts[s := first])
  {
    ChainElsewhere(first, l, socks, nexts, s, first);
    assert ([s] + l)[1..] == l;
  }

  lemma ChainTaken(first: SockStruct?, l: seq<nat>, socks: seq<SockStruct>, nexts: seq<SockStruct?>)
    requires |nexts| == |socks| && Chain(first, l, socks, nexts)
    ensures first == null <==> l == []
    ensures l != [] ==> l[0] < |socks| && first == socks[l[0]] && Chain(nexts[l[0]], l[1..], socks, nexts)
  {
  }

  /** One list of all Socks, in order. */
  lemma {:induction false} ChainFrom(n: nat, socks: seq<SockStruct>, nexts: seq<SockStruct?>)
    requires |nexts| == |socks| && n <= |socks|
    requires forall i :: 0 <= i < |socks| ==> nexts[i] == if i + 1 < |socks| then socks[i + 1] else null
    ensures Chain(if n == |socks| then null else socks[n], seq(|socks| - n, i => n + i), socks, nexts)
    decreases |socks| - n
  {
    if n < |socks| {
      ChainFrom(n + 1, socks, nexts);
      assert seq(|socks| - n, i => n + i)[1..] == seq(|socks| - (n + 1), i => n + 1 + i);
    }
  }

  lemma InitChained(async: bool, socks: seq<SockStruct>, nexts: seq<SockStruct?>)
    requires |nexts| == |socks|
    requires forall i :: 0 <= i < |socks| ==> nexts[i] == if i + 1 < |socks| then socks[i + 1] else null
    ensures Chained(map[Free := if socks == [] then null else socks[0]], Init(async, |socks|), socks, nexts)
  {
    ChainFrom(0, socks, nexts);
    assert seq(|socks| - 0, i => 0 + i) == seq(|socks|, i => i);
  }

  lemma SameChains(ptrs: map<Place, SockStruct?>, d: Driver, e: Driver, socks: seq<SockStruct>, nexts: seq<SockStruct?>)
    requires |nexts| == |socks| && Chained(ptrs, d, socks, nexts) && e.lists == d.lists
    ensures Chained(ptrs, e, socks, nexts) && At(e, Reading) == At(d, Reading)
  {
    hide Chain; hide First;
  }

  /** What the thread's own fields and links depend on is the same in `d` and `e`. */
  ghost predicate Alike(d: Driver, e: Driver) {
    && e.lists == d.lists && |e.socks| == |d.socks|
    && forall i :: 0 <= i < |d.socks| ==>
         && e.socks[i].state == d.socks[i].state && e.socks[i].conn == d.socks[i].conn
         && e.socks[i].place == d.socks[i].place
  }

  lemma AlikeKeeps(ptrs: map<Place, SockStruct?>, d: Driver, e: Driver, socks: seq<SockStruct>, nexts: seq<SockStruct?>,
                   hole: int)
    requires Alike(d, e) && Same(socks, d) && ListsOk(d, hole) && |nexts| == |socks| && Chained(ptrs, d, socks, nexts)
    ensures Same(socks, e) && ListsOk(e, hole) && Chained(ptrs, e, socks, nexts) && At(e, Reading) == At(d, Reading)
  {
    hide Chained; hide ListsOk;
    ListsSame(d, e, hole);
    SameChains(ptrs, d, e, socks, nexts);
  }

  /** SockClose is Set and Push, and counting. */
  lemma CloseIs(d: Driver, s: nat)
    requires s < |d.socks|
    ensures var p, e := Push(Set(d, s, Closed, None), Free, s), SockClose(d, s);
            Alike(p, e) && e == p.(socks := e.socks, nactive := p.nactive - 1, reclosed := e.reclosed)
  {
  }

  /** No other list changes when a Sock is closed or its state is set. */
  lemma OthersStay(d: Driver, s: nat, state: SockState, conn: Option<Option<nat>>, q: Place)
    requires s < |d.socks|
    ensures At(Set(d, s, state, conn), q) == At(d, q)
    ensures At(Arrive(d, s), q) == At(d, q)
    ensures At(Unlist(d, s, Parked), q) == At(d, q)
    ensures q != Free ==> At(SockClose(d, s), q) == At(d, q)
  {
    SameLists(d, Set(d, s, state, conn), q);
    SameLists(d, Set(d, s, Closed, None), q);
    SameLists(d, Unlist(d, s, Parked), q);
    SameLists(d, Arrive(d, s), q);
    CloseIs(d, s);
    AtPushed(Set(d, s, Closed, None), Free, s, q);
    SameLists(Push(Set(d, s, Closed, None), Free, s), SockClose(d, s), q);
    SetLists(d, s, state, conn);
    hide At; hide Set; hide Push; hide SockClose; hide Arrive; hide Unlist;
  }

  lemma SetLists(d: Driver, s: nat, state: SockState, conn: Option<Option<nat>>)
    requires s < |d.socks|
    ensures Set(d, s, state, conn).lists == Set(d, s, Closed, None).lists == d.lists
    ensures Unlist(d, s, Parked).lists == Arrive(d, s).lists == d.lists
  {
  }

  /** Every Sock dealt with makes its list shorter. */
  lemma CloseShortens(d: Driver, c: Choice)
    requires At(d, Closing) != [] && At(d, Closing)[0] < |d.socks|
    ensures |At(CloseOne(d, c), Closing)| < |At(d, Closing)|
  {
    var s, e := At(d, Closing)[0], Take(d, Closing);
    AtTaken(d, Closing, Closing);
    OthersStay(e, s, ReadWait, Some(None), Closing);
    AtPushed(Set(e, s, ReadWait, Some(None)), Wait, s, Closing);
    AtPushed(e, Wait, s, Closing);
    SameLists(Push(e, Wait, s), CloseOne(d, c), Closing);
    hide At; hide Set; hide Push; hide SockClose; hide Take;
  }

  lemma SameLists(d: Driver, e: Driver, q: Place)
    ensures e.lists == d.lists ==> At(e, q) == At(d, q)
  {
  }

  lemma PreqShortens(d: Driver)
    requires At(d, PreQueue) != [] && At(d, PreQueue)[0] < |d.socks|
    ensures |At(PreqOne(d), PreQueue)| < |At(d, PreQueue)|
  {
    var s, e := At(d, PreQueue)[0], Take(d, PreQueue);
    AtTaken(d, PreQueue, PreQueue);
    OthersStay(e, s, ReadWait, None, PreQueue);
    AtPushed(e, QueueNow, s, PreQueue);
    hide At; hide Set; hide Push; hide SockClose; hide Take;
  }

  lemma QueShortens(d: Driver)
    requires At(d, QueueNow) != [] && At(d, QueueNow)[0] < |d.socks|
    ensures |At(QueOne(d), QueueNow)| < |At(d, QueueNow)|
  {
    var s, e := At(d, QueueNow)[0], Take(d, QueueNow);
    AtTaken(d, QueueNow, QueueNow);
    OthersStay(e, s, ReadWait, None, QueueNow);
    hide At; hide Set; hide Push; hide SockClose; hide Take; hide Arrive;
  }

  lemma ReadShortens(d: Driver, e: Driver, s: nat, c: Choice)
    requires s < |d.socks| == |e.socks| && (c.input ==> d.socks[s].conn.Some?)
    ensures At(ReadOrWait(d, e, s, c), Ready) == At(e, Ready)
  {
    var f := AfterRead(e, s, c.read);
    OthersStay(e, s, Error, d.socks[s].conn, Ready);
    AtPushed(e, Wait, s, Ready);
    AtPushed(e, ReadLocal, s, Ready);
    AtPushed(f, Wait, s, Ready);
    AtPushed(f, PreQueue, s, Ready);
    ReadAt(e, s, c.read);
    hide At; hide Set; hide Push; hide SockClose; hide AfterRead;
  }

  lemma ReadAt(d: Driver, s: nat, result: ReadResult)
    requires s < |d.socks|
    ensures At(AfterRead(d, s, result), Ready) == At(d, Ready)
  {
  }

  lemma PollIs(d: Driver, c: Choice)
    requires At(d, Ready) != [] && At(d, Ready)[0] < |d.socks|
    requires d.socks[At(d, Ready)[0]].state in {CloseWait, ReadWait, RunWait, CloseReq, Error}
    ensures var s, e, f := At(d, Ready)[0], Take(d, Ready), ReadyOne(d, c);
            && (d.socks[s].state == ReadWait ==> f == ReadOrWait(d, e, s, c))
            && (d.socks[s].state != ReadWait ==>
                  f == Unlist(e, s, Parked) || f == SockClose(e, s) || f == Push(e, Wait, s))
  {
    hide At; hide Push; hide SockClose; hide ReadOrWait; hide Take; hide Unlist;
  }

  lemma PollShortens(d: Driver, c: Choice)
    requires At(d, Ready) != [] && At(d, Ready)[0] < |d.socks|
    requires d.socks[At(d, Ready)[0]].state in {CloseWait, ReadWait, RunWait, CloseReq, Error}
    requires !Bare(d.socks[At(d, Ready)[0]], c)
    ensures |At(ReadyOne(d, c), Ready)| < |At(d, Ready)|
  {
    var s, e := At(d, Ready)[0], Take(d, Ready);
    PollIs(d, c);
    AtTaken(d, Ready, Ready);
    hide At; hide Push; hide SockClose; hide ReadOrWait; hide Take; hide Unlist; hide ReadyOne;
    if d.socks[s].state == ReadWait {
      ReadShortens(d, e, s, c);
    } else {
      OthersStay(e, s, Error, None, Ready);
      AtPushed(e, Wait, s, Ready);
    }
  }

  /** Input for a Sock without a Conn to put it in. */
  predicate Bare(k: Sock, c: Choice) {
    k.state == ReadWait && c.input && k.conn.None?
  }

  lemma ArriveIs(d: Driver, s: nat)
    requires s < |d.socks|
    ensures var u, e := Unlist(d, s, Parked), Arrive(d, s);
            Alike(u, e) && e == u.(socks := e.socks, fifo := d.fifo + [s], arrivals := d.arrivals + 1)
  {
  }

  lemma DeadIsAlike(d: Driver)
    ensures Alike(d, d.(fatal := true)) && Alike(d, d.(crashed := true))
  {
  }

  lemma PollCases(d: Driver, c: Choice)
    requires At(d, Ready) != [] && At(d, Ready)[0] < |d.socks|
    ensures var s := At(d, Ready)[0];
            && (Bare(d.socks[s], c) ==> ReadyOne(d, c) == d.(crashed := true))
            && (d.socks[s].state !in {CloseWait, ReadWait, RunWait, CloseReq, Error} ==>
                  ReadyOne(d, c) == d.(fatal := true))
  {
  }

  lemma TakeKeeps(d: Driver, p: Place)
    ensures Take(d, p) == d.(lists := Take(d, p).lists)
  {
    hide At;
    assert d == d.(lists := d.lists);
  }

  lemma TakeFrame(d: Driver)
    ensures var e := Take(d, Ready); e.socks == d.socks && e.stop == d.stop && e.async == d.async
  {
  }

  /** What the links do not depend on. */
  lemma FieldsAlike(d: Driver, e: Driver)
    requires e.lists == d.lists && e.socks == d.socks
    ensures Alike(d, e)
  {
  }

  lemma PushFrame(d: Driver, s: nat)
    requires s < |d.socks|
    ensures Push(Set(d, s, RunWait, d.socks[s].conn), Wait, s).fifo == d.fifo
  {
  }

  lemma AdmitIs(d: Driver, lims: seq<Limits>, c: Choice)
    requires Inv(d, |lims|) && d.pc == RunPass && d.pass != []
    ensures var s := d.pass[0];
            && s < |d.socks| && !Listed(d.socks[s].place)
            && d.socks[s].conn.Some? && d.socks[s].conn.value.Some? && d.socks[s].conn.value.value < |lims|
            && var l := d.socks[s].conn.value.value;
               var r := Judge(lims, l, d.socks[s].state == RunWait, c);
               AdmitOne(d, lims, c) == (Act(d.(pass := d.pass[1..]), s, l, r.0), r.1)
  {
    DriverSteps.ParkedHead(d, |lims|);
    hide Inv; hide Judge; hide Act;
  }

  lemma NotOnList(d: Driver, p: Place, s: nat)
    requires ListsOk(d, s) && Listed(p)
    ensures forall i :: 0 <= i < |At(d, p)| ==> At(d, p)[i] != s
  {
    assert ListOk(d, p, s);
  }

  lemma FirstUpdated(ptrs: map<Place, SockStruct?>, p: Place, s: SockStruct?, q: Place)
    ensures First(ptrs[p := s], q) == if q == p then s else First(ptrs, q)
  {
  }

  lemma ChainsPushed(ptrs: map<Place, SockStruct?>, d: Driver, socks: seq<SockStruct>, nexts: seq<SockStruct?>,
                     s: nat, p: Place)
    requires |nexts| == |socks| == |d.socks| && Chained(ptrs, d, socks, nexts) && s < |socks|
    requires ListsOk(d, s) && Linked(p)
    ensures Chained(ptrs[p := socks[s]], Push(d, p, s), socks, nexts[s := First(ptrs, p)])
  {
    hide Chain; hide ListsOk; hide First; hide At; hide Push;
    forall q | Linked(q)
      ensures Chain(First(ptrs[p := socks[s]], q), At(Push(d, p, s), q), socks, nexts[s := First(ptrs, p)])
    {
      AtPushed(d, p, s, q);
      NotOnList(d, q, s);
      FirstUpdated(ptrs, p, socks[s], q);
      ChainElsewhere(First(ptrs, q), At(d, q), socks, nexts, s, First(ptrs, p));
      if q == p {
        ChainPushed(First(ptrs, p), At(d, p), socks, nexts, s);
      }
    }
  }

  lemma ChainsTaken(ptrs: map<Place, SockStruct?>, d: Driver, socks: seq<SockStruct>, nexts: seq<SockStruct?>, p: Place)
    requires |nexts| == |socks| && Chained(ptrs, d, socks, nexts) && Linked(p) && First(ptrs, p) != null
    ensures At(d, p) != [] && At(d, p)[0] < |socks| && First(ptrs, p) == socks[At(d, p)[0]]
    ensures Chained(ptrs[p := nexts[At(d, p)[0]]], Take(d, p), socks, nexts)
  {
    hide Chain; hide First; hide At; hide Take;
    ChainTaken(First(ptrs, p), At(d, p), socks, nexts);
    forall q | Linked(q)
      ensures Chain(First(ptrs[p := nexts[At(d, p)[0]]], q), At(Take(d, p), q), socks, nexts)
    {
      AtTaken(d, p, q);
      FirstUpdated(ptrs, p, nexts[At(d, p)[0]], q);
    }
  }

  /** A reader thread comes to hold a Sock. */
  lemma ChainsHeld(ptrs: map<Place, SockStruct?>, d: Driver, socks: seq<SockStruct>, nexts: seq<SockStruct?>, s: nat)
    requires |nexts| == |socks| && Chained(ptrs, d, socks, nexts) && s < |d.socks|
    ensures Chained(ptrs, Push(d, Reading, s), socks, nexts)
  {
    hide Chain; hide First; hide At; hide Push;
    forall q | Linked(q) ensures Chain(First(ptrs, q), At(Push(d, Reading, s), q), socks, nexts) {
      AtPushed(d, Reading, s, q);
    }
  }

  /** And no longer holds the `i`th of them. */
  ghost function Released(d: Driver, i: nat): Driver
    requires i < |At(d, Reading)|
  {
    d.(lists := d.lists[Reading := Without(At(d, Reading), i)])
  }

  lemma AtReleased(d: Driver, i: nat, q: Place)
    requires i < |At(d, Reading)|
    ensures At(Released(d, i), q) == if q == Reading then Without(At(d, Reading), i) else At(d, q)
  {
  }

  lemma ChainsReleased(ptrs: map<Place, SockStruct?>, d: Driver, socks: seq<SockStruct>, nexts: seq<SockStruct?>,
                       i: nat)
    requires |nexts| == |socks| && Chained(ptrs, d, socks, nexts) && i < |At(d, Reading)|
    ensures Chained(ptrs, Released(d, i), socks, nexts)
  {
    hide Chain; hide First; hide At; hide Released;
    forall q | Linked(q) ensures Chain(First(ptrs, q), At(Released(d, i), q), socks, nexts) {
      AtReleased(d, i, q);
    }
  }

  lemma ChainsEmpty(ptrs: map<Place, SockStruct?>, d: Driver, socks: seq<SockStruct>, nexts: seq<SockStruct?>, p: Place)
    requires |nexts| == |socks| && Chained(ptrs, d, socks, nexts) && Linked(p)
    ensures First(ptrs, p) == null <==> At(d, p) == []
  {
    hide Chain; hide First; hide At;
    ChainTaken(First(ptrs, p), At(d, p), socks, nexts);
  }

  // ----- whole lists -----

  lemma RelabelIsFine(ptrs: map<Place, SockStruct?>, d: Driver, socks: seq<SockStruct>, nexts: seq<SockStruct?>,
                      from: Place, to: Place)
    requires |nexts| == |socks| && ListsOk(d, NONE) && Chained(ptrs, d, socks, nexts) && Same(socks, d)
    requires Linked(from) && Linked(to) && from != to && First(ptrs, to) == null
    ensures var e := Relabel(d, from, to);
            && ListsOk(e, NONE) && Same(socks, e)
            && Chained(ptrs[to := First(ptrs, from)][from := null], e, socks, nexts)
            && e == d.(lists := e.lists, socks := e.socks)
  {
    RelabelFrame(d, from, to);
    hide Chain; hide At; hide ListsOk; hide Relabel;
    ChainsEmpty(ptrs, d, socks, nexts, to);
    forall s: nat | s < |d.socks| ensures d.socks[s].place != to {
      DriverSteps.EmptyMeansNone(d, to, s);
    }
    RelabelKeeps(d, from, to);
    var e := Relabel(d, from, to);
    forall q | Linked(q) ensures Chain(First(ptrs[to := First(ptrs, from)][from := null], q), At(e, q), socks, nexts) {
      AtRelabeled(d, from, to, q);
      ChainTaken(null, [], socks, nexts);
    }
  }

  lemma RelabelFrame(d: Driver, from: Place, to: Place)
    ensures var e := Relabel(d, from, to);
            && e == d.(lists := e.lists, socks := e.socks) && |e.socks| == |d.socks|
            && forall s :: 0 <= s < |d.socks| ==>
                 e.socks[s].state == d.socks[s].state && e.socks[s].conn == d.socks[s].conn
  {
    hide At;
  }

  lemma SpliceTurn(d: Driver, from: Place, to: Place)
    requires At(d, from) != [] && At(d, from)[0] < |d.socks| && from != to
    ensures var e := Push(Take(d, from), to, At(d, from)[0]);
            Splice(e, from, to) == Splice(d, from, to) && |At(e, from)| < |At(d, from)|
  {
    AtTaken(d, from, from);
    AtPushed(Take(d, from), to, At(d, from)[0], from);
    hide At; hide Push; hide Take;
  }

  lemma SpliceEnds(d: Driver, from: Place, to: Place)
    ensures At(d, from) == [] ==> Splice(d, from, to) == d
  {
    hide At; hide Push; hide Take;
  }

  lemma CollectIs(d: Driver)
    ensures var e := Relabel(d.(stop := d.shutdown, conns := TakeReturned(d.conns)), CloseQueue, Closing);
            Collect(d) == Splice(e.(pc := FreePass), RunQueue, PreQueue)
  {
    hide Splice; hide Renamed; hide TakeReturned;
  }

  // ----- Conns -----

  lemma ConnKnows(d: Driver, i: nat, nlims: nat)
    requires Inv(d, nlims) && i < |d.conns|
    ensures d.conns[i].limits.Some? ==> d.conns[i].limits.value < nlims
    ensures d.conns[i].sock.Some? ==> d.conns[i].sock.value < |d.socks|
  {
  }

  lemma ReclaimIs(d: Driver, i: nat)
    requires i < |d.conns| && (d.conns[i].sock.Some? ==> d.conns[i].sock.value < |d.socks|)
    ensures var e := d.(conns := d.conns[..i] + d.conns[i + 1..]);
            Reclaim(d, i) == if d.conns[i].sock.None? then e
                             else
                               var s := d.conns[i].sock.value;
                               Push(Set(e, s, CloseWait, d.socks[s].conn), Closing, s)
    ensures Linked(Closing) && NONE < 0
  {
    hide Push; hide Set;
  }

  lemma CloseConnIs(d: Driver, i: nat, keep: bool)
    requires i < |d.conns| && (d.conns[i].sock.Some? ==> d.conns[i].sock.value < |d.socks|)
    ensures var e := d.(conns := d.conns[i := d.conns[i].(sock := None)]);
            CloseConn(d, i, keep)
              == if d.conns[i].sock.None? then d
                 else
                   var s := d.conns[i].sock.value;
                   if d.socks[s].state != Running then Unlist(Set(e, s, CloseReq, d.socks[s].conn), s, Lost)
                   else Push(Set(e, s, if keep then ReadWait else CloseWait, d.socks[s].conn), CloseQueue, s)
    ensures d.conns[i].sock.None? ==> d.(conns := d.conns[i := d.conns[i].(sock := None)]) == d
    ensures Linked(CloseQueue) && !Listed(Lost)
  {
    hide Push; hide Set; hide Unlist;
    assert d.conns[i].sock.None? ==> d.conns[i := d.conns[i].(sock := None)] == d.conns;
  }

  // ----- accepting -----

  lemma AcceptedIs(d: Driver)
    ensures forall s :: 0 <= s < |d.socks| ==>
              Accepted(d, s) == Opened(Push(Set(Take(d, Free), s, ReadWait, Some(None)), Wait, s), s)
  {
  }

  lemma AcceptIs(d: Driver, c: Choice)
    ensures At(d.(pc := Top), Free) == At(d, Free)
    ensures Accept(d, c)
         == if d.stop || !c.accept || At(d, Free) == [] || At(d, Free)[0] >= |d.socks| then d.(pc := Top)
                            else Accepted(d.(pc := Top), At(d, Free)[0])
  {
    hide At;
    SameLists(d, d.(pc := Top), Free);
  }
}
