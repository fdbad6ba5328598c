/** Ownership of Socks in every reachable state of the drivers. */
module DriverLaws {
  import opened Common
  import opened Driver

  ghost predicate Listed(p: Place) {
    !p.Parked? && !p.Held? && !p.Lost?
  }

  /** No hole: every Sock is where its place says. */
  const NONE := -1

  ghost predicate NoDup(s: seq<nat>) {
    forall i, j :: 0 <= i < j < |s| ==> s[i] != s[j]
  }

  /** `l` holds, once each, exactly the Socks of place `p`, except that the Sock `hole` is
      being moved and is on no list. */
  ghost predicate Holds(l: seq<nat>, socks: seq<Sock>, p: Place, hole: int) {
    && (forall i :: 0 <= i < |l| ==> l[i] < |socks| && socks[l[i]].place == p && l[i] != hole)
    && NoDup(l)
    && (forall s :: 0 <= s < |socks| && s != hole && socks[s].place == p ==> s in l)
  }

  ghost predicate ListOk(d: Driver, p: Place, hole: int) {
    Holds(At(d, p), d.socks, p, hole)
  }

  ghost predicate ListsOk(d: Driver, hole: int) {
    forall p :: Listed(p) ==> ListOk(d, p, hole)
  }

  // ----- moving Socks between lists -----

  lemma TakeOpens(d: Driver, p: Place)
    requires ListsOk(d, NONE) && Listed(p) && At(d, p) != []
    ensures ListsOk(Take(d, p), At(d, p)[0])
  {
    hide ListOk; hide At; hide Take;
    forall q | Listed(q) ensures ListOk(Take(d, p), q, At(d, p)[0]) {
      TakeOne(d, p, q);
    }
  }

  lemma TakeOne(d: Driver, p: Place, q: Place)
    requires ListOk(d, p, NONE) && ListOk(d, q, NONE) && At(d, p) != []
    ensures ListOk(Take(d, p), q, At(d, p)[0])
  {
    AtTaken(d, p, q);
    hide Holds; hide At; hide Take;
    HoldsTaken(At(d, p), d.socks, p);
    if q != p {
      HoldsWithHole(At(d, q), d.socks, q, p, At(d, p)[0]);
    }
  }

  lemma AtTaken(d: Driver, p: Place, q: Place)
    requires At(d, p) != []
    ensures At(Take(d, p), q) == if q == p then At(d, p)[1..] else At(d, q)
    ensures Take(d, p).socks == d.socks
  {
  }

  lemma HoldsTaken(l: seq<nat>, socks: seq<Sock>, p: Place)
    requires Holds(l, socks, p, NONE) && l != []
    ensures Holds(l[1..], socks, p, l[0]) && l[0] < |socks| && socks[l[0]].place == p
  {
    assert l == [l[0]] + l[1..];
  }

  lemma HoldsWithHole(l: seq<nat>, socks: seq<Sock>, q: Place, p: Place, s: nat)
    requires Holds(l, socks, q, NONE) && s < |socks| && socks[s].place == p != q
    ensures Holds(l, socks, q, s)
  {
  }

  lemma HoldsPushed(l: seq<nat>, socks: seq<Sock>, p: Place, s: nat)
    requires s < |socks| && Holds(l, socks, p, s)
    ensures Holds([s] + l, socks[s := socks[s].(place := p)], p, NONE)
  {
    assert ([s] + l)[0] == s;
  }

  lemma HoldsElsewhere(l: seq<nat>, socks: seq<Sock>, q: Place, p: Place, s: nat)
    requires s < |socks| && Holds(l, socks, q, s) && p != q
    ensures Holds(l, socks[s := socks[s].(place := p)], q, NONE)
  {
  }

  lemma AtPushed(d: Driver, p: Place, s: nat, q: Place)
    requires s < |d.socks|
    ensures At(Push(d, p, s), q) == if q == p then [s] + At(d, p) else At(d, q)
  {
  }

  lemma PushOne(d: Driver, p: Place, s: nat, q: Place)
    requires s < |d.socks| && ListOk(d, q, s)
    ensures ListOk(Push(d, p, s), q, NONE)
  {
    hide Holds; hide At;
    AtPushed(d, p, s, q);
    if q == p {
      HoldsPushed(At(d, q), d.socks, p, s);
    } else {
      HoldsElsewhere(At(d, q), d.socks, q, p, s);
    }
  }

  lemma PushCloses(d: Driver, p: Place, s: nat)
    requires s < |d.socks| && ListsOk(d, s) && Listed(p)
    ensures ListsOk(Push(d, p, s), NONE)
  {
    hide ListOk; hide Push;
    forall q | Listed(q) ensures ListOk(Push(d, p, s), q, NONE) {
      PushOne(d, p, s, q);
    }
  }

  lemma UnlistCloses(d: Driver, s: nat, p: Place)
    requires s < |d.socks| && ListsOk(d, s) && !Listed(p)
    ensures ListsOk(Unlist(d, s, p), NONE)
  {
    var e := Unlist(d, s, p);
    forall q | Listed(q) ensures ListOk(e, q, NONE) {
      assert ListOk(d, q, s);
    }
  }

  lemma UnlistedOpens(d: Driver, s: nat)
    requires s < |d.socks| && ListsOk(d, NONE) && !Listed(d.socks[s].place)
    ensures ListsOk(d, s)
  {
    forall q | Listed(q) ensures ListOk(d, q, s) {
      assert ListOk(d, q, NONE);
    }
  }

  /** Changes that leave lists and places alone. */
  lemma ListsSame(d: Driver, e: Driver, hole: int)
    requires ListsOk(d, hole) && e.lists == d.lists && |e.socks| == |d.socks|
    requires forall s :: 0 <= s < |d.socks| ==> e.socks[s].place == d.socks[s].place
    ensures ListsOk(e, hole)
  {
    forall q | Listed(q) ensures ListOk(e, q, hole) {
      assert ListOk(d, q, hole);
    }
  }

  lemma HoldsRelabeled(l: seq<nat>, socks: seq<Sock>, socks': seq<Sock>, from: Place, to: Place, q: Place)
    requires Holds(l, socks, q, NONE) && |socks'| == |socks| && from != to
    requires forall s :: 0 <= s < |socks| ==> socks[s].place != to
    requires forall s :: 0 <= s < |socks| ==>
               socks'[s].place == if socks[s].place == from then to else socks[s].place
    ensures q == from ==> Holds(l, socks', to, NONE) && Holds([], socks', from, NONE)
    ensures q != from && q != to ==> Holds(l, socks', q, NONE)
  {
  }

  lemma AtRelabeled(d: Driver, from: Place, to: Place, q: Place)
    requires from != to
    ensures At(Relabel(d, from, to), q) == if q == to then At(d, from) else if q == from then [] else At(d, q)
  {
    RelabeledLists(d, from, to);
    hide Relabel;
  }

  lemma RelabeledLists(d: Driver, from: Place, to: Place)
    ensures Relabel(d, from, to).lists == d.lists[to := At(d, from)][from := []]
  {
    hide Renamed; hide At;
  }

  lemma RelabelOne(d: Driver, from: Place, to: Place, q: Place)
    requires ListOk(d, q, NONE) && ListOk(d, from, NONE) && from != to
    requires forall s :: 0 <= s < |d.socks| ==> d.socks[s].place != to
    ensures ListOk(Relabel(d, from, to), q, NONE)
  {
    hide Holds; hide Renamed; hide At;
    AtRelabeled(d, from, to, q);
    HoldsRelabeled(At(d, from), d.socks, Renamed(d.socks, from, to), from, to, from);
    HoldsRelabeled(At(d, q), d.socks, Renamed(d.socks, from, to), from, to, q);
  }

  lemma RelabelKeeps(d: Driver, from: Place, to: Place)
    requires ListsOk(d, NONE) && Listed(from) && Listed(to) && from != to
    requires forall s :: 0 <= s < |d.socks| ==> d.socks[s].place != to
    ensures ListsOk(Relabel(d, from, to), NONE)
  {
    hide ListOk; hide Relabel;
    forall q | Listed(q) ensures ListOk(Relabel(d, from, to), q, NONE) {
      RelabelOne(d, from, to, q);
    }
  }

  // ----- the invariant -----

  ghost predicate HasLimits(k: Sock, nlims: nat) {
    k.conn.Some? && k.conn.value.Some? && k.conn.value.value < nlims
  }

  /** A Sock waits for bytes with a Conn to put them in; only `connless` can break that. */
  ghost predicate ReadsWithConn(k: Sock, connless: bool) {
    k.state == ReadWait && (k.conn == Some(None) || (k.conn == None && connless))
  }

  /** Which states a Sock can be in, and whether it owns a Conn, by the list it is on. */
  ghost predicate SockFits(k: Sock, pc: Pc, connless: bool, nlims: nat) {
    && (k.open <==> k.place != Free)
    && match k.place
       case Free => k.conn == None && k.state == Closed
       case Wait =>
         || ReadsWithConn(k, connless)
         || (k.state == CloseWait && k.conn == None)
         || (k.state == RunWait && HasLimits(k, nlims) && pc in {Top, FreePass, RunPass, AcceptStep})
       case Ready =>
         && pc == ReadyPass
         && (|| ReadsWithConn(k, connless)
             || (k.state == CloseWait && k.conn == None)
             || (k.state == RunWait && HasLimits(k, nlims)))
       case ReadLocal => ReadsWithConn(k, false)
       case ReadQueue => ReadsWithConn(k, false)
       case Reading => ReadsWithConn(k, false)
       case RunQueue => (k.state == PreQue && HasLimits(k, nlims)) || (k.state == Error && k.conn.Some?)
       case PreQueue => (k.state == PreQue && HasLimits(k, nlims)) || (k.state == Error && k.conn.Some?)
       case QueueNow => k.state == PreQue && HasLimits(k, nlims)
       case CloseQueue => k.conn == None && k.state in {ReadWait, CloseWait}
       case Closing =>
         k.conn == None && k.state in {ReadWait, CloseWait} && pc in {FreePass, ReadyPass, HandOver, ClosePass}
       case Parked =>
         k.state in {PreQue, RunWait} && HasLimits(k, nlims) && pc !in {Top, FreePass, AcceptStep}
       case Held => k.conn == None && k.state in {Running, Timeout, Overflow}
       case Lost => k.conn == None && k.state == CloseReq
  }

  ghost predicate SocksFit(socks: seq<Sock>, pc: Pc, connless: bool, nlims: nat) {
    forall s :: 0 <= s < |socks| ==> SockFits(socks[s], pc, connless, nlims)
  }

  /** The Conns given to the connection threads hold exactly the Socks that are Held. */
  ghost predicate ConnsHold(conns: seq<Conn>, socks: seq<Sock>, nlims: nat) {
    && (forall i :: 0 <= i < |conns| && conns[i].sock.Some? ==>
          conns[i].sock.value < |socks| && socks[conns[i].sock.value].place == Held)
    && (forall i, j :: 0 <= i < j < |conns| && conns[i].sock.Some? ==> conns[i].sock != conns[j].sock)
    && (forall s :: 0 <= s < |socks| && socks[s].place == Held ==>
          exists i :: 0 <= i < |conns| && conns[i].sock == Some(s))
    && (forall i :: 0 <= i < |conns| && conns[i].limits.Some? ==> conns[i].limits.value < nlims)
  }

  /** The Sock's Conn is on the FIFO. */
  ghost predicate InFifo(k: Sock) {
    k.place == Parked || (k.place in {Wait, Ready} && k.state == RunWait)
  }

  /** `queue` holds the Socks that are in the FIFO, once each, in order of arrival. */
  ghost predicate QueueIs(queue: seq<nat>, socks: seq<Sock>, arrivals: nat) {
    && (forall i :: 0 <= i < |queue| ==>
          queue[i] < |socks| && InFifo(socks[queue[i]]) && socks[queue[i]].ticket < arrivals)
    && (forall i, j :: 0 <= i < j < |queue| ==> socks[queue[i]].ticket < socks[queue[j]].ticket)
    && (forall s :: 0 <= s < |socks| && InFifo(socks[s]) ==> s in queue)
  }

  /** During the admission pass the Socks still to be considered are parked, and those that
      keep waiting are back on the wait list. */
  ghost predicate PassIs(fifo: seq<nat>, pass: seq<nat>, socks: seq<Sock>, pc: Pc) {
    if pc == RunPass then
      && (forall i :: 0 <= i < |pass| ==> pass[i] < |socks| && socks[pass[i]].place == Parked)
      && (forall i :: 0 <= i < |fifo| ==> fifo[i] < |socks| && socks[fifo[i]].place == Wait)
    else pass == []
  }

  ghost predicate Sound(d: Driver) {
    !d.fatal && !d.reclosed && (d.crashed ==> d.connless)
  }

  ghost predicate Counts(d: Driver) {
    d.nactive == |d.socks| - |At(d, Free)|
  }

  ghost predicate Inv(d: Driver, nlims: nat) {
    && ListsOk(d, NONE)
    && SocksFit(d.socks, d.pc, d.connless, nlims)
    && ConnsHold(d.conns, d.socks, nlims)
    && QueueIs(d.fifo + d.pass, d.socks, d.arrivals)
    && PassIs(d.fifo, d.pass, d.socks, d.pc)
    && Sound(d)
    && Counts(d)
  }

  // ----- how the parts of the invariant change -----

  /** All Socks but `s` are as before. */
  ghost predicate Only(socks: seq<Sock>, socks': seq<Sock>, s: nat) {
    |socks'| == |socks| && forall u :: 0 <= u < |socks| && u != s ==> socks'[u] == socks[u]
  }

  lemma FitsOne(socks: seq<Sock>, socks': seq<Sock>, s: nat, pc: Pc, connless: bool, connless': bool, nlims: nat)
    requires SocksFit(socks, pc, connless, nlims) && Only(socks, socks', s) && (connless ==> connless')
    requires s < |socks| ==> SockFits(socks'[s], pc, connless', nlims)
    ensures SocksFit(socks', pc, connless', nlims)
  {
    forall u | 0 <= u < |socks'| ensures SockFits(socks'[u], pc, connless', nlims) {
      if u != s {
        assert SockFits(socks[u], pc, connless, nlims);
      }
    }
  }

  lemma ConnsElsewhere(conns: seq<Conn>, socks: seq<Sock>, socks': seq<Sock>, s: nat, nlims: nat)
    requires ConnsHold(conns, socks, nlims) && Only(socks, socks', s)
    requires s < |socks| ==> (socks[s].place == Held <==> socks'[s].place == Held)
    ensures ConnsHold(conns, socks', nlims)
  {
  }

  lemma QueueSame(queue: seq<nat>, socks: seq<Sock>, socks': seq<Sock>, arrivals: nat)
    requires QueueIs(queue, socks, arrivals) && |socks'| == |socks|
    requires forall s :: 0 <= s < |socks| ==> (InFifo(socks'[s]) <==> InFifo(socks[s]))
    requires forall s :: 0 <= s < |socks| && InFifo(socks[s]) ==> socks'[s].ticket == socks[s].ticket
    ensures QueueIs(queue, socks', arrivals)
  {
    forall i | 0 <= i < |queue| ensures InFifo(socks'[queue[i]]) && socks'[queue[i]].ticket == socks[queue[i]].ticket {
      assert InFifo(socks[queue[i]]);
    }
  }

  lemma QueueOne(queue: seq<nat>, socks: seq<Sock>, socks': seq<Sock>, s: nat, arrivals: nat)
    requires QueueIs(queue, socks, arrivals) && Only(socks, socks', s)
    requires s < |socks| ==> (InFifo(socks'[s]) <==> InFifo(socks[s])) && socks'[s].ticket == socks[s].ticket
    ensures QueueIs(queue, socks', arrivals)
  {
    hide InFifo; hide QueueIs;
    QueueSame(queue, socks, socks', arrivals);
  }

  lemma PassOne(fifo: seq<nat>, pass: seq<nat>, socks: seq<Sock>, socks': seq<Sock>, s: nat, pc: Pc)
    requires PassIs(fifo, pass, socks, pc) && Only(socks, socks', s)
    requires s < |socks| && pc == RunPass ==> socks'[s].place == socks[s].place || (s !in pass && s !in fifo)
    ensures PassIs(fifo, pass, socks', pc)
  {
  }

  /** A Sock that is in no list of the driver thread's FIFO moves from one list to another. */
  lemma MoveKeeps(d: Driver, e: Driver, s: nat, nlims: nat)
    requires Inv(d, nlims) && s < |d.socks| && Only(d.socks, e.socks, s)
    requires ListsOk(e, NONE) && e.pc == d.pc && e.conns == d.conns && e.fifo == d.fifo && e.pass == d.pass
    requires e.arrivals == d.arrivals && (d.connless ==> e.connless) && Sound(e) && Counts(e)
    requires SockFits(e.socks[s], d.pc, e.connless, nlims)
    requires e.socks[s].place == Held <==> d.socks[s].place == Held
    requires (InFifo(e.socks[s]) <==> InFifo(d.socks[s])) && e.socks[s].ticket == d.socks[s].ticket
    requires d.pc == RunPass ==> !InFifo(d.socks[s])
    ensures Inv(e, nlims)
  {
    hide ListsOk; hide SockFits; hide Counts; hide Sound;
    FitsOne(d.socks, e.socks, s, d.pc, d.connless, e.connless, nlims);
    ConnsElsewhere(d.conns, d.socks, e.socks, s, nlims);
    QueueOne(d.fifo + d.pass, d.socks, e.socks, s, d.arrivals);
    if d.pc == RunPass {
      NotQueued(d, s);
    }
    PassOne(d.fifo, d.pass, d.socks, e.socks, s, d.pc);
  }

  lemma NotQueued(d: Driver, s: nat)
    requires QueueIs(d.fifo + d.pass, d.socks, d.arrivals) && s < |d.socks| && !InFifo(d.socks[s])
    ensures s !in d.fifo && s !in d.pass
  {
    var q, n := d.fifo + d.pass, |d.fifo|;
    forall i | 0 <= i < n ensures d.fifo[i] != s {
      assert q[i] == d.fifo[i];
    }
    forall i | 0 <= i < |d.pass| ensures d.pass[i] != s {
      assert q[n + i] == d.pass[i];
    }
  }
}
