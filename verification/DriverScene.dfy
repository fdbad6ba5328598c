/** Concrete runs of one driver, step by step: scenes in which one Sock moves while the others
    are free or held by Conns. */
module DriverScene {
  import opened Common
  import opened Driver
  import opened DriverLaws
  import DriverLists

  /** There is input, no end of file, no timeout, a complete request and a new connection;
      shutdown() works. */
  const BUSY := Choice(true, false, false, true, Done(0), true)

  /** Sock `a` moves; `rest` are the other free Socks. */
  datatype Cast = Cast(socks: seq<Sock>, a: nat, rest: seq<nat>, conns: seq<Conn>, limits: seq<Limits>,
                       shutdown: bool, stop: bool, nactive: int)
  {
    ghost function K(): Sock
      requires a < |socks|
    {
      socks[a]
    }

    /** What is on list `p`. */
    ghost function On(p: Place): seq<nat>
      requires a < |socks|
    {
      (if p == K().place then [a] else []) + (if p == Free then rest else [])
    }

    ghost function With(k: Sock): Cast
      requires a < |socks|
    {
      this.(socks := socks[a := k])
    }

    ghost function To(p: Place): Cast
      requires a < |socks|
    {
      With(K().(place := p))
    }
  }

  /** The driver between two steps. */
  ghost predicate Plays(d: Driver, pc: Pc, z: Cast) {
    && z.a < |z.socks|
    && d.async && d.stop == z.stop && d.shutdown == z.shutdown && !d.fatal && !d.crashed && d.nactive == z.nactive
    && d.pc == pc && d.socks == z.socks && d.conns == z.conns
    && d.fifo == (if z.K().place == Parked && pc != RunPass then [z.a] else [])
    && d.pass == (if z.K().place == Parked && pc == RunPass then [z.a] else [])
    && ListedSo(d, z)
    && (forall s :: 0 <= s < |z.socks| && s != z.a ==> z.socks[s].place in {Free, Held})
    && (forall i :: 0 <= i < |z.conns| ==> z.conns[i].returned == InUse)
  }

  ghost predicate ListedSo(d: Driver, z: Cast)
    requires z.a < |z.socks|
  {
    forall p :: Listed(p) ==> At(d, p) == z.On(p)
  }

  /** The world is that driver. */
  ghost predicate Scene(w: World, pc: Pc, z: Cast) {
    |w.drivers| == 1 && w.limits == z.limits != [] && Plays(w.drivers[0], pc, z)
  }

  lemma NextIs(w: World, pc: Pc, z: Cast)
    requires Scene(w, pc, z)
    ensures z.a < |z.socks| && |w.drivers| == 1 && |w.limits| > 0 && Plays(w.drivers[0], pc, z)
    ensures var d := w.drivers[0];
            Next(w) == (if pc == FreePass then World([FreeOne(d, w.limits).0], FreeOne(d, w.limits).1)
                        else if pc == RunPass then World([AdmitOne(d, w.limits, BUSY).0], AdmitOne(d, w.limits, BUSY).1)
                        else World([match pc
                                    case Top => if Finished(d) then d else Collect(d)
                                    case ReadyPass => ReadyOne(d, BUSY)
                                    case HandOver => Splice(d, ReadLocal, ReadQueue).(pc := ClosePass)
                                    case ClosePass => CloseOne(d, BUSY)
                                    case PreqPass => PreqOne(d)
                                    case QuePass => QueOne(d)
                                    case _ => Accept(d, BUSY)], w.limits))
  {
    hide ListedSo; hide FreeOne; hide AdmitOne; hide Finished; hide Collect; hide ReadyOne; hide Splice; hide CloseOne;
    hide PreqOne; hide QueOne; hide Accept;
    assert w.drivers == [w.drivers[0]];
  }

  ghost function Next(w: World): World {
    WorldStep(w, 0, DriverThread(BUSY))
  }

  // ----- one step -----

  lemma NoneReturned(conns: seq<Conn>)
    requires forall i :: 0 <= i < |conns| ==> conns[i].returned == InUse
    ensures TakeReturned(conns) == conns && NextFreeing(conns) == |conns|
  {
  }

  lemma RenamedOne(socks: seq<Sock>, a: nat, from: Place, to: Place)
    requires a < |socks| && from != Free && from != Held
    requires forall s :: 0 <= s < |socks| && s != a ==> socks[s].place in {Free, Held}
    ensures Renamed(socks, from, to) == if socks[a].place == from then socks[a := socks[a].(place := to)] else socks
  {
  }

  lemma RelabelsLists(d: Driver, z: Cast, from: Place, to: Place)
    requires z.a < |z.socks| && ListedSo(d, z)
    requires (from == Wait && to == Ready) || (from == CloseQueue && to == Closing)
    requires z.K().place != to
    ensures ListedSo(Relabel(d, from, to), if z.K().place == from then z.To(to) else z)
  {
    var y := if z.K().place == from then z.To(to) else z;
    forall p | Listed(p) ensures At(Relabel(d, from, to), p) == y.On(p) {
      RelabelsOne(d, z, from, to, p);
    }
    hide Relabel; hide At;
  }

  lemma RelabelsOne(d: Driver, z: Cast, from: Place, to: Place, p: Place)
    requires z.a < |z.socks| && ListedSo(d, z) && Listed(p)
    requires (from == Wait && to == Ready) || (from == CloseQueue && to == Closing)
    requires z.K().place != to
    ensures At(Relabel(d, from, to), p) == (if z.K().place == from then z.To(to) else z).On(p)
  {
    hide Relabel; hide At;
    assert At(d, from) == z.On(from) && At(d, p) == z.On(p);
    AtRelabeled(d, from, to, p);
  }

  lemma RelabelSocks(d: Driver, from: Place, to: Place)
    ensures Relabel(d, from, to).socks == Renamed(d.socks, from, to)
  {
    hide At; hide Renamed;
  }

  lemma Relabels(d: Driver, pc: Pc, z: Cast, from: Place, to: Place, next: Pc)
    requires Plays(d, pc, z) && pc != RunPass && next != RunPass
    requires (from == Wait && to == Ready) || (from == CloseQueue && to == Closing)
    requires z.K().place in {Free, Wait, CloseQueue, Closing, Held} && z.K().place != to
    ensures Plays(Relabel(d, from, to).(pc := next), next, if z.K().place == from then z.To(to) else z)
  {
    hide ListedSo; hide Relabel; hide Renamed; hide At;
    var y := if z.K().place == from then z.To(to) else z;
    RenamedOne(z.socks, z.a, from, to);
    RelabelSocks(d, from, to);
    DriverLists.RelabelFrame(d, from, to);
    RelabelsLists(d, z, from, to);
    SameListing(Relabel(d, from, to), Relabel(d, from, to).(pc := next), y);
  }

  lemma SameListing(d: Driver, e: Driver, z: Cast)
    requires z.a < |z.socks| && ListedSo(d, z) && e.lists == d.lists
    ensures ListedSo(e, z) && forall y: Cast :: y.socks == z.socks && y.a == z.a && y.rest == z.rest ==> ListedSo(e, y)
  {
    assert forall p :: At(e, p) == At(d, p);
  }

  // ----- from list to list -----

  /** What taking, setting and pushing leave alone. */
  lemma MoveFrame(d: Driver, p: Place, s: nat, state: SockState, conn: Option<Option<nat>>, q: Place)
    requires s < |d.socks|
    ensures |Set(Take(d, p), s, state, conn).socks| == |d.socks|
    ensures var e, k := Push(Set(Take(d, p), s, state, conn), q, s), d.socks[s];
            e == d.(lists := e.lists, socks := d.socks[s := k.(state := state, conn := conn, place := q)])
    ensures d.socks[s].state == state && d.socks[s].conn == conn ==> Set(Take(d, p), s, state, conn) == Take(d, p)
  {
    hide At; hide Push; hide Set; hide Take;
    TakeFrame(d, p);
    JoinFrame(Take(d, p), s, state, conn, q);
  }

  lemma TakeFrame(d: Driver, p: Place)
    ensures Take(d, p) == d.(lists := Take(d, p).lists)
  {
    hide At;
    assert d == d.(lists := d.lists);
  }

  lemma JoinFrame(d: Driver, s: nat, state: SockState, conn: Option<Option<nat>>, q: Place)
    requires s < |d.socks|
    ensures |Set(d, s, state, conn).socks| == |d.socks|
    ensures var e, k := Push(Set(d, s, state, conn), q, s), d.socks[s];
            e == d.(lists := e.lists, socks := d.socks[s := k.(state := state, conn := conn, place := q)])
    ensures d.socks[s].state == state && d.socks[s].conn == conn ==> Set(d, s, state, conn) == d
  {
    hide At;
    assert d.socks[s := d.socks[s]] == d.socks;
  }

  lemma MoveLists(d: Driver, z: Cast, k: Sock)
    requires z.a < |z.socks| == |d.socks| && ListedSo(d, z)
    requires Listed(z.K().place) && Listed(k.place) && k.place != z.K().place && k.place != Free
    ensures At(d, z.K().place) != [] && At(d, z.K().place)[0] == z.a
    ensures ListedSo(Push(Set(Take(d, z.K().place), z.a, k.state, k.conn), k.place, z.a), z.With(k))
  {
    hide ListedSo; hide At; hide Push; hide Set; hide Take; hide Listed;
    var from := z.K().place;
    MoveFrame(d, from, z.a, k.state, k.conn, k.place);
    Lists(d, z, from);
    Lists(d, z, k.place);
    var e, y := Push(Set(Take(d, from), z.a, k.state, k.conn), k.place, z.a), z.With(k);
    forall p | Listed(p) ensures At(e, p) == y.On(p) {
      Lists(d, z, p);
      AtTaken(d, from, p);
      AtPushed(Set(Take(d, from), z.a, k.state, k.conn), k.place, z.a, p);
      DriverLists.OthersStay(Take(d, from), z.a, k.state, k.conn, p);
      MoveOne(z, k, p);
    }
    ListsAre(e, y);
  }

  lemma MoveOne(z: Cast, k: Sock, p: Place)
    requires z.a < |z.socks| && k.place != z.K().place && k.place != Free
    ensures z.On(z.K().place) != [] && z.On(z.K().place)[0] == z.a
    ensures z.With(k).On(p) == if p == k.place then [z.a] + z.On(p)
                               else if p == z.K().place then z.On(p)[1..] else z.On(p)
  {
  }

  lemma Lists(d: Driver, z: Cast, p: Place)
    requires z.a < |z.socks| && ListedSo(d, z) && Listed(p)
    ensures At(d, p) == z.On(p)
  {
    hide At;
  }

  lemma ListsAre(d: Driver, z: Cast)
    requires z.a < |z.socks| && forall p :: Listed(p) ==> At(d, p) == z.On(p)
    ensures ListedSo(d, z)
  {
    hide At;
  }

  /** Sock `a` goes from its list to that of `k`. */
  lemma Moves(d: Driver, pc: Pc, z: Cast, k: Sock)
    requires Plays(d, pc, z) && k == z.K().(place := k.place, state := k.state, conn := k.conn)
    requires Listed(z.K().place) && Listed(k.place) && k.place != z.K().place && k.place != Free
    ensures At(d, z.K().place) != [] && At(d, z.K().place)[0] == z.a < |d.socks|
    ensures var e := Take(d, z.K().place);
            z.a < |e.socks| && Plays(Push(Set(e, z.a, k.state, k.conn), k.place, z.a), pc, z.With(k))
  {
    hide ListedSo; hide At; hide Push; hide Set; hide Take;
    MoveLists(d, z, k);
    MoveFrame(d, z.K().place, z.a, k.state, k.conn, k.place);
  }

  /** With its state and Conn as they are. */
  lemma Passes(d: Driver, pc: Pc, z: Cast, p: Place)
    requires Plays(d, pc, z) && Listed(z.K().place) && Listed(p) && p != z.K().place && p != Free
    ensures At(d, z.K().place) != [] && At(d, z.K().place)[0] == z.a < |d.socks| && d.socks[z.a] == z.K()
    ensures Plays(Push(Take(d, z.K().place), p, z.a), pc, z.To(p))
  {
    PlaysSocks(d, pc, z);
    Moves(d, pc, z, z.K().(place := p));
    MoveFrame(d, z.K().place, z.a, z.K().state, z.K().conn, p);
    hide Plays; hide At; hide Push; hide Set; hide Take; hide Listed;
  }

  lemma PlaysSocks(d: Driver, pc: Pc, z: Cast)
    requires Plays(d, pc, z)
    ensures z.a < |z.socks| && d.socks == z.socks && d.conns == z.conns && d.async && d.stop == z.stop
    ensures d.pc == pc && !d.fatal && !d.crashed
    ensures forall p :: Listed(p) ==> At(d, p) == z.On(p)
  {
    hide At;
  }

  // ----- and the steps that move it so -----

  lemma Tops(w: World, z: Cast)
    requires Scene(w, Top, z) && z.K().place in {Free, Wait, CloseQueue, Held} && !(z.stop && z.nactive == 0)
    ensures Scene(Next(w), FreePass, (if z.K().place == CloseQueue then z.To(Closing) else z).(stop := z.shutdown))
  {
    hide Next; hide ThreadStep; hide Step; hide Without; hide At; hide Relabel; hide Splice;
    NextIs(w, Top, z);
    hide ListedSo; hide Collect; hide TakeReturned; hide NextFreeing;
    var d, y := w.drivers[0], if z.K().place == CloseQueue then z.To(Closing) else z;
    NoneReturned(z.conns);
    Relabels(d, Top, z, CloseQueue, Closing, FreePass);
    var e := Relabel(d, CloseQueue, Closing).(pc := FreePass);
    CollectsNothing(d, e);
    StopsPlaying(e, y, d.shutdown);
    hide Plays;
    DriverLists.SpliceEnds(e.(stop := d.shutdown), RunQueue, PreQueue);
  }

  lemma StopsPlaying(d: Driver, z: Cast, stop: bool)
    requires Plays(d, FreePass, z) && z.K().place != RunQueue
    ensures Plays(d.(stop := stop), FreePass, z.(stop := stop)) && At(d.(stop := stop), RunQueue) == []
  {
    hide At;
    SameListing(d, d.(stop := stop), z);
  }

  lemma CollectsNothing(d: Driver, e: Driver)
    requires TakeReturned(d.conns) == d.conns && e == Relabel(d, CloseQueue, Closing).(pc := FreePass)
    ensures Collect(d) == Splice(e.(stop := d.shutdown), RunQueue, PreQueue)
  {
    RelabelKeepsConns(d);
    hide Splice; hide Relabel; hide TakeReturned;
  }

  lemma RelabelKeepsConns(d: Driver)
    ensures Relabel(d, CloseQueue, Closing).conns == d.conns
  {
    hide At; hide Renamed;
  }

  lemma FreeEnds(w: World, z: Cast)
    requires Scene(w, FreePass, z) && z.K().place in {Free, Wait, Closing, Held}
    ensures Scene(Next(w), ReadyPass, if z.K().place == Wait then z.To(Ready) else z)
  {
    hide Next; hide ThreadStep; hide Step; hide Without; hide At; hide Relabel; hide ListedSo;
    NextIs(w, FreePass, z);
    NoneReturned(z.conns);
    Relabels(w.drivers[0], FreePass, z, Wait, Ready, ReadyPass);
    hide NextFreeing; hide Plays;
  }

  lemma ReadyEnds(w: World, z: Cast)
    requires Scene(w, ReadyPass, z) && z.K().place in {Free, PreQueue, Closing, Held}
    ensures Scene(Next(w), HandOver, z)
  {
    hide Next; hide ThreadStep; hide Step; hide Without;
    NextIs(w, ReadyPass, z);
    assert At(w.drivers[0], Ready) == [];
  }

  lemma Reads(w: World, z: Cast)
    requires Scene(w, ReadyPass, z) && z.K().place == Ready && z.K().state == ReadWait && z.K().conn == Some(None)
    ensures Scene(Next(w), ReadyPass, z.With(z.K().(place := PreQueue, state := PreQue, conn := Some(Some(0)))))
  {
    hide Next; hide ThreadStep; hide Step; hide Without; hide Plays; hide At; hide Push; hide Set; hide Take;
    hide ReadyOne;
    NextIs(w, ReadyPass, z);
    Moves(w.drivers[0], ReadyPass, z, z.K().(place := PreQueue, state := PreQue, conn := Some(Some(0))));
    PlaysSocks(w.drivers[0], ReadyPass, z);
    ReadyReads(w.drivers[0]);
  }

  lemma ReadyReads(d: Driver)
    requires At(d, Ready) != [] && At(d, Ready)[0] < |d.socks| && d.async
    requires d.socks[At(d, Ready)[0]].state == ReadWait && d.socks[At(d, Ready)[0]].conn.Some?
    ensures var s := At(d, Ready)[0];
            ReadyOne(d, BUSY) == Push(Set(Take(d, Ready), s, PreQue, Some(Some(0))), PreQueue, s)
  {
    hide At; hide Push; hide Set; hide Take;
  }

  lemma HandsOver(w: World, z: Cast)
    requires Scene(w, HandOver, z) && z.K().place in {Free, PreQueue, Closing, Held}
    ensures Scene(Next(w), ClosePass, z)
  {
    hide Next; hide ThreadStep; hide Step; hide Without;
    NextIs(w, HandOver, z);
    assert At(w.drivers[0], ReadLocal) == [];
  }

  /** A Sock kept alive, once the driver is to stop. */
  lemma PutsBack(w: World, z: Cast)
    requires Scene(w, ClosePass, z) && z.K().place == Closing && z.stop
    ensures Scene(Next(w), ClosePass, z.To(Wait))
  {
    hide Next; hide ThreadStep; hide Step; hide Without; hide Plays; hide At; hide Push; hide Set; hide Take;
    hide CloseOne;
    NextIs(w, ClosePass, z);
    var d := w.drivers[0];
    Passes(d, ClosePass, z, Wait);
    PlaysSocks(d, ClosePass, z);
    ClosePutsBack(d);
    Unseen(Push(Take(d, Closing), Wait, z.a), CloseOne(d, BUSY), ClosePass, z.To(Wait));
  }

  lemma ClosePutsBack(d: Driver)
    requires At(d, Closing) != [] && At(d, Closing)[0] < |d.socks| && d.stop
    ensures var e := CloseOne(d, BUSY);
            e == Push(Take(d, Closing), Wait, At(d, Closing)[0]).(connless := e.connless)
  {
    hide At; hide Push; hide Set; hide Take;
  }

  /** What a scene does not show. */
  lemma Unseen(d: Driver, e: Driver, pc: Pc, z: Cast)
    requires Plays(d, pc, z) && e == d.(connless := e.connless)
    ensures Plays(e, pc, z)
  {
    hide At;
    SameListing(d, e, z);
  }

  lemma CloseEnds(w: World, z: Cast)
    requires Scene(w, ClosePass, z) && z.K().place in {Free, PreQueue, Wait, Held}
    ensures Scene(Next(w), PreqPass, z)
  {
    hide Next; hide ThreadStep; hide Step; hide Without;
    NextIs(w, ClosePass, z);
    assert At(w.drivers[0], Closing) == [];
  }

  lemma PreqMoves(w: World, z: Cast)
    requires Scene(w, PreqPass, z) && z.K().place == PreQueue && z.K().state == PreQue
    ensures Scene(Next(w), PreqPass, z.To(QueueNow))
  {
    hide Next; hide ThreadStep; hide Step; hide Without; hide Plays; hide At; hide Push; hide Set; hide Take;
    NextIs(w, PreqPass, z);
    Passes(w.drivers[0], PreqPass, z, QueueNow);
  }

  lemma PreqEnds(w: World, z: Cast)
    requires Scene(w, PreqPass, z) && z.K().place in {Free, QueueNow, Wait, Held}
    ensures Scene(Next(w), QuePass, z)
  {
    hide Next; hide ThreadStep; hide Step; hide Without;
    NextIs(w, PreqPass, z);
    assert At(w.drivers[0], PreQueue) == [];
  }

  lemma Arrives(w: World, z: Cast)
    requires Scene(w, QuePass, z) && z.K().place == QueueNow && z.K().state == PreQue
    ensures Scene(Next(w), QuePass, z.With(z.K().(place := Parked, ticket := w.drivers[0].arrivals)))
  {
    hide Next; hide ThreadStep; hide Step; hide Without;
    NextIs(w, QuePass, z);
    assert At(w.drivers[0], QueueNow) == [z.a];
  }

  lemma QueEnds(w: World, z: Cast)
    requires Scene(w, QuePass, z) && z.K().place in {Free, Parked, Wait, Held}
    ensures Scene(Next(w), RunPass, z)
  {
    hide Next; hide ThreadStep; hide Step; hide Without;
    NextIs(w, QuePass, z);
    assert At(w.drivers[0], QueueNow) == [];
  }

  /** A Conn is given to the connection threads, and its Sock with it. */
  lemma Dispatched(d: Driver, z: Cast, state: SockState, limits: Option<nat>)
    requires Plays(d, RunPass, z) && z.K().place == Parked
    ensures z.a < |d.socks|
    ensures Plays(Dispatch(d.(pass := []), z.a, state, limits), RunPass,
                  z.With(z.K().(place := Held, state := state, conn := None))
                   .(conns := z.conns + [Conn(Some(z.a), limits, InUse)]))
  {
    hide At; hide ListedSo;
    var y := z.With(z.K().(place := Held, state := state, conn := None))
              .(conns := z.conns + [Conn(Some(z.a), limits, InUse)]);
    var e := Dispatch(d.(pass := []), z.a, state, limits);
    DispatchFrame(d.(pass := []), z.a, state, limits);
    SameListing(d, e, z);
    Unlisted(e, z, y);
  }

  lemma DispatchFrame(d: Driver, s: nat, state: SockState, limits: Option<nat>)
    requires s < |d.socks|
    ensures var e := Dispatch(d, s, state, limits);
            e == d.(socks := d.socks[s := d.socks[s].(state := state, conn := None, place := Held)],
                    conns := d.conns + [Conn(Some(s), limits, InUse)])
  {
  }

  /** A Sock on no list stays so. */
  lemma Unlisted(d: Driver, z: Cast, y: Cast)
    requires z.a == y.a < |z.socks| == |y.socks| && y.rest == z.rest && ListedSo(d, z)
    requires !Listed(z.K().place) && !Listed(y.K().place)
    ensures ListedSo(d, y)
  {
    hide At;
  }

  /** There is room to run. */
  lemma Admits(w: World, z: Cast)
    requires Scene(w, RunPass, z) && z.K().place == Parked && z.K().state == PreQue && z.K().conn == Some(Some(0))
    requires |z.limits| > 0 && z.limits[0].nrunning < z.limits[0].maxrun
    ensures Scene(Next(w), RunPass,
                  z.With(z.K().(place := Held, state := Running, conn := None))
                   .(conns := z.conns + [Conn(Some(z.a), Some(0), InUse)], limits := AddRunning(z.limits, 0, 1)))
  {
    hide Next; hide ThreadStep; hide Step; hide Without; hide Plays; hide Dispatch; hide AdmitOne;
    NextIs(w, RunPass, z);
    Judged(w.drivers[0], w.limits, z);
    Dispatched(w.drivers[0], z, Running, Some(0));
    OtherLimits(Dispatch(w.drivers[0].(pass := []), z.a, Running, Some(0)), RunPass,
                z.With(z.K().(place := Held, state := Running, conn := None))
                 .(conns := z.conns + [Conn(Some(z.a), Some(0), InUse)]), AddRunning(z.limits, 0, 1));
  }

  /** There is room neither to run nor to wait. */
  lemma Refuses(w: World, z: Cast)
    requires Scene(w, RunPass, z) && z.K().place == Parked && z.K().state == PreQue && z.K().conn == Some(Some(0))
    requires |z.limits| > 0 && z.limits[0].nrunning >= z.limits[0].maxrun && z.limits[0].nwaiting >= z.limits[0].maxwait
    ensures Scene(Next(w), RunPass,
                  z.With(z.K().(place := Held, state := Overflow, conn := None))
                   .(conns := z.conns + [Conn(Some(z.a), None, InUse)]))
  {
    hide Next; hide ThreadStep; hide Step; hide Without; hide Plays; hide Dispatch; hide AdmitOne;
    NextIs(w, RunPass, z);
    Judged(w.drivers[0], w.limits, z);
    Dispatched(w.drivers[0], z, Overflow, None);
  }

  lemma OtherLimits(d: Driver, pc: Pc, z: Cast, limits: seq<Limits>)
    requires Plays(d, pc, z)
    ensures Plays(d, pc, z.(limits := limits))
  {
    hide At;
  }

  lemma Judged(d: Driver, lims: seq<Limits>, z: Cast)
    requires Plays(d, RunPass, z) && z.K().place == Parked && z.K().state == PreQue && z.K().conn == Some(Some(0))
    requires |lims| > 0
    ensures z.a < |d.socks|
    ensures lims[0].nrunning < lims[0].maxrun ==>
              AdmitOne(d, lims, BUSY) == (Dispatch(d.(pass := []), z.a, Running, Some(0)), AddRunning(lims, 0, 1))
    ensures lims[0].nrunning >= lims[0].maxrun && lims[0].nwaiting >= lims[0].maxwait ==>
              AdmitOne(d, lims, BUSY) == (Dispatch(d.(pass := []), z.a, Overflow, None), lims)
  {
    hide At; hide ListedSo; hide Dispatch; hide Push; hide Set; hide SockClose;
    assert d.pass[1..] == [];
  }

  lemma RunEnds(w: World, z: Cast)
    requires Scene(w, RunPass, z) && z.K().place in {Free, Wait, Held}
    ensures Scene(Next(w), AcceptStep, z)
  {
    hide Next; hide ThreadStep; hide Step; hide Without;
    NextIs(w, RunPass, z);
  }

  lemma Accepts(w: World, z: Cast)
    requires Scene(w, AcceptStep, z) && z.K().place == Free && !z.stop
    ensures Scene(Next(w), Top, z.With(z.K().(place := Wait, state := ReadWait, conn := Some(None), open := true))
                                 .(nactive := z.nactive + 1))
  {
    hide Next; hide ThreadStep; hide Step; hide Without; hide Plays; hide At; hide Push; hide Set; hide Take;
    hide Accept;
    hide Opened;
    NextIs(w, AcceptStep, z);
    var d := w.drivers[0];
    AtTop(d, z);
    Moves(d.(pc := Top), Top, z, z.K().(place := Wait, state := ReadWait, conn := Some(None)));
    PlaysSocks(d, AcceptStep, z);
    DriverLists.AcceptIs(d, BUSY);
    DriverLists.AcceptedIs(d.(pc := Top));
    MoveFrame(d.(pc := Top), Free, z.a, ReadWait, Some(None), Wait);
    var k := z.K().(place := Wait, state := ReadWait, conn := Some(None));
    Opens(Push(Set(Take(d.(pc := Top), Free), z.a, ReadWait, Some(None)), Wait, z.a), z.With(k));
    assert z.With(k).With(k.(open := true)) == z.With(k.(open := true));
  }

  lemma AtTop(d: Driver, z: Cast)
    requires Plays(d, AcceptStep, z)
    ensures Plays(d.(pc := Top), Top, z)
  {
    hide At;
    SameListing(d, d.(pc := Top), z);
  }

  lemma Opens(d: Driver, z: Cast)
    requires Plays(d, Top, z) && z.K().place == Wait
    ensures Plays(Opened(d, z.a), Top, z.With(z.K().(open := true)).(nactive := z.nactive + 1))
  {
    hide At; hide ListedSo;
    var y := z.With(z.K().(open := true)).(nactive := z.nactive + 1);
    SameListing(d, Opened(d, z.a), z);
    Relisted(Opened(d, z.a), z, y);
  }

  lemma Relisted(d: Driver, z: Cast, y: Cast)
    requires z.a == y.a < |z.socks| == |y.socks| && y.rest == z.rest && y.K().place == z.K().place && ListedSo(d, z)
    ensures ListedSo(d, y)
  {
    hide At;
  }

  lemma AcceptsNone(w: World, z: Cast)
    requires Scene(w, AcceptStep, z) && z.K().place in {Wait, Held} && (z.stop || z.rest == [])
    ensures Scene(Next(w), Top, z)
  {
    hide Next; hide ThreadStep; hide Step; hide Without; hide Plays; hide At; hide Push; hide Set; hide Take;
    hide Accept;
    NextIs(w, AcceptStep, z);
    AtTop(w.drivers[0], z);
    PlaysSocks(w.drivers[0], AcceptStep, z);
    DriverLists.AcceptIs(w.drivers[0], BUSY);
    assert !z.stop ==> z.On(Free) == [] && Listed(Free);
  }

  /** Once the Conn of the Sock is given away, the next free Sock is the one that moves. */
  lemma Recast(w: World, pc: Pc, z: Cast)
    requires Scene(w, pc, z) && z.K().place == Held && z.rest != [] && z.rest[0] < |z.socks|
    requires z.rest[0] != z.a && z.socks[z.rest[0]].place == Free
    ensures Scene(w, pc, z.(a := z.rest[0], rest := z.rest[1..]))
  {
    assert [z.rest[0]] + z.rest[1..] == z.rest;
  }

  /** The connection thread closes the Conn of a running Sock for keep-alive. */
  lemma KeepsAlive(w: World, z: Cast)
    requires Scene(w, Top, z) && z.K().place == Held && z.K().state == Running
    requires z.conns == [Conn(Some(z.a), Some(0), InUse)]
    ensures Scene(WorldStep(w, 0, ConnClose(0, true)), Top,
                  z.With(z.K().(place := CloseQueue, state := ReadWait)).(conns := [Conn(None, Some(0), InUse)]))
  {
    hide Plays; hide At; hide CloseConn;
    PlaysSocks(w.drivers[0], Top, z);
    var d, k := w.drivers[0], z.K().(place := CloseQueue, state := ReadWait);
    assert w.drivers[0 := CloseConn(d, 0, true)] == [CloseConn(d, 0, true)];
    Returns(d, z, k);
  }

  lemma Returns(d: Driver, z: Cast, k: Sock)
    requires Plays(d, Top, z) && z.K().place == Held && z.K().state == Running
    requires k == z.K().(place := CloseQueue, state := ReadWait)
    requires z.conns == [Conn(Some(z.a), Some(0), InUse)]
    ensures |d.conns| == 1 && d.conns[0].returned.InUse?
    ensures Plays(CloseConn(d, 0, true), Top, z.With(k).(conns := [Conn(None, Some(0), InUse)]))
  {
    hide At; hide ListedSo; hide Push; hide Set;
    var e := d.(conns := [Conn(None, Some(0), InUse)]);
    assert d.conns[0 := Conn(None, Some(0), InUse)] == e.conns;
    SameListing(d, e, z);
    JoinLists(e, z, k);
    JoinFrame(e, z.a, k.state, k.conn, CloseQueue);
    Relisted(CloseConn(d, 0, true), z.With(k), z.With(k).(conns := e.conns));
  }

  /** From a Conn on to a list. */
  lemma JoinLists(d: Driver, z: Cast, k: Sock)
    requires z.a < |z.socks| == |d.socks| && ListedSo(d, z) && z.K().place == Held && k.place == CloseQueue
    ensures ListedSo(Push(Set(d, z.a, k.state, k.conn), CloseQueue, z.a), z.With(k))
  {
    hide ListedSo; hide At; hide Push; hide Set;
    JoinFrame(d, z.a, k.state, k.conn, CloseQueue);
    var e, y := Push(Set(d, z.a, k.state, k.conn), CloseQueue, z.a), z.With(k);
    forall p | Listed(p) ensures At(e, p) == y.On(p) {
      Lists(d, z, p);
      Lists(d, z, CloseQueue);
      AtPushed(Set(d, z.a, k.state, k.conn), CloseQueue, z.a, p);
      DriverLists.OthersStay(d, z.a, k.state, k.conn, p);
      DriverLists.OthersStay(d, z.a, k.state, k.conn, CloseQueue);
    }
    ListsAre(e, y);
  }

  lemma ShutsDown(w: World, z: Cast)
    requires Scene(w, Top, z)
    ensures Scene(WorldStep(w, 0, Shutdown), Top, z.(shutdown := true))
  {
    assert forall p :: At(w.drivers[0].(shutdown := true), p) == At(w.drivers[0], p);
  }

  // ----- many steps -----

  ghost function On(w: World, n: nat): World {
    if n == 0 then w else Next(On(w, n - 1))
  }

  ghost function Loop(n: nat): seq<(nat, Action)> {
    seq(n, _ => (0, DriverThread(BUSY)))
  }

  lemma {:induction false} OnIsARun(w: World, acts: seq<(nat, Action)>, n: nat)
    ensures On(Reached(w, acts), n) == Reached(w, acts + Loop(n))
  {
    hide WorldStep;
    if n == 0 {
      assert acts + Loop(0) == acts;
    } else {
      OnIsARun(w, acts, n - 1);
      assert (acts + Loop(n))[..|acts| + n - 1] == acts + Loop(n - 1);
    }
  }

  /** A free Sock accepts a connection in a turn of the loop that has nothing else to do. */
  lemma AcceptTurn(w: World, z: Cast)
    requires Scene(w, Top, z) && z.K().place == Free && !z.shutdown && !z.stop
    ensures Scene(On(w, 9), Top, z.With(z.K().(place := Wait, state := ReadWait, conn := Some(None), open := true))
                                  .(nactive := z.nactive + 1))
  {
    var y := z.(stop := false);
    hide *;
    Counted(w, 0); Tops(On(w, 0), z);
    Counted(w, 1); FreeEnds(On(w, 1), y);
    Counted(w, 2); ReadyEnds(On(w, 2), y);
    Counted(w, 3); HandsOver(On(w, 3), y);
    Counted(w, 4); CloseEnds(On(w, 4), y);
    Counted(w, 5); PreqEnds(On(w, 5), y);
    Counted(w, 6); QueEnds(On(w, 6), y);
    Counted(w, 7); RunEnds(On(w, 7), y);
    Counted(w, 8); Accepts(On(w, 8), y);
  }

  lemma Counted(w: World, n: nat)
    ensures On(w, 0) == w && On(w, n + 1) == Next(On(w, n))
  {
  }

  lemma ReadHalf(w: World, z: Cast)
    requires Scene(w, Top, z) && z.K().place == Wait && z.K().state == ReadWait && z.K().conn == Some(None)
    requires !z.shutdown && !z.stop && z.nactive > 0
    ensures Scene(On(w, 4), HandOver, z.With(z.K().(place := PreQueue, state := PreQue, conn := Some(Some(0)))))
  {
    hide Scene; hide On; hide Next;
    Shape(w, Top, z);
    var x := z.With(z.K().(place := PreQueue, state := PreQue, conn := Some(Some(0))));
    Counted(w, 0); Tops(On(w, 0), z);
    assert z.(stop := z.shutdown) == z;
    Counted(w, 1); FreeEnds(On(w, 1), z);
    Counted(w, 2); Reads(On(w, 2), z.To(Ready));
    assert z.To(Ready).With(x.K()) == x;
    Counted(w, 3); ReadyEnds(On(w, 3), x);
  }

  lemma QueueHalf(w: World, z: Cast) returns (ticket: nat)
    requires Scene(w, HandOver, z) && z.K().place == PreQueue && z.K().state == PreQue
    ensures Scene(On(w, 6), RunPass, z.With(z.K().(place := Parked, ticket := ticket)))
  {
    hide Scene; hide On; hide Next;
    Shape(w, HandOver, z);
    var v := z.To(QueueNow);
    Shape(On(w, 4), QuePass, v);
    Counted(w, 0); HandsOver(On(w, 0), z);
    Counted(w, 1); CloseEnds(On(w, 1), z);
    Counted(w, 2); PreqMoves(On(w, 2), z);
    Counted(w, 3); PreqEnds(On(w, 3), v);
    Counted(w, 4); Arrives(On(w, 4), v);
    ticket := On(w, 4).drivers[0].arrivals;
    assert v.With(v.K().(place := Parked, ticket := ticket)) == z.With(z.K().(place := Parked, ticket := ticket));
    Counted(w, 5); QueEnds(On(w, 5), z.With(z.K().(place := Parked, ticket := ticket)));
  }

  /** The connection's request is read and comes up for admission in the next turn. */
  lemma ReadTurn(w: World, z: Cast) returns (ticket: nat)
    requires Scene(w, Top, z) && z.K().place == Wait && z.K().state == ReadWait && z.K().conn == Some(None)
    requires !z.shutdown && !z.stop && z.nactive > 0
    ensures Scene(On(w, 10), RunPass, z.With(Sock(PreQue, Some(Some(0)), Parked, z.K().open, ticket)))
  {
    hide Scene; hide On; hide Next;
    Shape(w, Top, z);
    var x := z.With(z.K().(place := PreQueue, state := PreQue, conn := Some(Some(0))));
    ReadHalf(w, z);
    ticket := QueueHalf(On(w, 4), x);
    OnOn(w, 4, 6);
    assert x.With(x.K().(place := Parked, ticket := ticket))
           == z.With(Sock(PreQue, Some(Some(0)), Parked, z.K().open, ticket));
  }

  lemma Shape(w: World, pc: Pc, z: Cast)
    ensures Scene(w, pc, z) ==> |w.drivers| == 1 && z.a < |z.socks| && |z.limits| > 0
  {
  }

  lemma {:induction false} OnOn(w: World, m: nat, n: nat)
    ensures On(On(w, m), n) == On(w, m + n)
  {
    hide Next;
    if n > 0 {
      OnOn(w, m, n - 1);
    }
  }
}
