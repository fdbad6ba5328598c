/** Communication drivers (nsd/driver.c, HTTP/1, no filters or queue-wait callbacks) as a
    state machine: each driver thread's loop in critical-section sized steps, interleaved
    with its reader threads, the connection threads and the other drivers. */
module Driver {
  import opened Common

  /** The SOCK_* states; SOCK_QUEWAIT needs queue-wait callbacks. */
  datatype SockState =
    | ReadWait | PreQue | RunWait | Running | CloseReq | CloseWait
    | Closed | Dropped | Timeout | Overflow | Error

  /** Every list a Sock can be linked on, and the two ways of being on none: held by a
      Conn, or lost. The first column of comments names the C list pointer. */
  datatype Place =
    | Free        // drvPtr->freeSockPtr
    | Wait        // waitPtr
    | Ready       // the rest of the old waitPtr list, during the ready pass
    | ReadLocal   // readSockPtr
    | ReadQueue   // drvPtr->readSockPtr
    | Reading     // held by a reader thread
    | RunQueue    // drvPtr->runSockPtr
    | PreQueue    // preqSockPtr
    | QueueNow    // queSockPtr
    | CloseQueue  // drvPtr->closeSockPtr
    | Closing     // closePtr
    | Parked      // only reachable from the Conn FIFO
    | Held        // only reachable from a Conn given to the connection threads
    | Lost        // not reachable at all

  /** `conn` is connPtr (None is NULL) with the index of its Limits, if known. `place`,
      `open` and `ticket` are bookkeeping no step branches on: the list the Sock is on,
      whether it was accepted and not yet closed, and its position of arrival in the FIFO. */
  datatype Sock = Sock(state: SockState, conn: Option<Option<nat>>, place: Place, open: bool, ticket: nat)

  /** A Conn given to the connection threads: its Sock until closed, and the Limits it was
      admitted against. */
  datatype Conn = Conn(sock: Option<nat>, limits: Option<nat>, returned: Returned)

  /** Running, on drvPtr->freeConnPtr, or taken from there by the driver thread. */
  datatype Returned = InUse | OnFreeList | Freeing

  datatype Limits = Limits(maxrun: nat, maxwait: nat, nrunning: int, nwaiting: int)

  /** Where the driver thread is in its loop. */
  datatype Pc = Top | FreePass | ReadyPass | HandOver | ClosePass | PreqPass | QuePass | RunPass | AcceptStep

  datatype Driver = Driver(
    async: bool,
    shutdown: bool,             // DRIVER_SHUTDOWN
    stop: bool,                 // the flag as last read
    pc: Pc,
    lists: map<Place, seq<nat>>,
    socks: seq<Sock>,
    conns: seq<Conn>,
    fifo: seq<nat>,             // firstConnPtr .. lastConnPtr, by Sock
    pass: seq<nat>,             // the rest of the old FIFO, during the admission pass
    arrivals: nat,
    nactive: int,
    fatal: bool,                // Ns_Fatal("impossible state")
    reclosed: bool,             // a Sock was closed twice for one accept
    connless: bool,             // a Sock waits for a request without a Conn
    crashed: bool)              // its NULL connPtr was followed

  datatype World = World(drivers: seq<Driver>, limits: seq<Limits>)

  datatype ReadResult = More | Done(limits: nat) | Bad

  /** What the environment decides in one step of the driver thread: the poll result, an
      end of file, whether the timeout has passed, whether shutdown() works, a SockRead
      result, and whether a connection is there to accept. */
  datatype Choice = Choice(input: bool, eof: bool, expired: bool, graceful: bool, read: ReadResult, accept: bool)

  datatype Action =
    | DriverThread(c: Choice)
    | ReaderTake
    | ReaderReturn(i: nat, result: ReadResult)
    | ConnClose(i: nat, keep: bool)     // Ns_ConnClose, `keep` if DriverKeep agrees
    | ConnReturn(i: nat)                // NsFreeConn
    | Shutdown

  ghost function Init(async: bool, maxsock: nat): Driver {
    Driver(async, false, false, Top, map[Free := seq(maxsock, i => i)],
           seq(maxsock, i => Sock(Closed, None, Free, false, 0)), [], [], [], 0, 0,
           false, false, false, false)
  }

  // ----- lists -----

  ghost function At(d: Driver, p: Place): seq<nat> {
    if p in d.lists then d.lists[p] else []
  }

  ghost function Take(d: Driver, p: Place): (r: Driver)
    ensures r.socks == d.socks
    ensures r.pc == d.pc && r.fifo == d.fifo && r.stop == d.stop && r.shutdown == d.shutdown && r.connless == d.connless
    ensures r.crashed == d.crashed
  {
    if At(d, p) == [] then d else d.(lists := d.lists[p := At(d, p)[1..]])
  }

  /** SockPush. */
  ghost function Push(d: Driver, p: Place, s: nat): (r: Driver)
    requires s < |d.socks|
    ensures r.pc == d.pc && r.fifo == d.fifo && r.stop == d.stop && r.shutdown == d.shutdown && r.connless == d.connless
    ensures r.crashed == d.crashed
  {
    d.(lists := d.lists[p := [s] + At(d, p)], socks := d.socks[s := d.socks[s].(place := p)])
  }

  ghost function Set(d: Driver, s: nat, state: SockState, conn: Option<Option<nat>>): (r: Driver)
    requires s < |d.socks|
    ensures |r.socks| == |d.socks|
    ensures r.pc == d.pc && r.fifo == d.fifo && r.stop == d.stop && r.shutdown == d.shutdown && r.connless == d.connless
    ensures r.crashed == d.crashed
  {
    d.(socks := d.socks[s := d.socks[s].(state := state, conn := conn)])
  }

  /** The Sock leaves the lists, to be held by a Conn or to be lost. */
  ghost function Unlist(d: Driver, s: nat, p: Place): (r: Driver)
    requires s < |d.socks|
    ensures r.pc == d.pc && r.fifo == d.fifo && r.stop == d.stop && r.shutdown == d.shutdown && r.connless == d.connless
    ensures r.crashed == d.crashed
  {
    d.(socks := d.socks[s := d.socks[s].(place := p)])
  }

  ghost function SockClose(d: Driver, s: nat): (r: Driver)
    requires s < |d.socks|
    ensures r.pc == d.pc && r.fifo == d.fifo && r.stop == d.stop && r.shutdown == d.shutdown && r.connless == d.connless
    ensures r.crashed == d.crashed
  {
    var e := Push(Set(d, s, Closed, None), Free, s);
    e.(socks := e.socks[s := e.socks[s].(open := false)],
       nactive := d.nactive - 1,
       reclosed := d.reclosed || !d.socks[s].open)
  }

  /** Pushing every element of `from` on `to`, one by one, reverses them. */
  ghost function Splice(d: Driver, from: Place, to: Place): (r: Driver)
    ensures r.pc == d.pc && r.fifo == d.fifo && r.stop == d.stop && r.shutdown == d.shutdown && r.connless == d.connless
    ensures r.crashed == d.crashed
    decreases |At(d, from)|
  {
    if At(d, from) == [] then d
    else if At(d, from)[0] >= |d.socks| || from == to then d
    else Splice(Push(Take(d, from), to, At(d, from)[0]), from, to)
  }

  /** `to = from; from = NULL`, where `to` was empty. */
  ghost function Relabel(d: Driver, from: Place, to: Place): (r: Driver)
    ensures r.pc == d.pc && r.fifo == d.fifo && r.stop == d.stop && r.shutdown == d.shutdown && r.connless == d.connless
    ensures r.crashed == d.crashed
  {
    d.(lists := d.lists[to := At(d, from)][from := []], socks := Renamed(d.socks, from, to))
  }

  ghost function Renamed(socks: seq<Sock>, from: Place, to: Place): (r: seq<Sock>)
    ensures |r| == |socks|
    ensures forall s :: 0 <= s < |r| ==>
              r[s] == if socks[s].place == from then socks[s].(place := to) else socks[s]
  {
    seq(|socks|, s requires 0 <= s < |socks| =>
      if socks[s].place == from then socks[s].(place := to) else socks[s])
  }

  // ----- the driver thread -----

  /** Lines 1218-1241: collect what the other threads left. */
  ghost function Collect(d: Driver): Driver {
    var e := Relabel(d, CloseQueue, Closing).(pc := FreePass, stop := d.shutdown, conns := TakeReturned(d.conns));
    Splice(e, RunQueue, PreQueue)
  }

  function TakeReturned(conns: seq<Conn>): (r: seq<Conn>)
    ensures |r| == |conns|
    ensures forall i :: 0 <= i < |r| ==>
              r[i] == if conns[i].returned.OnFreeList? then conns[i].(returned := Freeing) else conns[i]
  {
    seq(|conns|, i requires 0 <= i < |conns| =>
      if conns[i].returned.OnFreeList? then conns[i].(returned := Freeing) else conns[i])
  }

  /** The index of a Conn to free, or |conns|. */
  ghost function NextFreeing(conns: seq<Conn>): (r: nat)
    ensures r <= |conns| && (r < |conns| ==> conns[r].returned.Freeing?)
    ensures forall i :: 0 <= i < r ==> !conns[i].returned.Freeing?
  {
    if conns == [] || conns[0].returned.Freeing? then 0 else 1 + NextFreeing(conns[1..])
  }

  /** Lines 1249-1254: an admitted Conn gives back its place. */
  ghost function Discount(lims: seq<Limits>, c: Conn): seq<Limits> {
    if c.limits.Some? && c.limits.value < |lims| then AddRunning(lims, c.limits.value, -1) else lims
  }

  /** Lines 1261-1307: free Conn `i`; a Sock it never closed is closed gracefully. */
  ghost function Reclaim(d: Driver, i: nat): (r: Driver)
    requires i < |d.conns|
    ensures r.pc == d.pc && r.fifo == d.fifo && r.stop == d.stop && r.shutdown == d.shutdown && r.connless == d.connless
    ensures r.crashed == d.crashed
  {
    var c := d.conns[i];
    var e := d.(conns := Without(d.conns, i));
    if c.sock.None? || c.sock.value >= |d.socks| then e
    else Push(Set(e, c.sock.value, CloseWait, d.socks[c.sock.value].conn), Closing, c.sock.value)
  }

  /** Lines 1247-1308: reclaim one Conn, then take the wait list. */
  ghost function FreeOne(d: Driver, lims: seq<Limits>): (Driver, seq<Limits>) {
    var i := NextFreeing(d.conns);
    if i == |d.conns| then (Relabel(d, Wait, Ready).(pc := ReadyPass), lims)
    else (Reclaim(d, i), Discount(lims, d.conns[i]))
  }

  ghost function AddRunning(lims: seq<Limits>, l: nat, n: int): seq<Limits>
    requires l < |lims|
  {
    lims[l := lims[l].(nrunning := lims[l].nrunning + n)]
  }

  ghost function AddWaiting(lims: seq<Limits>, l: nat, n: int): seq<Limits>
    requires l < |lims|
  {
    lims[l := lims[l].(nwaiting := lims[l].nwaiting + n)]
  }

  /** NsGetRequestLimits always finds a Limits. */
  ghost predicate Known(result: ReadResult, lims: seq<Limits>) {
    result.Done? ==> result.limits < |lims|
  }

  /** What SockRead leaves in the Sock. */
  ghost function AfterRead(d: Driver, s: nat, result: ReadResult): (r: Driver)
    requires s < |d.socks|
    ensures |r.socks| == |d.socks|
    ensures r.pc == d.pc && r.fifo == d.fifo && r.stop == d.stop && r.shutdown == d.shutdown && r.connless == d.connless
    ensures r.crashed == d.crashed
  {
    match result
    case More => d
    case Done(l) => Set(d, s, PreQue, Some(Some(l)))
    case Bad => Set(d, s, Error, d.socks[s].conn)
  }

  /** Lines 1391-1464: a Sock waiting for a request, taken off the list in `e`, is read or has
      waited too long. */
  ghost function ReadOrWait(d: Driver, e: Driver, s: nat, c: Choice): Driver
    requires s < |d.socks| == |e.socks|
  {
    if !c.input then
      if c.expired || d.stop then SockClose(e, s) else Push(e, Wait, s)
    else if d.socks[s].conn.None? then d.(crashed := true)
    else if !d.async then Push(e, ReadLocal, s)
    else
      var f := AfterRead(e, s, c.read);
      if c.read.More? then Push(f, Wait, s) else Push(f, PreQueue, s)
  }

  /** Lines 1354-1478: Sock `s` of the old wait list, taken off it in `e`. */
  ghost function Poll(d: Driver, e: Driver, s: nat, c: Choice): Driver
    requires s < |d.socks| == |e.socks|
  {
    match d.socks[s].state
    case CloseWait =>
      if (c.input && c.eof) || c.expired || d.stop then SockClose(e, s) else Push(e, Wait, s)
    case ReadWait => ReadOrWait(d, e, s, c)
    case RunWait => Unlist(e, s, Parked)
    case CloseReq => SockClose(e, s)
    case Error => SockClose(e, s)
    case _ => d.(fatal := true)
  }

  /** The next Sock of the old wait list. */
  ghost function ReadyOne(d: Driver, c: Choice): Driver {
    if At(d, Ready) == [] then d.(pc := HandOver)
    else
      var s := At(d, Ready)[0];
      var e := Take(d, Ready);
      if s >= |d.socks| then e else Poll(d, e, s, c)
  }

  /** Lines 1551-1563: one Sock returned for keep-alive or close. */
  ghost function CloseOne(d: Driver, c: Choice): Driver {
    if At(d, Closing) == [] then d.(pc := PreqPass)
    else
      var s := At(d, Closing)[0];
      var e := Take(d, Closing);
      if s >= |d.socks| then e
      else if !d.stop && d.socks[s].state == ReadWait then Push(Set(e, s, ReadWait, Some(None)), Wait, s)
      else if !c.graceful then SockClose(e, s)
      else Push(e, Wait, s).(connless := d.connless || d.socks[s].state == ReadWait)
  }

  /** Lines 1569-1592: one Sock back from reading. */
  ghost function PreqOne(d: Driver): Driver {
    if At(d, PreQueue) == [] then d.(pc := QuePass)
    else
      var s := At(d, PreQueue)[0];
      var e := Take(d, PreQueue);
      if s >= |d.socks| then e
      else if d.socks[s].state != PreQue then SockClose(e, s)
      else Push(e, QueueNow, s)
  }

  /** AppendConn of a newly arrived request. */
  ghost function Arrive(d: Driver, s: nat): (r: Driver)
    requires s < |d.socks|
    ensures r.pc == d.pc && r.stop == d.stop && r.shutdown == d.shutdown && r.connless == d.connless
    ensures r.crashed == d.crashed
  {
    var e := Unlist(d, s, Parked);
    e.(socks := e.socks[s := e.socks[s].(ticket := d.arrivals)], fifo := d.fifo + [s], arrivals := d.arrivals + 1)
  }

  /** Lines 1600-1611. */
  ghost function QueOne(d: Driver): Driver {
    if At(d, QueueNow) == [] then d.(pc := RunPass, pass := d.fifo, fifo := [])
    else
      var s := At(d, QueueNow)[0];
      var e := Take(d, QueueNow);
      if s >= |d.socks| then e
      else if d.socks[s].state == Error then SockClose(e, s)
      else Arrive(e, s)
  }

  /** NsQueueConn: the Sock is no longer responsible for its Conn. */
  ghost function Dispatch(d: Driver, s: nat, state: SockState, limits: Option<nat>): (r: Driver)
    requires s < |d.socks|
    ensures r.pc == d.pc && r.fifo == d.fifo && r.stop == d.stop && r.shutdown == d.shutdown && r.connless == d.connless
    ensures r.crashed == d.crashed
  {
    Unlist(Set(d, s, state, None), s, Held).(conns := d.conns + [Conn(Some(s), limits, InUse)])
  }

  /** Lines 1662-1687, under the lock of Limits `l`: the state decided for a Sock, `was`
      waiting or not, and the counters. */
  ghost function Judge(lims: seq<Limits>, l: nat, was: bool, c: Choice): (SockState, seq<Limits>)
    requires l < |lims|
  {
    var lims1 := if was then AddWaiting(lims, l, -1) else lims;
    if was && c.input then (Dropped, lims1)
    else if lims1[l].nrunning < lims1[l].maxrun then (Running, AddRunning(lims1, l, 1))
    else if c.expired then (Timeout, lims1)
    else if lims1[l].nwaiting < lims1[l].maxwait then (RunWait, AddWaiting(lims1, l, 1))
    else (Overflow, lims1)
  }

  /** Lines 1688-1718: act on that state. */
  ghost function Act(d: Driver, s: nat, l: nat, state: SockState): Driver
    requires s < |d.socks|
  {
    match state
    case RunWait => Push(Set(d, s, RunWait, d.socks[s].conn), Wait, s).(fifo := d.fifo + [s])
    case Dropped => SockClose(Set(d, s, Dropped, d.socks[s].conn), s)
    case Running => Dispatch(d, s, Running, Some(l))
    case _ => Dispatch(d, s, state, None)
  }

  /** Lines 1617-1720: run, keep waiting or refuse one Conn of the FIFO. */
  ghost function AdmitOne(d: Driver, lims: seq<Limits>, c: Choice): (Driver, seq<Limits>) {
    if d.pass == [] then (d.(pc := AcceptStep), lims)
    else
      var s := d.pass[0];
      var e := d.(pass := d.pass[1..]);
      if s >= |d.socks| || d.socks[s].conn.None? || d.socks[s].conn.value.None?
         || d.socks[s].conn.value.value >= |lims| then (e, lims)
      else
        var l := d.socks[s].conn.value.value;
        var r := Judge(lims, l, d.socks[s].state == RunWait, c);
        (Act(e, s, l, r.0), r.1)
  }

  /** SockAccept and SockWait of the first free Sock `s`. */
  ghost function Accepted(d: Driver, s: nat): Driver
    requires s < |d.socks|
  {
    Opened(Push(Set(Take(d, Free), s, ReadWait, Some(None)), Wait, s), s)
  }

  ghost function Opened(d: Driver, s: nat): Driver
    requires s < |d.socks|
  {
    d.(socks := d.socks[s := d.socks[s].(open := true)], nactive := d.nactive + 1)
  }

  /** Lines 1726-1732. */
  ghost function Accept(d: Driver, c: Choice): Driver {
    var top := d.(pc := Top);
    if d.stop || !c.accept || At(d, Free) == [] || At(d, Free)[0] >= |d.socks| then top
    else Accepted(top, At(d, Free)[0])
  }

  /** The loop ends (line 1113). */
  ghost predicate Finished(d: Driver) {
    d.pc == Top && d.stop && d.nactive == 0
  }

  ghost function ThreadStep(d: Driver, lims: seq<Limits>, c: Choice): (Driver, seq<Limits>) {
    if d.fatal || d.crashed || !Known(c.read, lims) then (d, lims)
    else match d.pc
      case Top => (if Finished(d) then d else Collect(d), lims)
      case FreePass => FreeOne(d, lims)
      case ReadyPass => (ReadyOne(d, c), lims)
      case HandOver => (Splice(d, ReadLocal, ReadQueue).(pc := ClosePass), lims)
      case ClosePass => (CloseOne(d, c), lims)
      case PreqPass => (PreqOne(d), lims)
      case QuePass => (QueOne(d), lims)
      case RunPass => AdmitOne(d, lims, c)
      case AcceptStep => (Accept(d, c), lims)
  }

  // ----- the other threads -----

  /** NsSockClose from a connection thread: unless the Sock is running, only its state
      changes and nothing links it any more. */
  ghost function CloseConn(d: Driver, i: nat, keep: bool): Driver
    requires i < |d.conns|
  {
    var c := d.conns[i];
    if c.sock.None? || c.sock.value >= |d.socks| then d
    else
      var s := c.sock.value;
      var e := d.(conns := d.conns[i := c.(sock := None)]);
      if d.socks[s].state != Running then Unlist(Set(e, s, CloseReq, d.socks[s].conn), s, Lost)
      else Push(Set(e, s, if keep then ReadWait else CloseWait, d.socks[s].conn), CloseQueue, s)
  }

  /** One step of driver `d` and its threads; an action that is not enabled changes nothing. */
  ghost function Step(d: Driver, lims: seq<Limits>, a: Action): (Driver, seq<Limits>) {
    match a
    case DriverThread(c) => ThreadStep(d, lims, c)
    case ReaderTake =>
      if At(d, ReadQueue) == [] || At(d, ReadQueue)[0] >= |d.socks| then (d, lims)
      else (Push(Take(d, ReadQueue), Reading, At(d, ReadQueue)[0]), lims)
    case ReaderReturn(i, result) =>
      if i >= |At(d, Reading)| || result.More? || !Known(result, lims) || At(d, Reading)[i] >= |d.socks| then (d, lims)
      else
        var s := At(d, Reading)[i];
        var e := d.(lists := d.lists[Reading := Without(At(d, Reading), i)]);
        (Push(AfterRead(e, s, result), RunQueue, s), lims)
    case ConnClose(i, keep) =>
      if i >= |d.conns| || !d.conns[i].returned.InUse? then (d, lims) else (CloseConn(d, i, keep), lims)
    case ConnReturn(i) =>
      if i >= |d.conns| || !d.conns[i].returned.InUse? then (d, lims)
      else (d.(conns := d.conns[i := d.conns[i].(returned := OnFreeList)]), lims)
    case Shutdown => (d.(shutdown := true), lims)
  }

  /** One step of the world: driver `i` or one of its threads acts. */
  ghost function WorldStep(w: World, i: nat, a: Action): World {
    if i >= |w.drivers| then w
    else
      var r := Step(w.drivers[i], w.limits, a);
      World(w.drivers[i := r.0], r.1)
  }

  ghost function Reached(w: World, actions: seq<(nat, Action)>): World {
    if actions == [] then w
    else
      var last := actions[|actions| - 1];
      WorldStep(Reached(w, actions[..|actions| - 1]), last.0, last.1)
  }
}
