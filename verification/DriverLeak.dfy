/** A run in which a Sock is lost: while one request runs, which is all its Limits admit, the
    next is refused. */
module DriverLeak {
  import opened Common
  import opened Driver
  import opened DriverScene
  import opened DriverTheorems

  /** One may run, and none may wait. */
  const ONE := [Limits(1, 0, 0, 0)]

  const IDLE_SOCK := Sock(Closed, None, Free, false, 0)

  ghost const START := World([Init(true, 2)], ONE)

  ghost const FIRST := Cast([IDLE_SOCK, IDLE_SOCK], 0, [1], [], ONE, false, false, 0)

  lemma Starts()
    ensures Scene(START, Top, FIRST) && Fresh(START) && |START.drivers| == 1
  {
    assert IsFresh(Init(true, 2));
    assert START.drivers[0].socks == [IDLE_SOCK, IDLE_SOCK];
    assert At(START.drivers[0], Free) == [0] + [1];
  }

  /** The first connection runs, and the second is accepted. */
  ghost function Running1(ticket: nat): Cast {
    Cast([Sock(Running, None, Held, true, ticket), Sock(ReadWait, Some(None), Wait, true, 0)], 1, [],
         [Conn(Some(0), Some(0), InUse)], [Limits(1, 0, 1, 0)], false, false, 2)
  }

  lemma FirstRuns() returns (ticket: nat)
    ensures Scene(On(START, 22), Top, Running1(ticket))
  {
    Starts();
    hide Scene; hide On; hide Next; hide START; hide Fresh;
    AcceptTurn(START, FIRST);
    var z := FIRST.With(Sock(ReadWait, Some(None), Wait, true, 0)).(nactive := 1);
    assert z.(socks := z.socks) == z;
    ticket := ReadTurn(On(START, 9), z);
    OnOn(START, 9, 10);
    var y := z.With(Sock(PreQue, Some(Some(0)), Parked, true, ticket));
    Counted(START, 19); Admits(On(START, 19), y);
    var x := y.With(Sock(Running, None, Held, true, ticket))
              .(conns := [] + [Conn(Some(0), Some(0), InUse)], limits := AddRunning(ONE, 0, 1));
    Recast(On(START, 20), RunPass, x);
    var v := x.(a := 1, rest := x.rest[1..]);
    Counted(START, 20); RunEnds(On(START, 20), v);
    Counted(START, 21); Accepts(On(START, 21), v);
    assert v.With(v.K().(place := Wait, state := ReadWait, conn := Some(None), open := true)).(nactive := 2)
           == Running1(ticket);
  }

  /** It is refused, and handed to a connection thread to say so. */
  lemma SecondIsRefused()
    ensures var v := On(START, 33);
            && |v.drivers| == 1 && |v.drivers[0].socks| == 2 && v.drivers[0].socks[1].state == Overflow
            && |v.drivers[0].conns| == 2 && v.drivers[0].conns[1] == Conn(Some(1), None, InUse)
  {
    hide On; hide Next; hide START; hide Scene;
    var t := FirstRuns();
    var ticket := ReadTurn(On(START, 22), Running1(t));
    OnOn(START, 22, 10);
    var y := Running1(t).With(Sock(PreQue, Some(Some(0)), Parked, true, ticket));
    Counted(START, 32); Refuses(On(START, 32), y);
    Shows(On(START, 33), y.With(y.K().(place := Held, state := Overflow, conn := None))
                           .(conns := y.conns + [Conn(Some(1), None, InUse)]));
  }

  /** What a scene says of the driver. */
  lemma Shows(w: World, z: Cast)
    requires Scene(w, RunPass, z)
    ensures |w.drivers| == 1 && w.drivers[0].socks == z.socks && w.drivers[0].conns == z.conns
  {
  }

  lemma ItCloses(d: Driver)
    requires |d.socks| == 2 && d.socks[1].state == Overflow && |d.conns| == 2
             && d.conns[1] == Conn(Some(1), None, InUse)
    ensures ClosesRefused(d, ConnClose(1, true), 1)
  {
  }

  lemma LoopIsARun()
    ensures Reached(START, Loop(33)) == On(START, 33)
  {
    hide On; hide WorldStep; hide START;
    OnIsARun(START, [], 33);
    assert [] + Loop(33) == Loop(33);
  }

  lemma NoDriverLost(w: World, actions: seq<(nat, Action)>, i: nat, a: Action)
    ensures |Reached(w, actions + [(i, a)]).drivers| == |Reached(w, actions).drivers|
  {
    hide Step;
    assert (actions + [(i, a)])[..|actions|] == actions;
  }

  /** After 33 steps of the driver thread and the close of the refused Conn its Sock is lost,
      and the loop of the driver thread never ends. */
  lemma OneRefusalLosesTheSock(more: seq<(nat, Action)>)
    ensures Fresh(START) && |On(START, 33).drivers| == 1
    ensures var v := Reached(START, Loop(33) + [(0, ConnClose(1, true))] + more);
            && |v.drivers| > 0 && |v.drivers[0].socks| > 1 && !Reachable(v.drivers[0], 1)
            && v.drivers[0].nactive > 0 && !Finished(v.drivers[0])
  {
    hide On; hide Reachable; hide Reached; hide START; hide Fresh; hide Finished; hide Scene; hide ClosesRefused;
    Starts();
    SecondIsRefused();
    LoopIsARun();
    ItCloses(On(START, 33).drivers[0]);
    SocksAreLostByRefusal(START, Loop(33), 0, ConnClose(1, true), 1);
    NoDriverLost(START, Loop(33), 0, ConnClose(1, true));
    LostForever(START, Loop(33) + [(0, ConnClose(1, true))], more, 0, 1);
  }
}
