/** The connection event loop: handlers of readiness events, wakes and shutdown, and whole runs. */
module EventLoop {
  import opened ConnHistory
  import opened LoopTables

  class Loop {
    const cfg: Config
    const listeners: set<int>
    var fdconns: map<int, nat>    // descriptor -> the connection that owns it, by order of acceptance
    var conns: seq<Conn>          // every connection ever accepted
    var count: int
    var interest: map<int, bool>  // descriptors the kernel watches; true when also for writing
    ghost var hist: seq<History>

    ghost function T(): Tables
      reads this
    {
      Tables(fdconns, conns, hist, interest)
    }

    /** Holds in every reachable state. */
    ghost predicate Inv()
      reads this
    {
      count == |fdconns| && T().Ok(cfg, listeners)
    }

    predicate Held(k: nat)
      reads this
      requires k < |conns|
    {
      conns[k].fd in fdconns && fdconns[conns[k].fd] == k
    }

    constructor (cfg: Config, listeners: set<int>)
      requires 0 !in listeners
      ensures Inv() && conns == [] && fdconns == map[] && hist == []
      ensures this.listeners == listeners && this.cfg == cfg
    {
      this.cfg, this.listeners := cfg, listeners;
      fdconns, conns, count, hist := map[], [], 0, [];
      interest := map fd | fd in listeners :: false;
    }

    /** The connection that owns a descriptor is replaced by a new value, and its interest modified. */
    method Put(k: nat, c: Conn, ghost h: History, mod: Mod)
      requires Inv() && k < |conns| && Held(k) && c.fd == conns[k].fd
      requires ConnOk(cfg, c, h, true, mod == ModReadWrite || (mod == Keep && T().Writable(k)))
      modifies this`conns, this`interest, this`hist
      ensures Inv() && T() == old(T()).Replaced(k, c, h, mod)
    {
      ReplacedOk(cfg, listeners, T(), k, c, h, mod);
      conns := conns[k := c];
      hist := hist[k := h];
      match mod {
        case Keep =>
        case ModRead => interest := interest[c.fd := false];
        case ModReadWrite => interest := interest[c.fd := true];
      }
    }

    /** The bookkeeping common to closing and detaching. */
    method Leave(k: nat, ghost end: End)
      requires Inv() && k < |conns| && Held(k) && end != Live
      requires end != Closed(false) ==> conns[k].out == []
      requires end == Detached || end == Stranded ==> cfg.hasDetached
      modifies this`fdconns, this`count, this`interest, this`hist
      ensures Inv() && T() == old(T()).Without(cfg, k, end)
    {
      WithoutOk(cfg, listeners, T(), k, end);
      var fd := conns[k].fd;
      count := count - 1;
      fdconns := fdconns - {fd};
      interest := interest - {fd};
      hist := hist[k := Ended(cfg, hist[k], end)];
    }

    /** Forgets a connection and closes its descriptor, which ends the kernel's interest in it. */
    method LoopCloseConn(k: nat, requested: bool, shutdown: bool) returns (stop: bool)
      requires Inv() && k < |conns| && Held(k) && (requested ==> conns[k].out == [])
      modifies this`fdconns, this`count, this`interest, this`hist
      ensures Inv() && T() == old(T()).Without(cfg, k, Closed(requested))
      ensures stop == (cfg.hasClosed && shutdown)
    {
      Leave(k, Closed(requested));
      stop := cfg.hasClosed && shutdown;
    }

    /** Hands a connection over to its user, or closes it when there is no callback to hand it to. */
    method LoopDetachConn(k: nat, a: Answers) returns (stop: bool)
      requires Inv() && k < |conns| && Held(k) && conns[k].out == []
      modifies this`fdconns, this`count, this`interest, this`hist
      ensures Inv()
      ensures var end := if !cfg.hasDetached then Closed(true) else if a.detachOk then Detached else Stranded;
        T() == old(T()).Without(cfg, k, end) && stop == EndStops(cfg, end, a)
      ensures stop == if cfg.hasDetached then !a.detachOk || a.detachedShutdown else cfg.hasClosed && a.closedShutdown
    {
      if !cfg.hasDetached {
        stop := LoopCloseConn(k, true, a.closedShutdown);
        return;
      }
      Leave(k, if a.detachOk then Detached else Stranded);
      stop := !a.detachOk || a.detachedShutdown;
    }

    /** Accepts on a listener; an event of a descriptor that is gone does nothing. */
    method LoopAccept(fd: int, a: Answers) returns (stop: bool)
      requires Inv() && (a.accepted.NewFd? ==> a.accepted.fd != 0 && a.accepted.fd !in interest)
      modifies this
      ensures Inv() && T() == AfterAccept(old(T()), listeners, fd, a) && stop == AcceptStops(listeners, fd, a)
      ensures fd in listeners && a.accepted.NewFd? && a.accepted.nonblockOk ==>
        && conns == old(conns) + [Conn(a.accepted.fd, [], false, None)]
        && fdconns == old(fdconns)[a.accepted.fd := |old(conns)|] && interest == old(interest)[a.accepted.fd := true]
      ensures stop <==> fd in listeners && (a.accepted.AcceptFailed? || (a.accepted.NewFd? && !a.accepted.nonblockOk))
    {
      if fd in listeners {
        match a.accepted
        case AcceptAgain =>
          return false;
        case AcceptFailed =>
          return true;
        case NewFd(nfd, nonblockOk) =>
          if !nonblockOk {
            return true;
          }
          WithOk(cfg, listeners, T(), nfd);
          fdconns := fdconns[nfd := |conns|];
          conns := conns + [Conn(nfd, [], false, None)];
          hist := hist + [NEW_HISTORY];
          interest := interest[nfd := true];
          count := count + 1;
      }
      return false;
    }

    method LoopOpened(k: nat, reply: Reply)
      requires Inv() && k < |conns| && Held(k) && !conns[k].isOpen
      modifies this`conns, this`interest, this`hist
      ensures Inv()
      ensures var c, h := old(conns)[k], old(hist)[k];
        T() == old(T()).Replaced(k, OpenedConn(cfg, c, reply), OpenedHistory(cfg, h, reply),
                                 DoneMod(OpenedConn(cfg, c, reply)))
      ensures conns[k].isOpen && (cfg.hasOpened ==> conns[k].out == reply.out && conns[k].action == reply.action)
    {
      assert T().OkAt(cfg, k);
      OpenKeeps(cfg, conns[k], hist[k], reply);
      ghost var h := OpenedHistory(cfg, hist[k], reply);
      var c := conns[k];
      c := c.(isOpen := true);
      if cfg.hasOpened {
        if |reply.out| > 0 {
          c := c.(out := reply.out);
        }
        c := c.(action := reply.action);
      }
      Put(k, c, h, if |c.out| == 0 && c.action == None then ModRead else Keep);
    }

    method LoopWrite(k: nat, a: Answers) returns (stop: bool)
      requires Inv() && k < |conns| && Held(k) && conns[k].isOpen && conns[k].out != []
      requires a.written.Wrote? ==> a.written.n <= |conns[k].out|
      modifies this
      ensures Inv() && stop == (a.written == WriteFailed && cfg.hasClosed && a.closedShutdown)
      ensures var c, h := old(conns)[k], old(hist)[k];
        T() == match a.written
          case Wrote(n) =>
            old(T()).Replaced(k, WrittenConn(c, n), WrittenHistory(c, h, n), DoneMod(WrittenConn(c, n)))
          case WriteAgain => old(T())
          case WriteFailed => old(T()).Without(cfg, k, Closed(false))
    {
      match a.written
      case WriteAgain =>
        return false;
      case WriteFailed =>
        stop := LoopCloseConn(k, false, a.closedShutdown);
      case Wrote(n) =>
        assert T().OkAt(cfg, k);
        WriteKeeps(cfg, conns[k], hist[k], T().Writable(k), n);
        ghost var h := WrittenHistory(conns[k], hist[k], n);
        var c := conns[k].(out := conns[k].out[n..]);
        Put(k, c, h, if |c.out| == 0 && c.action == None then ModRead else Keep);
        return false;
    }

    /** Carries out a pending action; the dispatch calls it only with no output left. */
    method LoopAction(k: nat, a: Answers) returns (stop: bool)
      requires Inv() && k < |conns| && Held(k) && conns[k].isOpen && conns[k].out == [] && conns[k].action != None
      modifies this
      ensures Inv() && stop == HandledStops(cfg, old(conns)[k], a)
      ensures var c := old(conns)[k];
        T() == if c.action == Shutdown then old(T())
               else if c.action == Unknown then old(T()).Replaced(k, c.(action := None), old(hist)[k], ModRead)
               else old(T()).Without(cfg, k, EndOf(cfg, c, a))
    {
      var action := conns[k].action;
      if action == Close {
        stop := LoopCloseConn(k, true, a.closedShutdown);
      } else if action == Shutdown {
        stop := true;
      } else if action == Detach {
        stop := LoopDetachConn(k, a);
      } else {
        assert T().OkAt(cfg, k);
        Put(k, conns[k].(action := None), hist[k], ModRead);
        stop := false;
      }
    }

    /** The connection has the action that was returned, and the output when there was some. */
    static predicate Took(c: Conn, was: Conn, reply: Reply) {
      && c.action == reply.action && c.out == (if reply.out != [] then reply.out else was.out)
      && c.fd == was.fd && c.isOpen == was.isOpen
    }

    /** Runs the Data callback of a woken connection. */
    method LoopWake(k: nat, reply: Reply)
      requires Inv() && k < |conns| && Held(k) && conns[k].isOpen
      modifies this`conns, this`interest, this`hist
      ensures Inv() && T() == WokenTables(cfg, old(T()), k, reply)
      ensures cfg.hasData ==> Took(conns[k], old(conns)[k], reply)
    {
      if !cfg.hasData {
        return;
      }
      assert T().OkAt(cfg, k);
      DataKeeps(cfg, conns[k], hist[k], T().Writable(k), reply);
      ghost var h := DataHistory(conns[k], hist[k], reply);
      var c := conns[k].(action := reply.action);
      if |reply.out| > 0 {
        c := c.(out := reply.out);
      }
      Put(k, c, h, if |c.out| != 0 || c.action != None then ModReadWrite else Keep);
    }

    method LoopRead(k: nat, a: Answers) returns (stop: bool)
      requires Inv() && k < |conns| && Held(k) && !conns[k].Pending()
      modifies this
      ensures Inv() && stop == (a.input == ReadEnded && cfg.hasClosed && a.closedShutdown)
      ensures T() == match a.input
        case Got => WokenTables(cfg, old(T()), k, a.reply)
        case ReadAgain => old(T())
        case ReadEnded => old(T()).Without(cfg, k, Closed(false))
      ensures a.input == Got && cfg.hasData ==> Took(conns[k], old(conns)[k], a.reply)
    {
      match a.input
      case ReadAgain =>
        return false;
      case ReadEnded =>
        stop := LoopCloseConn(k, false, a.closedShutdown);
      case Got =>
        if cfg.hasData {
          assert T().OkAt(cfg, k);
          DataKeeps(cfg, conns[k], hist[k], T().Writable(k), a.reply);
          ghost var h := DataHistory(conns[k], hist[k], a.reply);
          var c := conns[k].(action := a.reply.action);
          if |a.reply.out| > 0 {
            c := c.(out := a.reply.out);
          }
          Put(k, c, h, if |c.out| != 0 || c.action != None then ModReadWrite else Keep);
        }
        return false;
    }

    /** The order of checks that decides what a readiness event means for the connection that owns the descriptor. */
    method Handle(k: nat, a: Answers) returns (stop: bool)
      requires Inv() && k < |conns| && Held(k) && (a.written.Wrote? ==> a.written.n <= |conns[k].out|)
      modifies this
      ensures Inv() && T() == HandledTables(cfg, old(T()), k, a) && stop == HandledStops(cfg, old(conns)[k], a)
    {
      SameReplaced(T(), k);
      var c := conns[k];
      if !c.isOpen {
        LoopOpened(k, a.reply);
        stop := false;
      } else if |c.out| > 0 {
        stop := LoopWrite(k, a);
      } else if c.action != None {
        stop := LoopAction(k, a);
      } else {
        stop := LoopRead(k, a);
      }
    }

    /** A readiness event goes to the connection that owns the descriptor, or else to a listener. */
    method Dispatch(fd: int, a: Answers) returns (stop: bool)
      requires Inv() && PossibleIn(T(), Ready(fd, a))
      modifies this
      ensures Inv() && T() == EventTables(cfg, listeners, old(T()), Ready(fd, a))
      ensures stop == EventStops(cfg, listeners, old(T()), Ready(fd, a))
    {
      if fd !in fdconns {
        stop := LoopAccept(fd, a);
        return;
      }
      stop := Handle(fdconns[fd], a);
    }

    /** A wake of a connection that has left the loop changes nothing, even when its descriptor is in use again. */
    method LoopNote(k: nat, reply: Reply)
      requires Inv() && PossibleIn(T(), Wake(k, reply))
      modifies this
      ensures Inv() && T() == WokenTables(cfg, old(T()), k, reply)
      ensures !old(Held(k)) ==> T() == old(T())
      ensures old(Held(k)) && cfg.hasData ==> Took(conns[k], old(conns)[k], reply)
    {
      if !Held(k) {
        return;
      }
      LoopWake(k, reply);
    }

    method Step(e: Event) returns (stop: bool)
      requires Inv()
      modifies this
      ensures Inv() && T() == EventTables(cfg, listeners, old(T()), e)
      ensures stop == EventStops(cfg, listeners, old(T()), e)
      ensures e == Closing ==> stop
      ensures e.Tick? ==> stop == e.shutdown
    {
      if !Possible(e) {
        return false;
      }
      match e
      case Ready(fd, a) =>
        stop := Dispatch(fd, a);
      case Wake(k, reply) =>
        LoopNote(k, reply);
        stop := false;
      case Tick(shutdown) =>
        stop := shutdown;
      case Closing =>
        stop := true;
    }

    /** Events that the kernel and the users of the connections cannot produce are passed over. */
    predicate Possible(e: Event)
      requires Inv()
      reads this
      ensures Possible(e) == PossibleIn(T(), e)
    {
      match e
      case Ready(fd, a) =>
        && fd != 0
        && (a.accepted.NewFd? ==> a.accepted.fd != 0 && a.accepted.fd !in interest)
        && (fd in fdconns && a.written.Wrote? ==> a.written.n <= |conns[fdconns[fd]].out|)
      case Wake(k, _) => k < |conns| && conns[k].isOpen
      case _ => true
    }

    /** Closes a connection at shutdown if it is still held. */
    method CloseHeld(k: nat, ghost t: Tables) returns (next: nat)
      requires Inv() && k < |conns| && AllUpTo(cfg, t, T(), k)
      modifies this`fdconns, this`count, this`interest, this`hist
      ensures next == k + 1 && Inv() && AllUpTo(cfg, t, T(), next)
    {
      ghost var u := T();
      if Held(k) {
        var _ := LoopCloseConn(k, false, false);
      }
      OneMoreClosed(cfg, t, u, k, T());
      next := k + 1;
    }

    /** After the loop has stopped, every connection still held is closed. The order does not matter. */
    method CloseAll()
      requires Inv()
      modifies this`fdconns, this`count, this`interest, this`hist
      ensures Inv() && ShutDown(cfg, listeners, old(T()), T())
      ensures count == 0
    {
      ghost var t := T();
      CloseEach(t);
      AllClosed(cfg, listeners, t, T());
      assert fdconns == map[];
    }

    method CloseEach(ghost t: Tables)
      requires Inv() && t == T()
      modifies this`fdconns, this`count, this`interest, this`hist
      ensures Inv() && AllUpTo(cfg, t, T(), |t.conns|)
    {
      NoneClosed(cfg, t);
      var n := |conns|;
      var k := 0;
      while k < n
        invariant k <= n && |conns| == n == |t.conns|
        invariant Inv()
        invariant AllUpTo(cfg, t, T(), k)
      {
        k := CloseHeld(k, t);
      }
      assert k == |t.conns|;
    }

    /**
     A whole run: events until one of them stops the loop, then shutdown. `ts` are the tables at every moment, each as
     the event before it makes them.
     */
    method Serve(events: seq<Event>) returns (ghost ts: seq<Tables>)
      requires Inv()
      modifies this
      ensures Ran(cfg, listeners, ts, events) && Stopped(cfg, listeners, ts, events) && ts[0] == old(T())
      ensures forall i | 0 <= i < |ts| :: ts[i].Ok(cfg, listeners)
      ensures Inv() && count == 0 && ShutDown(cfg, listeners, ts[|ts| - 1], T())
    {
      ts := [T()];
      var i := 0;
      var stop := false;
      while i < |events| && !stop
        invariant Inv() && i <= |events| && |ts| == i + 1
        invariant Ran(cfg, listeners, ts, events) && ts[0] == old(T()) && ts[i] == T()
        invariant forall j | 0 <= j < |ts| :: ts[j].Ok(cfg, listeners)
        invariant stop == (i > 0 && EventStops(cfg, listeners, ts[i - 1], events[i - 1]))
      {
        stop := Step(events[i]);
        RanOn(cfg, listeners, ts, events, T());
        ts := ts + [T()];
        i := i + 1;
      }
      CloseAll();
    }
  }

  const SAMPLE := Answers(AcceptAgain, WriteAgain, ReadAgain, Reply([], None), false, true, false)

  /** One connection whose Opened callback returned the given output and action. */
  method OneConn(reply: Reply) returns (l: Loop)
    requires reply.out != [] || reply.action != None
    ensures fresh(l) && l.Inv() && l.cfg == Config(true, true, true, true) && l.listeners == {3}
    ensures l.fdconns == map[4 := 0] && l.conns == [Conn(4, reply.out, true, reply.action)]
    ensures l.hist == [OpenedHistory(l.cfg, NEW_HISTORY, reply)]
  {
    l := new Loop(Config(true, true, true, true), {3});
    var _ := l.Dispatch(3, SAMPLE.(accepted := NewFd(4, true)));
    assert l.fdconns == map[4 := 0] && l.conns == [Conn(4, [], false, None)] && l.hist == [NEW_HISTORY];
    var _ := l.Dispatch(4, SAMPLE.(reply := reply));
  }

  /** A run in which all output is sent, and then the pending Close is carried out. */
  method DrainsThenCloses() returns (l: Loop)
    ensures l.Inv() && l.fdconns == map[]
    ensures |l.hist| == 1 && l.hist[0].end == Closed(true) && l.hist[0].sent == [1]
  {
    l := OneConn(Reply([1], Close));
    var _ := l.Dispatch(4, SAMPLE.(written := Wrote(1)));
    assert l.conns == [Conn(4, [], true, Close)] && l.hist[0].sent == [1];
    var _ := l.Dispatch(4, SAMPLE);
    assert l.fdconns == map[];
  }

  /** A run in which a wake cancels a pending Close although the output before it is still unsent. */
  method WakeCancelsClose() returns (l: Loop)
    ensures l.Inv() && l.conns == [Conn(4, [1], true, None)] && l.fdconns == map[4 := 0]
    ensures |l.hist| == 1 && l.hist[0].cancelled && l.hist[0].lost == 0 && !l.hist[0].idled
  {
    l := OneConn(Reply([1], Close));
    l.LoopNote(0, Reply([], None));
  }

  /** A run in which detaching fails: the connection is gone, and was never told. */
  method DetachFails() returns (l: Loop, stop: bool)
    ensures l.Inv() && l.fdconns == map[] && stop
    ensures |l.hist| == 1 && l.hist[0].end == Stranded && l.hist[0].log == [OnOpened]
  {
    l := OneConn(Reply([], Detach));
    stop := l.Dispatch(4, SAMPLE.(detachOk := false));
    assert l.fdconns == map[];
  }
}
