/**
 The tables of the event loop as one value: what every event does to them, and what runs of events keep. What the kernel
 and the user's callbacks answer is part of each event, so a run over arbitrary events is one under arbitrary answers.
 */
module LoopTables {
  import opened ConnHistory

  datatype AcceptResult = NewFd(fd: int, nonblockOk: bool) | AcceptAgain | AcceptFailed
  datatype WriteResult = Wrote(n: nat) | WriteAgain | WriteFailed
  datatype ReadResult = Got | ReadAgain | ReadEnded

  /** Answers of the kernel and of the callbacks while one readiness event is handled. */
  datatype Answers = Answers(
    accepted: AcceptResult, written: WriteResult, input: ReadResult, reply: Reply,
    closedShutdown: bool, detachOk: bool, detachedShutdown: bool)

  /** A readiness event of a descriptor, a wake of the k-th accepted connection, a tick, or the closing note. */
  datatype Event =
    | Ready(fd: int, answers: Answers)
    | Wake(k: nat, reply: Reply)
    | Tick(shutdown: bool)
    | Closing

  /** Which change of a descriptor's interest the loop asks the kernel for. */
  datatype Mod = Keep | ModRead | ModReadWrite

  /**
   The loop's tables as one value: who owns each descriptor, every connection ever accepted with its history, and the
   kernel's interest.
   */
  datatype Tables = Tables(fdconns: map<int, nat>, conns: seq<Conn>, hist: seq<History>, interest: map<int, bool>)
  {
    predicate Held(k: nat)
      requires k < |conns|
    {
      conns[k].fd in fdconns && fdconns[conns[k].fd] == k
    }

    predicate Writable(k: nat)
      requires k < |conns|
    {
      conns[k].fd in interest && interest[conns[k].fd]
    }

    predicate OkAt(cfg: Config, k: nat)
      requires k < |conns| == |hist|
    {
      ConnOk(cfg, conns[k], hist[k], Held(k), Held(k) && Writable(k))
    }

    ghost predicate Ok(cfg: Config, listeners: set<int>) {
      && |hist| == |conns| && 0 !in listeners
      && (forall fd | fd in fdconns ::
           fd != 0 && fd !in listeners && fdconns[fd] < |conns| && conns[fdconns[fd]].fd == fd)
      && interest.Keys == fdconns.Keys + listeners
      && (forall k: nat | k < |conns| :: OkAt(cfg, k))
    }

    function Replaced(k: nat, c: Conn, h: History, mod: Mod): Tables
      requires k < |conns| == |hist|
    {
      Tables(fdconns, conns[k := c], hist[k := h],
             if mod == Keep then interest else interest[c.fd := mod == ModReadWrite])
    }

    function Without(cfg: Config, k: nat, end: End): Tables
      requires k < |conns| == |hist|
    {
      Tables(fdconns - {conns[k].fd}, conns, hist[k := Ended(cfg, hist[k], end)], interest - {conns[k].fd})
    }

    function With(fd: int): Tables {
      Tables(fdconns[fd := |conns|], conns + [Conn(fd, [], false, None)], hist + [NEW_HISTORY], interest[fd := true])
    }
  }

  /** Changing one held connection and the interest in its descriptor leaves all others as they were. */
  lemma ReplacedOk(cfg: Config, listeners: set<int>, t: Tables, k: nat, c: Conn, h: History, mod: Mod)
    requires t.Ok(cfg, listeners) && k < |t.conns| && t.Held(k) && c.fd == t.conns[k].fd
    requires ConnOk(cfg, c, h, true, mod == ModReadWrite || (mod == Keep && t.Writable(k)))
    ensures t.Replaced(k, c, h, mod).Ok(cfg, listeners)
  {
    var u := t.Replaced(k, c, h, mod);
    forall j: nat | j < |u.conns| ensures u.OkAt(cfg, j) {
      assert t.OkAt(cfg, j);
    }
  }

  lemma WithoutOk(cfg: Config, listeners: set<int>, t: Tables, k: nat, end: End)
    requires t.Ok(cfg, listeners) && k < |t.conns| && t.Held(k) && end != Live
    requires end != Closed(false) ==> t.conns[k].out == []
    requires end == Detached || end == Stranded ==> cfg.hasDetached
    ensures t.Without(cfg, k, end).Ok(cfg, listeners)
  {
    var u := t.Without(cfg, k, end);
    assert t.OkAt(cfg, k);
    EndKeeps(cfg, t.conns[k], t.hist[k], t.Writable(k), end);
    forall j: nat | j < |u.conns| ensures u.OkAt(cfg, j) {
      assert t.OkAt(cfg, j);
    }
  }

  lemma WithOk(cfg: Config, listeners: set<int>, t: Tables, fd: int)
    requires t.Ok(cfg, listeners) && fd != 0 && fd !in t.interest
    ensures t.With(fd).Ok(cfg, listeners)
  {
    var u := t.With(fd);
    forall j: nat | j < |u.conns| ensures u.OkAt(cfg, j) {
      assert j == |t.conns| || t.OkAt(cfg, j);
    }
  }

  // ----- what a readiness event does to the connection that owns the descriptor -----

  /** The connection afterwards: opening comes first, then unsent output, then a pending action, then reading. */
  function Handled(cfg: Config, c: Conn, a: Answers): Conn
    requires a.written.Wrote? ==> a.written.n <= |c.out|
  {
    if !c.isOpen then OpenedConn(cfg, c, a.reply)
    else if c.out != [] then if a.written.Wrote? then WrittenConn(c, a.written.n) else c
    else if c.action != None then if c.action == Unknown then c.(action := None) else c
    else if a.input == Got && cfg.hasData then DataConn(c, a.reply)
    else c
  }

  /** How the event ends the connection, if it does. */
  function EndOf(cfg: Config, c: Conn, a: Answers): End {
    if !c.isOpen then Live
    else if c.out != [] then if a.written == WriteFailed then Closed(false) else Live
    else if c.action == Close then Closed(true)
    else if c.action == Detach then
      if !cfg.hasDetached then Closed(true) else if a.detachOk then Detached else Stranded
    else if c.action == None && a.input == ReadEnded then Closed(false)
    else Live
  }

  function HandledHistory(cfg: Config, c: Conn, h: History, a: Answers): History
    requires a.written.Wrote? ==> a.written.n <= |c.out|
  {
    if EndOf(cfg, c, a) != Live then Ended(cfg, h, EndOf(cfg, c, a))
    else if !c.isOpen then OpenedHistory(cfg, h, a.reply)
    else if c.out != [] then if a.written.Wrote? then WrittenHistory(c, h, a.written.n) else h
    else if c.action == None && a.input == Got && cfg.hasData then DataHistory(c, h, a.reply)
    else h
  }

  /** After work was done: interest falls back to reading when none is left. */
  function DoneMod(c: Conn): Mod {
    if c.out == [] && c.action == None then ModRead else Keep
  }

  /** After data was handed over: interest in writing when there is work. */
  function WorkMod(c: Conn): Mod {
    if c.out != [] || c.action != None then ModReadWrite else Keep
  }

  function HandledMod(cfg: Config, c: Conn, a: Answers): Mod
    requires a.written.Wrote? ==> a.written.n <= |c.out|
  {
    if !c.isOpen then DoneMod(Handled(cfg, c, a))
    else if c.out != [] then if a.written.Wrote? then DoneMod(Handled(cfg, c, a)) else Keep
    else if c.action != None then if c.action == Unknown then ModRead else Keep
    else if a.input == Got && cfg.hasData then WorkMod(Handled(cfg, c, a))
    else Keep
  }

  /** Whether closing or detaching stops the loop. */
  function EndStops(cfg: Config, end: End, a: Answers): bool {
    match end
    case Live => false
    case Closed(_) => cfg.hasClosed && a.closedShutdown
    case Detached => a.detachedShutdown
    case Stranded => true
  }

  /** Whether the event stops the loop: a pending Shutdown with no output left, or the end of the connection. */
  function HandledStops(cfg: Config, c: Conn, a: Answers): bool {
    (c.isOpen && c.out == [] && c.action == Shutdown) || EndStops(cfg, EndOf(cfg, c, a), a)
  }

  function HandledTables(cfg: Config, t: Tables, k: nat, a: Answers): Tables
    requires k < |t.conns| == |t.hist| && (a.written.Wrote? ==> a.written.n <= |t.conns[k].out|)
  {
    var (c, h) := (t.conns[k], t.hist[k]);
    if EndOf(cfg, c, a) != Live then t.Without(cfg, k, EndOf(cfg, c, a))
    else t.Replaced(k, Handled(cfg, c, a), HandledHistory(cfg, c, h, a), HandledMod(cfg, c, a))
  }

  /** An event of a descriptor no connection owns: a listener may have a new connection. */
  function AfterAccept(t: Tables, listeners: set<int>, fd: int, a: Answers): Tables {
    if fd in listeners && a.accepted.NewFd? && a.accepted.nonblockOk then t.With(a.accepted.fd) else t
  }

  predicate AcceptStops(listeners: set<int>, fd: int, a: Answers) {
    fd in listeners && (a.accepted.AcceptFailed? || (a.accepted.NewFd? && !a.accepted.nonblockOk))
  }

  /** A wake reaches the connection only while the loop holds it. */
  function WokenTables(cfg: Config, t: Tables, k: nat, reply: Reply): Tables
    requires k < |t.conns| == |t.hist|
  {
    if t.Held(k) && cfg.hasData then
      var (c, h) := (t.conns[k], t.hist[k]);
      t.Replaced(k, DataConn(c, reply), DataHistory(c, h, reply), WorkMod(DataConn(c, reply)))
    else t
  }

  lemma SameReplaced(t: Tables, k: nat)
    requires k < |t.conns| == |t.hist|
    ensures t.Replaced(k, t.conns[k], t.hist[k], Keep) == t
  {
  }

  // ----- events -----

  /** What the kernel and the users of the connections cannot do is not an event. */
  predicate PossibleIn(t: Tables, e: Event)
    requires |t.conns| == |t.hist|
  {
    match e
    case Ready(fd, a) =>
      && fd != 0
      && (a.accepted.NewFd? ==> a.accepted.fd != 0 && a.accepted.fd !in t.interest)
      && (fd in t.fdconns ==> t.fdconns[fd] < |t.conns|)
      && (fd in t.fdconns && a.written.Wrote? ==> a.written.n <= |t.conns[t.fdconns[fd]].out|)
    case Wake(k, _) => k < |t.conns| && t.conns[k].isOpen
    case _ => true
  }

  /** The tables after an event. */
  function EventTables(cfg: Config, listeners: set<int>, t: Tables, e: Event): Tables
    requires |t.conns| == |t.hist|
  {
    if !PossibleIn(t, e) then t
    else
      match e
      case Ready(fd, a) =>
        if fd in t.fdconns then HandledTables(cfg, t, t.fdconns[fd], a) else AfterAccept(t, listeners, fd, a)
      case Wake(k, reply) => WokenTables(cfg, t, k, reply)
      case _ => t
  }

  predicate EventStops(cfg: Config, listeners: set<int>, t: Tables, e: Event)
    requires |t.conns| == |t.hist|
  {
    PossibleIn(t, e) &&
    match e
    case Ready(fd, a) =>
      if fd in t.fdconns then HandledStops(cfg, t.conns[t.fdconns[fd]], a) else AcceptStops(listeners, fd, a)
    case Wake(_, _) => false
    case Tick(shutdown) => shutdown
    case Closing => true
  }

  /** No wake has overwritten output or cancelled an action. */
  ghost predicate CleanTables(t: Tables) {
    forall h | h in t.hist :: h.lost == 0 && !h.cancelled
  }

  /** No connection was lost in a detaching that failed. */
  ghost predicate NoneStranded(t: Tables) {
    forall h | h in t.hist :: h.end != Stranded
  }

  lemma HistUpdate(hist: seq<History>, k: nat, h: History, x: History)
    requires k < |hist| && x in hist[k := h]
    ensures x == h || x in hist
  {
  }

  /** An event that is not a wake overwrites no output and cancels no action. */
  lemma EventClean(cfg: Config, listeners: set<int>, t: Tables, e: Event)
    requires |t.conns| == |t.hist| && CleanTables(t) && !e.Wake?
    ensures CleanTables(EventTables(cfg, listeners, t, e))
  {
    if PossibleIn(t, e) && e.Ready? && e.fd in t.fdconns {
      var k, a := t.fdconns[e.fd], e.answers;
      var h' := EventTables(cfg, listeners, t, e).hist[k];
      assert t.hist[k] in t.hist;
      forall x | x in t.hist[k := h'] ensures x.lost == 0 && !x.cancelled {
        HistUpdate(t.hist, k, h', x);
      }
    }
  }

  /** Carrying out a pending Detach fails. */
  predicate Strands(cfg: Config, t: Tables, e: Event)
    requires |t.conns| == |t.hist|
  {
    PossibleIn(t, e) && e.Ready? && e.fd in t.fdconns && EndOf(cfg, t.conns[t.fdconns[e.fd]], e.answers) == Stranded
  }

  lemma HeldLive(cfg: Config, listeners: set<int>, t: Tables, k: nat)
    requires t.Ok(cfg, listeners) && k < |t.conns| && t.Held(k)
    ensures t.hist[k].end == Live
  {
    assert t.OkAt(cfg, k);
  }

  lemma ReplacedStranded(hist: seq<History>, k: nat, h: History, t: Tables, u: Tables)
    requires k < |hist| && hist[k].end != Stranded && t.hist == hist && u.hist == hist[k := h]
    ensures NoneStranded(u) <==> NoneStranded(t) && h.end != Stranded
  {
    forall x | x in hist && x.end == Stranded ensures x in u.hist {
      var j :| 0 <= j < |hist| && hist[j] == x;
      assert u.hist[j] == x;
    }
    assert u.hist[k] == h;
    forall x | x in u.hist ensures x == h || x in hist {
      HistUpdate(hist, k, h, x);
    }
  }

  /** An event strands a connection exactly when it carries out a Detach that fails. */
  lemma EventStrands(cfg: Config, listeners: set<int>, t: Tables, e: Event)
    requires t.Ok(cfg, listeners)
    ensures NoneStranded(EventTables(cfg, listeners, t, e)) <==> NoneStranded(t) && !Strands(cfg, t, e)
  {
    var u := EventTables(cfg, listeners, t, e);
    if PossibleIn(t, e) && e.Ready? && e.fd in t.fdconns {
      var k := t.fdconns[e.fd];
      HeldLive(cfg, listeners, t, k);
      ReplacedStranded(t.hist, k, u.hist[k], t, u);
    } else if PossibleIn(t, e) && e.Wake? && t.Held(e.k) {
      HeldLive(cfg, listeners, t, e.k);
      ReplacedStranded(t.hist, e.k, u.hist[e.k], t, u);
    } else if u.hist != t.hist {
      assert u.hist == t.hist + [NEW_HISTORY];
      forall x | x in t.hist ensures x in u.hist {}
    }
  }

  // ----- runs -----

  /** `ts` are the tables before the first event, after it, and so on, until an event stopped the loop. */
  ghost predicate Ran(cfg: Config, listeners: set<int>, ts: seq<Tables>, events: seq<Event>) {
    && 0 < |ts| <= |events| + 1
    && (forall i | 0 <= i < |ts| :: |ts[i].conns| == |ts[i].hist|)
    && (forall i | 0 <= i < |ts| - 1 :: ts[i + 1] == EventTables(cfg, listeners, ts[i], events[i]))
    && (forall i | 0 <= i < |ts| - 2 :: !EventStops(cfg, listeners, ts[i], events[i]))
  }

  /** The run is over: there are no more events, or the last one stopped the loop. */
  ghost predicate Stopped(cfg: Config, listeners: set<int>, ts: seq<Tables>, events: seq<Event>)
    requires Ran(cfg, listeners, ts, events)
  {
    |ts| == |events| + 1 || (|ts| > 1 && EventStops(cfg, listeners, ts[|ts| - 2], events[|ts| - 2]))
  }

  /** The run goes on with one more event. */
  lemma RanOn(cfg: Config, listeners: set<int>, ts: seq<Tables>, events: seq<Event>, u: Tables)
    requires Ran(cfg, listeners, ts, events) && |ts| <= |events| && |u.conns| == |u.hist|
    requires u == EventTables(cfg, listeners, ts[|ts| - 1], events[|ts| - 1])
    requires |ts| > 1 ==> !EventStops(cfg, listeners, ts[|ts| - 2], events[|ts| - 2])
    ensures Ran(cfg, listeners, ts + [u], events)
  {
  }

  /** In a run without wakes no output is overwritten and no action cancelled, at any moment. */
  lemma {:induction false} RunClean(cfg: Config, listeners: set<int>, ts: seq<Tables>, events: seq<Event>, n: nat)
    requires Ran(cfg, listeners, ts, events) && CleanTables(ts[0]) && n < |ts|
    requires forall i | 0 <= i < n :: !events[i].Wake?
    ensures CleanTables(ts[n])
  {
    if n > 0 {
      RunClean(cfg, listeners, ts, events, n - 1);
      EventClean(cfg, listeners, ts[n - 1], events[n - 1]);
    }
  }

  /** In a run a connection is stranded exactly when some event carries out a Detach that fails. */
  lemma {:induction false} RunStrands(cfg: Config, listeners: set<int>, ts: seq<Tables>, events: seq<Event>, n: nat)
    requires Ran(cfg, listeners, ts, events) && NoneStranded(ts[0]) && n < |ts|
    requires forall i | 0 <= i < |ts| :: ts[i].Ok(cfg, listeners)
    ensures NoneStranded(ts[n]) <==> forall i | 0 <= i < n :: !Strands(cfg, ts[i], events[i])
  {
    if n > 0 {
      RunStrands(cfg, listeners, ts, events, n - 1);
      EventStrands(cfg, listeners, ts[n - 1], events[n - 1]);
    }
  }

  /** While no wake has cancelled anything, a connection is watched for writing exactly when it has pending work. */
  lemma CleanWatch(cfg: Config, listeners: set<int>, t: Tables, k: nat)
    requires t.Ok(cfg, listeners) && CleanTables(t) && k < |t.conns| && t.Held(k)
    ensures t.Writable(k) <==> t.conns[k].Pending()
    ensures t.hist[k].sent + t.conns[k].out == t.hist[k].produced
  {
    assert t.OkAt(cfg, k) && t.hist[k] in t.hist;
  }

  /** After the loop: every connection still held is closed. */
  ghost predicate ShutDown(cfg: Config, listeners: set<int>, t: Tables, u: Tables) {
    && |t.conns| == |t.hist| == |u.hist| && u.conns == t.conns && u.fdconns == map[] && u.interest.Keys == listeners
    && forall k: nat | k < |t.conns| ::
         u.hist[k] == if t.Held(k) then Ended(cfg, t.hist[k], Closed(false)) else t.hist[k]
  }

  /** Shutdown under way: the first `n` connections are closed when they were held, the others are as they were. */
  predicate ClosedUpTo(cfg: Config, t: Tables, u: Tables, n: nat, j: nat)
    requires j < |t.conns| == |t.hist| == |u.conns| == |u.hist|
  {
    && u.hist[j] == (if j < n && t.Held(j) then Ended(cfg, t.hist[j], Closed(false)) else t.hist[j])
    && u.Held(j) == (t.Held(j) && j >= n)
  }

  ghost predicate AllUpTo(cfg: Config, t: Tables, u: Tables, n: nat) {
    && |t.conns| == |t.hist| == |u.conns| == |u.hist| && u.conns == t.conns
    && forall j: nat | j < |t.conns| :: ClosedUpTo(cfg, t, u, n, j)
  }

  lemma NoneClosed(cfg: Config, t: Tables)
    requires |t.conns| == |t.hist|
    ensures AllUpTo(cfg, t, t, 0)
  {
  }

  lemma OneMoreClosed(cfg: Config, t: Tables, u: Tables, n: nat, w: Tables)
    requires AllUpTo(cfg, t, u, n) && n < |t.conns|
    requires w == if u.Held(n) then u.Without(cfg, n, Closed(false)) else u
    ensures AllUpTo(cfg, t, w, n + 1)
  {
    var next := n + 1;
    assert ClosedUpTo(cfg, t, u, n, n);
    forall j: nat | j < |t.conns| ensures ClosedUpTo(cfg, t, w, next, j) {
      assert ClosedUpTo(cfg, t, u, n, j);
    }
  }

  lemma AllClosed(cfg: Config, listeners: set<int>, t: Tables, u: Tables)
    requires u.Ok(cfg, listeners) && AllUpTo(cfg, t, u, |t.conns|)
    ensures ShutDown(cfg, listeners, t, u)
  {
    forall j: nat | j < |t.conns| ensures !u.Held(j) {
      assert ClosedUpTo(cfg, t, u, |t.conns|, j);
    }
    assert forall fd | fd in u.fdconns :: u.Held(u.fdconns[fd]);
    assert u.fdconns.Keys == {};
    assert u.fdconns == map[];
    forall k: nat | k < |t.conns|
      ensures u.hist[k] == if t.Held(k) then Ended(cfg, t.hist[k], Closed(false)) else t.hist[k]
    {
      assert ClosedUpTo(cfg, t, u, |t.conns|, k);
    }
  }

  lemma ShutDownStrands(cfg: Config, listeners: set<int>, t: Tables, u: Tables)
    requires t.Ok(cfg, listeners) && ShutDown(cfg, listeners, t, u)
    ensures NoneStranded(u) <==> NoneStranded(t)
  {
    forall k: nat | k < |t.conns| ensures u.hist[k].end == Stranded <==> t.hist[k].end == Stranded {
      if t.Held(k) {
        HeldLive(cfg, listeners, t, k);
      }
    }
    assert forall k: nat | k < |t.conns| :: t.hist[k] in t.hist && u.hist[k] in u.hist;
  }

  lemma TerminalIffAttached(cfg: Config, listeners: set<int>, u: Tables)
    requires u.Ok(cfg, listeners) && u.fdconns == map[] && cfg.hasClosed
    ensures (forall h | h in u.hist :: TerminalLast(h.log)) <==> NoneStranded(u)
  {
    forall h | h in u.hist ensures TerminalLast(h.log) <==> h.end != Stranded {
      var k: nat :| k < |u.hist| && u.hist[k] == h;
      assert u.OkAt(cfg, k);
      OneTerminal(cfg, u.conns[k], h, false);
    }
  }

  /**
   Once shutdown has finished, every connection ever accepted has exactly one terminal callback, and it comes last;
   exactly unless some event of the run carried out a Detach that failed.
   */
  lemma RunTerminates(cfg: Config, listeners: set<int>, ts: seq<Tables>, events: seq<Event>, u: Tables)
    requires Ran(cfg, listeners, ts, events) && NoneStranded(ts[0]) && cfg.hasClosed
    requires forall i | 0 <= i < |ts| :: ts[i].Ok(cfg, listeners)
    requires ShutDown(cfg, listeners, ts[|ts| - 1], u) && u.Ok(cfg, listeners)
    ensures (forall h | h in u.hist :: TerminalLast(h.log)) <==>
      forall i | 0 <= i < |ts| - 1 :: !Strands(cfg, ts[i], events[i])
  {
    RunStrands(cfg, listeners, ts, events, |ts| - 1);
    ShutDownStrands(cfg, listeners, ts[|ts| - 1], u);
    TerminalIffAttached(cfg, listeners, u);
  }
}
