/** Connections of the event loop as values, and what holds of one connection over its whole life. */
module ConnHistory {

  datatype Action = None | Detach | Close | Shutdown | Unknown

  /**
   How a connection left the loop: closed, on request of a callback or for another reason, detached, or stranded when
   detaching failed after the loop had already forgotten it.
   */
  datatype End = Live | Closed(requested: bool) | Detached | Stranded

  /** A user callback that was called for a connection. */
  datatype Callback = OnOpened | OnData | OnClosed | OnDetached

  datatype Conn = Conn(fd: int, out: seq<int>, isOpen: bool, action: Action)
  {
    /** Work that needs the descriptor to become writable. */
    predicate Pending() {
      !isOpen || out != [] || action != None
    }
  }

  /**
   What has happened to a connection: bytes its callbacks returned, bytes the kernel took, unsent bytes that a wake
   overwrote, whether a wake cancelled a pending action, whether a wake took away all pending work and left the interest
   in writing, Data callbacks, how it ended, and all callbacks in order.
   */
  datatype History = History(
    produced: seq<int>, sent: seq<int>, lost: nat, cancelled: bool, idled: bool,
    datas: nat, end: End, log: seq<Callback>)

  /** Which of the optional callbacks the user has set. */
  datatype Config = Config(hasOpened: bool, hasData: bool, hasClosed: bool, hasDetached: bool)

  /** What a callback that can produce output returned. */
  datatype Reply = Reply(out: seq<int>, action: Action)

  const NEW_HISTORY := History([], [], 0, false, false, 0, Live, [])

  /** The callbacks a connection's history must consist of: Opened first, then Data, at most one terminal one last. */
  function LogOf(cfg: Config, isOpen: bool, datas: nat, end: End): seq<Callback> {
    (if isOpen && cfg.hasOpened then [OnOpened] else []) + seq(datas, _ => OnData) +
    (if end.Closed? && cfg.hasClosed then [OnClosed] else if end == Detached then [OnDetached] else [])
  }

  /** Output is conserved, up to what wakes have overwritten. */
  predicate Conserved(c: Conn, h: History) {
    |h.sent| + |c.out| + h.lost == |h.produced| && (h.lost == 0 ==> h.sent + c.out == h.produced)
  }

  /** Write interest follows pending work; only a wake that cancelled the last work leaves interest without work. */
  predicate Watched(c: Conn, h: History, writable: bool) {
    (c.Pending() ==> writable) && (writable && !c.Pending() ==> h.idled) && (h.idled ==> h.cancelled)
  }

  /** The part of the invariant that speaks of one connection: held by the loop or not, watched for writing or not. */
  predicate ConnOk(cfg: Config, c: Conn, h: History, held: bool, writable: bool) {
    && (h.end == Live <==> held)
    && (held ==> Watched(c, h, writable))
    && Conserved(c, h)
    && h.log == LogOf(cfg, c.isOpen, h.datas, h.end)
    && (!c.isOpen ==> h.datas == 0 && c.out == [] && c.action == None)
    && (h.end == Closed(true) || h.end == Detached || h.end == Stranded ==> c.out == [])
    && (h.end == Detached || h.end == Stranded ==> cfg.hasDetached)
  }

  // ----- what the handlers do to one connection -----

  function Ended(cfg: Config, h: History, end: End): History {
    h.(end := end, log := h.log +
      if end.Closed? && cfg.hasClosed then [OnClosed] else if end == Detached then [OnDetached] else [])
  }

  function OpenedConn(cfg: Config, c: Conn, r: Reply): Conn {
    if cfg.hasOpened then c.(isOpen := true, out := if r.out != [] then r.out else c.out, action := r.action)
    else c.(isOpen := true)
  }

  function OpenedHistory(cfg: Config, h: History, r: Reply): History {
    if cfg.hasOpened then h.(produced := h.produced + r.out, log := h.log + [OnOpened]) else h
  }

  function WrittenConn(c: Conn, n: nat): Conn
    requires n <= |c.out|
  {
    c.(out := c.out[n..])
  }

  function WrittenHistory(c: Conn, h: History, n: nat): History
    requires n <= |c.out|
  {
    h.(sent := h.sent + c.out[..n])
  }

  /** A Data callback replaces the output only when it returned some, and always replaces the action. */
  function DataConn(c: Conn, r: Reply): Conn {
    c.(out := if r.out != [] then r.out else c.out, action := r.action)
  }

  function DataHistory(c: Conn, h: History, r: Reply): History {
    h.(produced := h.produced + r.out, datas := h.datas + 1, log := h.log + [OnData],
       lost := h.lost + (if r.out != [] then |c.out| else 0),
       cancelled := h.cancelled || Cancels(c, r), idled := h.idled || (c.Pending() && !DataConn(c, r).Pending()))
  }

  /** The reply of a Data callback takes the place of a pending action. */
  predicate Cancels(c: Conn, r: Reply) {
    c.action != None && r.action != c.action
  }

  // ----- each of them keeps the invariant -----

  lemma EndKeeps(cfg: Config, c: Conn, h: History, writable: bool, end: End)
    requires ConnOk(cfg, c, h, true, writable) && end != Live
    requires end != Closed(false) ==> c.out == []
    requires end == Detached || end == Stranded ==> cfg.hasDetached
    ensures ConnOk(cfg, c, Ended(cfg, h, end), false, false)
  {
  }

  lemma OpenKeeps(cfg: Config, c: Conn, h: History, r: Reply)
    requires ConnOk(cfg, c, h, true, true) && !c.isOpen
    ensures var c' := OpenedConn(cfg, c, r);
      ConnOk(cfg, c', OpenedHistory(cfg, h, r), true, c'.out != [] || c'.action != None)
  {
    var c', h' := OpenedConn(cfg, c, r), OpenedHistory(cfg, h, r);
    if h'.lost == 0 {
      assert h'.sent + c'.out == h'.produced by {
        assert h.produced == h.sent;
        assert h.sent + r.out == h.produced + r.out;
      }
    }
  }

  lemma WriteKeeps(cfg: Config, c: Conn, h: History, writable: bool, n: nat)
    requires ConnOk(cfg, c, h, true, writable) && c.isOpen && n <= |c.out| && c.out != []
    ensures var c' := WrittenConn(c, n);
      ConnOk(cfg, c', WrittenHistory(c, h, n), true, writable && (c'.out != [] || c'.action != None))
  {
    assert c.out == c.out[..n] + c.out[n..];
    assert (h.sent + c.out[..n]) + c.out[n..] == h.sent + c.out;
  }

  lemma DataKeeps(cfg: Config, c: Conn, h: History, writable: bool, r: Reply)
    requires ConnOk(cfg, c, h, true, writable) && c.isOpen && cfg.hasData
    ensures var c' := DataConn(c, r);
      ConnOk(cfg, c', DataHistory(c, h, r), true, writable || c'.out != [] || c'.action != None)
  {
    var c', h' := DataConn(c, r), DataHistory(c, h, r);
    LogGrows(cfg, h.datas);
    if h'.lost == 0 {
      assert h.sent + c.out == h.produced;
      if r.out != [] {
        assert c.out == [];
        assert h.produced == h.sent;
        assert h'.sent + c'.out == h'.produced;
      } else {
        assert h'.produced == h.produced;
      }
    }
  }

  /** Only a wake can overwrite output or cancel an action: other Data callbacks run when nothing is pending. */
  lemma ReadLosesNothing(c: Conn, h: History, r: Reply)
    requires !c.Pending()
    ensures DataHistory(c, h, r).lost == h.lost && DataHistory(c, h, r).cancelled == h.cancelled
    ensures DataHistory(c, h, r).idled == h.idled
  {
  }

  /**
   A wake loses output exactly when some was unsent and it returned some, and cancels an action exactly when one was
   pending and it returned another or none; interest in writing is left without work exactly when that was all the work.
   */
  lemma WakeLoses(c: Conn, h: History, r: Reply)
    requires c.isOpen
    ensures DataHistory(c, h, r).lost > h.lost <==> c.out != [] && r.out != []
    ensures !h.cancelled ==> (DataHistory(c, h, r).cancelled <==> c.action != None && DataConn(c, r).action != c.action)
    ensures !h.idled ==>
      (DataHistory(c, h, r).idled <==> c.action != None && r.action == None && c.out == [] && r.out == [])
  {
  }

  lemma LogGrows(cfg: Config, n: nat)
    ensures LogOf(cfg, true, n, Live) + [OnData] == LogOf(cfg, true, n + 1, Live)
  {
  }

  // ----- what the invariant says about a whole life -----

  /** No Data before Opened, and nothing after the terminal callback. */
  lemma LogShape(cfg: Config, c: Conn, h: History, held: bool, writable: bool, i: nat)
    requires ConnOk(cfg, c, h, held, writable) && i < |h.log|
    ensures h.log[i] == OnOpened ==> i == 0 && c.isOpen
    ensures h.log[i] == OnData && cfg.hasOpened ==> i > 0 && h.log[0] == OnOpened
    ensures h.log[i] == OnClosed || h.log[i] == OnDetached ==> i == |h.log| - 1 && !held
  {
  }

  /** Exactly one terminal callback, and it is the last one. */
  ghost predicate TerminalLast(log: seq<Callback>) {
    && log != [] && (log[|log| - 1] == OnClosed || log[|log| - 1] == OnDetached)
    && forall i | 0 <= i < |log| - 1 :: log[i] == OnOpened || log[i] == OnData
  }

  /** A connection that has left the loop has had its terminal callback exactly unless detaching it failed. */
  lemma OneTerminal(cfg: Config, c: Conn, h: History, writable: bool)
    requires ConnOk(cfg, c, h, false, writable) && cfg.hasClosed
    ensures TerminalLast(h.log) <==> h.end != Stranded
    ensures h.end == Stranded ==> OnClosed !in h.log && OnDetached !in h.log
  {
  }

  /** A requested Close or Detach was carried out only after all output was sent, unless a wake overwrote some. */
  lemma RequestedDrained(cfg: Config, c: Conn, h: History, writable: bool)
    requires ConnOk(cfg, c, h, false, writable) && (h.end == Closed(true) || h.end == Detached) && h.lost == 0
    ensures h.sent == h.produced
  {
    assert h.sent + c.out == h.sent;
  }

  /** Output is conserved exactly as long as no wake returned output while some was unsent. */
  lemma ConservedExactly(cfg: Config, c: Conn, h: History, held: bool, writable: bool)
    requires ConnOk(cfg, c, h, held, writable)
    ensures h.sent + c.out == h.produced <==> h.lost == 0
  {
    if h.sent + c.out == h.produced {
      assert |h.sent + c.out| == |h.sent| + |c.out|;
    }
  }
}
