/** What becomes of the actions that callbacks return: over runs of events, each is carried out once output is sent. */
module ActionRuns {
  import opened ConnHistory
  import opened LoopTables

  /** A readiness event that reaches connection `k`. */
  predicate Reaches(t: Tables, e: Event, k: nat) {
    |t.conns| == |t.hist| && k < |t.conns| && t.Held(k) && PossibleIn(t, e) && e.Ready? && e.fd == t.conns[k].fd
  }

  predicate Wakes(e: Event, k: nat) {
    e.Wake? && e.k == k
  }

  /** The Opened callback, or the Data callback of a read, is called for connection `k` and returns `r`. */
  predicate Replied(cfg: Config, t: Tables, e: Event, k: nat, r: Reply) {
    && Reaches(t, e, k) && e.answers.reply == r
    && (if t.conns[k].isOpen then !t.conns[k].Pending() && cfg.hasData && e.answers.input == Got else cfg.hasOpened)
  }

  /** Connection `k` is held and has action `act` to carry out; `all` is what it has sent and has left to send. */
  predicate Waits(t: Tables, k: nat, act: Action, all: seq<int>) {
    && k < |t.conns| == |t.hist| && t.Held(k) && t.conns[k].isOpen && t.conns[k].action == act
    && t.hist[k].sent + t.conns[k].out == all
  }

  /** The actions that end a connection or the loop. */
  predicate Final(act: Action) {
    act == Close || act == Detach || act == Shutdown
  }

  /** The action has been carried out: the loop stops, or the connection has left it in the way that was asked for. */
  predicate CarriedOut(cfg: Config, u: Tables, stop: bool, k: nat, act: Action, detachOk: bool)
    requires k < |u.conns| == |u.hist|
  {
    match act
    case Shutdown => stop
    case Close => !u.Held(k) && u.hist[k].end == Closed(true)
    case Detach =>
      !u.Held(k) && u.hist[k].end == if !cfg.hasDetached then Closed(true) else if detachOk then Detached else Stranded
    case _ => true
  }

  // ----- single events -----

  /** What a callback returns is what there is to do next, all of it: the output, and then the action. */
  lemma ReplyTaken(cfg: Config, listeners: set<int>, t: Tables, e: Event, k: nat, r: Reply)
    requires t.Ok(cfg, listeners) && Replied(cfg, t, e, k, r)
    ensures Waits(EventTables(cfg, listeners, t, e), k, r.action, t.hist[k].sent + r.out)
    ensures EventTables(cfg, listeners, t, e).conns[k].out == r.out
  {
    assert t.OkAt(cfg, k);
  }

  /** An event that does not reach the connection, nor wakes it, leaves it as it is. */
  lemma OtherEvent(cfg: Config, listeners: set<int>, t: Tables, e: Event, k: nat)
    requires t.Ok(cfg, listeners) && k < |t.conns| && t.Held(k) && !Wakes(e, k) && !Reaches(t, e, k)
    ensures var u := EventTables(cfg, listeners, t, e);
      k < |u.conns| == |u.hist| && u.Held(k) && u.conns[k] == t.conns[k] && u.hist[k] == t.hist[k]
  {
    if PossibleIn(t, e) && e.Ready? && e.fd in t.fdconns {
      assert t.fdconns[e.fd] != k;
    }
  }

  /** With output left, an event sends some of it, or changes nothing, or the write fails and closes the connection. */
  lemma SendingEvent(cfg: Config, listeners: set<int>, t: Tables, e: Event, k: nat, act: Action, all: seq<int>)
    requires t.Ok(cfg, listeners) && Waits(t, k, act, all) && Reaches(t, e, k) && t.conns[k].out != []
    ensures var u := EventTables(cfg, listeners, t, e);
      && k < |u.conns| == |u.hist|
      && if e.answers.written == WriteFailed then !u.Held(k) && u.hist[k].end == Closed(false)
         else
           && Waits(u, k, act, all)
           && (e.answers.written.Wrote? ==> u.conns[k].out == t.conns[k].out[e.answers.written.n..])
  {
    var c, h := t.conns[k], t.hist[k];
    if e.answers.written.Wrote? {
      var n := e.answers.written.n;
      assert c.out == c.out[..n] + c.out[n..];
      assert (h.sent + c.out[..n]) + c.out[n..] == h.sent + c.out;
    }
  }

  /** With no output left, the next event that reaches the connection carries its action out. */
  lemma ActingEvent(cfg: Config, listeners: set<int>, t: Tables, e: Event, k: nat, act: Action)
    requires t.Ok(cfg, listeners) && Reaches(t, e, k) && Final(act)
    requires t.conns[k].isOpen && t.conns[k].action == act && t.conns[k].out == []
    ensures var u := EventTables(cfg, listeners, t, e);
      && k < |u.conns| == |u.hist|
      && CarriedOut(cfg, u, EventStops(cfg, listeners, t, e), k, act, e.answers.detachOk)
  {
  }

  /**
   Why an event that reaches a connection stops the loop: a Shutdown that was waiting with no output left; or the event
   has ended the connection, and its terminal callback says so, or there was none because detaching failed.
   */
  lemma WhyStops(cfg: Config, listeners: set<int>, t: Tables, e: Event, k: nat)
    requires t.Ok(cfg, listeners) && Reaches(t, e, k)
    ensures var (c, end) := (t.conns[k], EventTables(cfg, listeners, t, e).hist[k].end);
      EventStops(cfg, listeners, t, e) <==>
        || (c.isOpen && c.out == [] && c.action == Shutdown)
        || (end.Closed? && cfg.hasClosed && e.answers.closedShutdown)
        || (end == Detached && e.answers.detachedShutdown)
        || end == Stranded
  {
    assert t.OkAt(cfg, k);
  }

  /** A connection that has left the loop does not come back. */
  lemma GoneStays(cfg: Config, listeners: set<int>, t: Tables, e: Event, k: nat)
    requires t.Ok(cfg, listeners) && k < |t.conns|
    ensures var u := EventTables(cfg, listeners, t, e); k < |u.conns| && (u.Held(k) ==> t.Held(k))
  {
  }

  // ----- runs -----

  /** No event from `i` up to but not including `j` wakes the connection. */
  predicate Undisturbed(events: seq<Event>, k: nat, i: nat, j: nat)
    requires j <= |events|
  {
    forall n | i <= n < j :: !Wakes(events[n], k)
  }

  ghost predicate OkRun(cfg: Config, listeners: set<int>, ts: seq<Tables>, events: seq<Event>) {
    Ran(cfg, listeners, ts, events) && forall i | 0 <= i < |ts| :: ts[i].Ok(cfg, listeners)
  }

  lemma StepWaits(cfg: Config, listeners: set<int>, t: Tables, e: Event, k: nat, act: Action, all: seq<int>)
    requires t.Ok(cfg, listeners) && Waits(t, k, act, all) && !Wakes(e, k) && Final(act)
    requires EventTables(cfg, listeners, t, e).Held(k) && !EventStops(cfg, listeners, t, e)
    ensures Waits(EventTables(cfg, listeners, t, e), k, act, all)
  {
    if !Reaches(t, e, k) {
      OtherEvent(cfg, listeners, t, e, k);
    } else if t.conns[k].out != [] {
      SendingEvent(cfg, listeners, t, e, k, act, all);
    } else {
      ActingEvent(cfg, listeners, t, e, k, act);
    }
  }

  /** As long as nobody wakes it, a connection still held keeps its action, and no byte of its output is lost. */
  lemma {:induction false} StillWaits(cfg: Config, listeners: set<int>, ts: seq<Tables>, events: seq<Event>,
                                      i: nat, j: nat, k: nat, act: Action, all: seq<int>)
    requires OkRun(cfg, listeners, ts, events) && i <= j < |ts| - 1 && Undisturbed(events, k, i, j)
    requires Waits(ts[i], k, act, all) && Final(act)
    ensures k < |ts[j].conns|
    ensures ts[j].Held(k) ==> Waits(ts[j], k, act, all)
    decreases j - i
  {
    if i < j {
      StillWaits(cfg, listeners, ts, events, i, j - 1, k, act, all);
      GoneStays(cfg, listeners, ts[j - 1], events[j - 1], k);
      if ts[j].Held(k) {
        StepWaits(cfg, listeners, ts[j - 1], events[j - 1], k, act, all);
      }
    }
  }

  /**
   A Close, Detach or Shutdown that Opened or a read's Data callback returns is carried out by the event that reaches
   the connection once all output is sent, if no wake comes between.
   */
  lemma ReplyCarriedOut(cfg: Config, listeners: set<int>, ts: seq<Tables>, events: seq<Event>,
                        i: nat, j: nat, k: nat, r: Reply)
    requires OkRun(cfg, listeners, ts, events) && i < j < |ts| - 1 && Undisturbed(events, k, i + 1, j)
    requires Replied(cfg, ts[i], events[i], k, r) && Final(r.action)
    requires k < |ts[j].conns| && Reaches(ts[j], events[j], k) && ts[j].conns[k].out == []
    ensures ts[j].hist[k].sent == ts[i].hist[k].sent + r.out
    ensures k < |ts[j + 1].conns| == |ts[j + 1].hist|
    ensures CarriedOut(cfg, ts[j + 1], EventStops(cfg, listeners, ts[j], events[j]), k, r.action,
                       events[j].answers.detachOk)
  {
    var all := ts[i].hist[k].sent + r.out;
    ReplyTaken(cfg, listeners, ts[i], events[i], k, r);
    StillWaits(cfg, listeners, ts, events, i + 1, j, k, r.action, all);
    assert ts[j].hist[k].sent + ts[j].conns[k].out == ts[j].hist[k].sent;
    ActingEvent(cfg, listeners, ts[j], events[j], k, r.action);
  }

  /** Until then it can leave the loop in one way only: a write fails. */
  lemma {:induction false} OnlyFailureBefore(cfg: Config, listeners: set<int>, ts: seq<Tables>, events: seq<Event>,
                                             i: nat, j: nat, k: nat, act: Action, all: seq<int>)
    requires OkRun(cfg, listeners, ts, events) && i <= j < |ts| - 1 && Undisturbed(events, k, i, j)
    requires Waits(ts[i], k, act, all) && Final(act)
    requires forall n | i <= n < j && Reaches(ts[n], events[n], k) :: ts[n].conns[k].out != []
    ensures k < |ts[j].conns| == |ts[j].hist|
    ensures ts[j].Held(k) || ts[j].hist[k].end == Closed(false)
    decreases j - i
  {
    if i < j {
      OnlyFailureBefore(cfg, listeners, ts, events, i, j - 1, k, act, all);
      StillWaits(cfg, listeners, ts, events, i, j - 1, k, act, all);
      var t, e := ts[j - 1], events[j - 1];
      if !t.Held(k) {
        GoneKeepsEnd(cfg, listeners, t, e, k);
      } else if Reaches(t, e, k) {
        SendingEvent(cfg, listeners, t, e, k, act, all);
      } else {
        OtherEvent(cfg, listeners, t, e, k);
      }
    }
  }

  lemma GoneKeepsEnd(cfg: Config, listeners: set<int>, t: Tables, e: Event, k: nat)
    requires t.Ok(cfg, listeners) && k < |t.conns| && !t.Held(k)
    ensures var u := EventTables(cfg, listeners, t, e);
      k < |u.conns| == |u.hist| && !u.Held(k) && u.hist[k].end == t.hist[k].end
  {
    if PossibleIn(t, e) && e.Ready? && e.fd in t.fdconns {
      assert t.Held(t.fdconns[e.fd]);
    }
  }
}
