/** Runs of calls on the timer, seen as values: what each call does, and exactly when the heap stays ordered. */
module TimerRuns {
  import opened Chains
  import opened HeapOrder
  import opened MinHeapModel
  import opened TaskCtlModel

  /** What a user of the timer can call. */
  datatype Command = Start(e: Task, now: int) | Stop(e: Task) | Reset(e: Task, now: int) | Check(now: int)
  {
    function Tasks(): set<Task> {
      if Check? then {} else {e}
    }
  }

  /** The heap, and the trigger time and recorded place of every task, whether it is in the heap or not. */
  datatype Timer = Timer(data: seq<Task>, due: Keys<Task>, places: map<Task, int>)

  ghost function Now(c: TaskCtl, tasks: set<Task>): Timer
    reads c, c.heap, tasks
  {
    Timer(c.heap.data, map t | t in tasks :: t.triggerTime, map t | t in tasks :: t.index)
  }

  predicate Ordered(u: Timer) {
    IsHeap(u.data, u.due)
  }

  function PlaceOf(u: Timer, e: Task): int {
    if e in u.places then u.places[e] else -1
  }

  /** The tasks in the heap are different ones, and each knows its place. */
  predicate Placed(u: Timer) {
    Distinct(u.data) && forall i | 0 <= i < |u.data| :: PlaceOf(u, u.data[i]) == i
  }

  /** A removal must not move a task below a later one: a test that can be made before the call. */
  predicate Keeps(u: Timer, c: Command) {
    (c.Stop? || c.Reset?) && 0 <= PlaceOf(u, c.e) < |u.data| ==> CanRemove(u.data, u.due, PlaceOf(u, c.e))
  }

  predicate Same(u: Timer, v: Timer) {
    v.data == u.data && v.due == u.due
  }

  /** Stopping takes out whatever task is at the place recorded. */
  predicate Stopped(u: Timer, e: Task, v: Timer) {
    && v.due == u.due
    && var k := PlaceOf(u, e);
       if 0 <= k < |u.data| then multiset(u.data) == multiset(v.data) + At(u.data, k) else v.data == u.data
  }

  predicate Started(u: Timer, e: Task, now: int, v: Timer) {
    if PlaceOf(u, e) >= 0 then Same(u, v)
    else multiset(v.data) == multiset(u.data) + multiset{e} && v.due == u.due[e := now + e.duration]
  }

  /** Resetting takes out whatever task is at the place recorded, and puts the task one period from now. */
  predicate Renewed(u: Timer, e: Task, now: int, v: Timer) {
    var k := PlaceOf(u, e);
    if k < 0 then Same(u, v)
    else
      && v.due == u.due[e := now + e.duration]
      && multiset(v.data) + At(u.data, k) == multiset(u.data) + multiset{e}
  }

  /** What is at place `k`, if anything. */
  function At(s: seq<Task>, k: nat): multiset<Task> {
    if k < |s| then multiset{s[k]} else multiset{}
  }

  /** Where a task is after a check at `now` of an ordered heap: fired as often as it was due. */
  predicate FiredDue(t: Task, was: int, moved: int, held: bool, now: int) {
    (t.loop ==> t.duration > 0) ==>
      && (held <==> t.loop || was > now)
      && moved == was + if t.loop then Due(true, t.duration, was, now) * t.duration else 0
  }

  /** Firing keeps looping tasks and moves only their trigger times. */
  ghost predicate Fired(u: Timer, now: int, v: Timer) {
    && v.due.Keys == u.due.Keys
    && (v.data != [] ==> Key(v.due, v.data[0]) > now)
    && (forall t | t in v.data :: t in u.data)
    && (forall t | t in u.data && t.loop :: t in v.data)
    && (forall t | t in u.due && !(t in u.data && t.loop) :: Key(v.due, t) == Key(u.due, t))
    && (Ordered(u) ==> forall t | t in u.data :: FiredDue(t, Key(u.due, t), Key(v.due, t), t in v.data, now))
  }

  /** A task that is not in the heap keeps the place it recorded, but for one just fired, which had reached the root. */
  predicate Stale(u: Timer, c: Command, v: Timer) {
    forall t | t in u.places && t !in v.data ::
      PlaceOf(v, t) == if c.Check? && t in u.data then 0 else PlaceOf(u, t)
  }

  ghost predicate Effect(u: Timer, c: Command, v: Timer) {
    match c
    case Start(e, now) => Started(u, e, now, v)
    case Stop(e) => Stopped(u, e, v)
    case Reset(e, now) => Renewed(u, e, now, v)
    case Check(now) => Fired(u, now, v)
  }

  /** What one call does to the timer. An ordered heap stays ordered exactly when the call's removal keeps it so. */
  ghost predicate Called(u: Timer, c: Command, v: Timer) {
    Effect(u, c, v) && Stale(u, c, v) && Placed(v) && (Ordered(u) ==> (Ordered(v) <==> Keeps(u, c)))
  }

  // ----- from the heap to values -----

  lemma NowOrdered(c: TaskCtl, tasks: set<Task>)
    requires forall t | t in c.heap.data :: t in tasks
    ensures Ordered(Now(c, tasks)) <==> OrderedTasks(c.heap.data)
  {
    AgreesHeap(c.heap.data, Now(c, tasks).due);
  }

  lemma NowPlaced(c: TaskCtl, tasks: set<Task>)
    requires c.Sound() && forall t | t in c.heap.data :: t in tasks
    ensures Placed(Now(c, tasks))
  {
  }

  lemma NowKeeps(c: TaskCtl, tasks: set<Task>, k: nat)
    requires forall t | t in c.heap.data :: t in tasks
    ensures k < |c.heap.data| ==>
      (CanRemove(c.heap.data, Triggers(c.heap.data), k) <==> CanRemove(c.heap.data, Now(c, tasks).due, k))
  {
  }

  method CallStart(c: TaskCtl, e: Task, now: int, ghost tasks: set<Task>)
    requires c.Sound() && e in tasks && forall t | t in c.heap.data :: t in tasks
    modifies c.heap`data, tasks
    ensures c.Sound() && forall t | t in c.heap.data :: t in tasks
    ensures Started(old(Now(c, tasks)), e, now, Now(c, tasks))
    ensures Stale(old(Now(c, tasks)), Start(e, now), Now(c, tasks))
    ensures old(OrderedTasks(c.heap.data)) ==> OrderedTasks(c.heap.data)
  {
    c.Start(e, now);
  }

  /** A stop, seen from the tasks in the heap. */
  method StopAt(c: TaskCtl, e: Task)
    requires c.Sound() && e.index >= 0
    modifies c.heap`data, (set t | t in c.heap.data)`index
    ensures c.Sound()
    ensures old(e.index) >= |old(c.heap.data)| ==> c.heap.data == old(c.heap.data)
    ensures multiset(old(c.heap.data)) == multiset(c.heap.data) + At(old(c.heap.data), old(e.index))
    ensures forall t | t in c.heap.data :: t in old(c.heap.data)
    ensures forall t | t in old(c.heap.data) && t !in c.heap.data :: t.index == old(t.index)
    ensures old(OrderedTasks(c.heap.data)) ==>
      (OrderedTasks(c.heap.data) <==>
        old(e.index >= |c.heap.data| || CanRemove(c.heap.data, Triggers(c.heap.data), e.index)))
  {
    ghost var s := c.heap.data;
    c.Stop(e);
    SameElements(c.heap.data, s);
  }

  method CallStop(c: TaskCtl, e: Task, ghost tasks: set<Task>)
    requires c.Sound() && e in tasks && e.index >= 0 && forall t | t in c.heap.data :: t in tasks
    modifies c.heap`data, tasks
    ensures c.Sound() && forall t | t in c.heap.data :: t in tasks
    ensures Stopped(old(Now(c, tasks)), e, Now(c, tasks))
    ensures Stale(old(Now(c, tasks)), Stop(e), Now(c, tasks))
    ensures old(OrderedTasks(c.heap.data)) ==>
      (OrderedTasks(c.heap.data) <==>
        old(e.index >= |c.heap.data| || CanRemove(c.heap.data, Triggers(c.heap.data), e.index)))
  {
    StopAt(c, e);
  }

  /** Only the task at place `k` can leave, and only `e` can come. */
  lemma Exchanged(s: seq<Task>, data: seq<Task>, k: nat, e: Task)
    requires multiset(data) + At(s, k) == multiset(s) + multiset{e}
    requires e in s ==> multiset(data) == multiset(s)
    ensures e in data && forall t | t in data :: t in s || t == e
    ensures forall t | t in s && t !in data :: k < |s| && t == s[k]
  {
    var out := At(s, k);
    forall t
      ensures t in data ==> t in s || t == e
      ensures t in s && t !in data ==> t in out
      ensures t == e ==> t in data
    {
      assert (multiset(data) + out)[t] == (multiset(s) + multiset{e})[t];
      assert t in data <==> t in multiset(data);
      assert t in s <==> t in multiset(s);
    }
  }

  /** A reset, seen from all tasks. */
  method ResetAt(c: TaskCtl, e: Task, now: int, ghost tasks: set<Task>)
    requires c.Sound() && e in tasks && e.index >= 0 && forall t | t in c.heap.data :: t in tasks
    modifies c.heap`data, tasks
    ensures c.Sound() && e.triggerTime == now + e.duration
    ensures forall t | t in tasks && t != e :: t.triggerTime == old(t.triggerTime)
    ensures multiset(c.heap.data) + At(old(c.heap.data), old(e.index)) == multiset(old(c.heap.data)) + multiset{e}
    ensures forall t | t in c.heap.data :: t in tasks
    ensures forall t | t in tasks && t !in c.heap.data :: t.index == old(t.index)
    ensures old(OrderedTasks(c.heap.data)) ==>
      (OrderedTasks(c.heap.data) <==>
        old(e.index >= |c.heap.data| || CanRemove(c.heap.data, Triggers(c.heap.data), e.index)))
  {
    ghost var s, k := c.heap.data, e.index;
    c.Reset(e, now);
    Exchanged(s, c.heap.data, k, e);
  }

  method CallReset(c: TaskCtl, e: Task, now: int, ghost tasks: set<Task>)
    requires c.Sound() && e in tasks && e.index >= 0 && forall t | t in c.heap.data :: t in tasks
    modifies c.heap`data, tasks
    ensures c.Sound() && forall t | t in c.heap.data :: t in tasks
    ensures Renewed(old(Now(c, tasks)), e, now, Now(c, tasks))
    ensures Stale(old(Now(c, tasks)), Reset(e, now), Now(c, tasks))
    ensures old(OrderedTasks(c.heap.data)) ==>
      (OrderedTasks(c.heap.data) <==>
        old(e.index >= |c.heap.data| || CanRemove(c.heap.data, Triggers(c.heap.data), e.index)))
  {
    ghost var u := Now(c, tasks);
    ResetAt(c, e, now, tasks);
    assert Now(c, tasks).due == u.due[e := now + e.duration];
  }

  /** A check, seen from the tasks in the heap. */
  method CheckDue(c: TaskCtl, now: int)
    requires c.Sound() && Periodic(c.heap.data)
    modifies c.heap`data, (set t | t in c.heap.data)`index, (set t | t in c.heap.data)`triggerTime
    ensures c.Sound()
    ensures old(OrderedTasks(c.heap.data)) ==> OrderedTasks(c.heap.data)
    ensures c.heap.data != [] ==> c.heap.data[0].triggerTime > now
    ensures forall t | t in c.heap.data :: t in old(c.heap.data)
    ensures forall t | t in old(c.heap.data) && t.loop :: t in c.heap.data
    ensures forall t | t in old(c.heap.data) && !t.loop :: t.triggerTime == old(t.triggerTime)
    ensures forall t | t in old(c.heap.data) && t !in c.heap.data :: t.index == 0
    ensures old(OrderedTasks(c.heap.data)) ==> forall t | t in old(c.heap.data) ::
      FiredDue(t, old(t.triggerTime), t.triggerTime, t in c.heap.data, now)
  {
    ghost var fired := c.FrameCheck(now);
  }

  method CallCheck(c: TaskCtl, now: int, ghost tasks: set<Task>)
    requires c.Sound() && Periodic(c.heap.data) && forall t | t in c.heap.data :: t in tasks
    modifies c.heap`data, tasks
    ensures c.Sound() && forall t | t in c.heap.data :: t in tasks
    ensures Fired(old(Now(c, tasks)), now, Now(c, tasks))
    ensures Stale(old(Now(c, tasks)), Check(now), Now(c, tasks))
    ensures old(OrderedTasks(c.heap.data)) ==> OrderedTasks(c.heap.data)
  {
    ghost var u := Now(c, tasks);
    NowOrdered(c, tasks);
    CheckDue(c, now);
    ghost var v := Now(c, tasks);
    assert Ordered(u) ==> forall t | t in u.data :: FiredDue(t, Key(u.due, t), Key(v.due, t), t in v.data, now);
  }

  // ----- runs -----

  /** One call by a user of the timer. Stopping or resetting a task that was never started is out of range. */
  method Do(c: TaskCtl, call: Command, ghost tasks: set<Task>)
    requires c.Sound() && Periodic(c.heap.data) && call.Tasks() <= tasks && forall t | t in c.heap.data :: t in tasks
    modifies c.heap`data, tasks
    ensures c.Sound() && forall t | t in c.heap.data :: t in tasks
    ensures Called(old(Now(c, tasks)), call, Now(c, tasks))
  {
    NowOrdered(c, tasks);
    match call {
      case Start(e, now) =>
        CallStart(c, e, now, tasks);
      case Stop(e) =>
        if e.index >= 0 {
          NowKeeps(c, tasks, e.index);
          CallStop(c, e, tasks);
        }
      case Reset(e, now) =>
        if e.index >= 0 {
          NowKeeps(c, tasks, e.index);
          CallReset(c, e, now, tasks);
        }
      case Check(now) =>
        CallCheck(c, now, tasks);
    }
    NowOrdered(c, tasks);
    NowPlaced(c, tasks);
  }

  /** The timers a sequence of calls goes through. */
  ghost predicate Ran(us: seq<Timer>, calls: seq<Command>) {
    |us| == |calls| + 1 && forall i | 0 <= i < |calls| :: Called(us[i], calls[i], us[i + 1])
  }

  /** From an ordered heap: it stays ordered throughout a run exactly when every removal of the run keeps it so. */
  lemma RunOrdered(us: seq<Timer>, calls: seq<Command>)
    requires Ran(us, calls) && Ordered(us[0])
    ensures (forall i | 0 <= i < |us| :: Ordered(us[i])) <==> forall i | 0 <= i < |calls| :: Keeps(us[i], calls[i])
  {
    var n := |calls|;
    var has := seq(n + 1, i requires 0 <= i <= n => Ordered(us[i]));
    var links := seq(n, i requires 0 <= i < n => Keeps(us[i], calls[i]));
    forall i | 0 <= i < n && has[i] ensures has[i + 1] == links[i] {
      assert Called(us[i], calls[i], us[i + 1]);
    }
    Chain(has, links, n);
    assert forall i | 0 <= i <= n :: has[i] == Ordered(us[i]);
    assert forall i | 0 <= i < n :: links[i] == Keeps(us[i], calls[i]);
  }

  /**
   Any calls in any order: `us` are the timers before and after each. The tasks held stay different and know their
   places; from an ordered heap, the heap is ordered all the way exactly when every removal keeps it so.
   */
  method Run(c: TaskCtl, calls: seq<Command>, ghost tasks: set<Task>) returns (ghost us: seq<Timer>)
    requires c.Sound() && forall t | t in c.heap.data :: t in tasks
    requires forall call | call in calls :: call.Tasks() <= tasks
    requires forall t | t in tasks :: t.loop ==> t.duration > 0
    modifies c.heap`data, tasks
    ensures c.Sound() && forall t | t in c.heap.data :: t in tasks
    ensures Ran(us, calls) && us[0] == old(Now(c, tasks)) && us[|calls|] == Now(c, tasks)
    ensures old(OrderedTasks(c.heap.data)) ==>
      ((forall i | 0 <= i < |us| :: Ordered(us[i])) <==> forall i | 0 <= i < |calls| :: Keeps(us[i], calls[i]))
  {
    us := [Now(c, tasks)];
    NowOrdered(c, tasks);
    for i := 0 to |calls|
      invariant c.Sound() && forall t | t in c.heap.data :: t in tasks
      invariant |us| == i + 1 && us[0] == old(Now(c, tasks)) && us[i] == Now(c, tasks)
      invariant forall j | 0 <= j < i :: Called(us[j], calls[j], us[j + 1])
    {
      assert calls[i] in calls;
      Do(c, calls[i], tasks);
      us := us + [Now(c, tasks)];
    }
    if Ordered(us[0]) {
      RunOrdered(us, calls);
    }
  }
}
