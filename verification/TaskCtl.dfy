/** The timer: tasks due are fired in order, and looping tasks are put back one period later. */
module TaskCtlModel {
  import opened HeapOrder
  import opened MinHeapModel

  /** One event that was run, with the trigger time it was due at. */
  datatype Firing = Firing(task: Task, at: int)

  /** How often a task is due up to `now`. */
  function Due(loop: bool, duration: int, trigger: int, now: int): nat
    requires loop ==> duration > 0
  {
    if trigger > now then 0 else if loop then (now - trigger) / duration + 1 else 1
  }

  /** Firing a looping task and moving it one period on uses up exactly one of its due times. */
  lemma DueStep(duration: int, trigger: int, now: int)
    requires duration > 0 && trigger <= now
    ensures Due(true, duration, trigger, now) == Due(true, duration, trigger + duration, now) + 1
  {
    var x := now - trigger;
    if x < duration {
      assert x / duration == 0;
    } else {
      DivMinusOne(x, duration);
    }
  }

  lemma DivMinusOne(x: int, d: int)
    requires 0 < d <= x
    ensures (x - d) / d == x / d - 1
  {
    var q, q' := x / d, (x - d) / d;
    assert (q - 1 - q') * d == (x - d) % d - x % d;
    Multiples(q - 1 - q', d);
  }

  lemma Multiples(k: int, d: int)
    requires d > 0
    ensures k > 0 ==> k * d >= d
    ensures k < 0 ==> k * d <= -d
  {
    if k > 0 {
      assert (k - 1) * d >= 0;
    } else if k < 0 {
      assert (-k - 1) * d >= 0;
    }
  }

  function Times(fired: seq<Firing>, t: Task): nat {
    if fired == [] then 0 else Times(fired[..|fired| - 1], t) + if fired[|fired| - 1].task == t then 1 else 0
  }

  lemma TimesAdd(fired: seq<Firing>, f: Firing, t: Task)
    ensures Times(fired + [f], t) == Times(fired, t) + if f.task == t then 1 else 0
  {
    assert (fired + [f])[..|fired|] == fired;
  }

  ghost predicate InOrder(fired: seq<Firing>) {
    forall i, j | 0 <= i < j < |fired| :: fired[i].at <= fired[j].at
  }

  /** The log so far: only of tasks in `init` that were due; from an ordered heap in order, and nothing after `last`. */
  ghost predicate Logged(fired: seq<Firing>, init: seq<Task>, ord: bool, last: int, now: int) {
    && (forall f | f in fired :: f.task in init && f.at <= now)
    && (ord ==> InOrder(fired) && forall f | f in fired :: f.at <= last)
  }

  lemma LogStep(fired: seq<Firing>, init: seq<Task>, ord: bool, last: int, now: int, f: Firing)
    requires Logged(fired, init, ord, last, now) && f.task in init && f.at <= now && (ord ==> last <= f.at)
    ensures Logged(fired + [f], init, ord, f.at, now)
  {
    if ord {
      forall i, j | 0 <= i < j < |fired + [f]| ensures (fired + [f])[i].at <= (fired + [f])[j].at {
        assert j < |fired| || fired[i] in fired;
      }
    }
  }

  function Sum(s: seq<nat>): nat {
    if s == [] then 0 else s[0] + Sum(s[1..])
  }

  lemma {:induction false} SumLower(s: seq<nat>, k: nat)
    requires k < |s| && s[k] > 0
    ensures Sum(s[k := s[k] - 1]) == Sum(s) - 1
  {
    if k > 0 {
      SumLower(s[1..], k - 1);
      assert s[k := s[k] - 1][1..] == s[1..][k - 1 := s[1..][k - 1] - 1];
    } else {
      assert s[k := s[k] - 1][1..] == s[1..];
    }
  }

  /** Looping tasks must have a positive period, or the dispatch loop would never end. */
  ghost predicate Periodic(s: seq<Task>) {
    forall t | t in s :: t.loop ==> t.duration > 0
  }

  /** Where a task stands during dispatch: fired so far, still due, and the trigger time that follows from it. */
  predicate Progress(t: Task, trigger: int, held: bool, start: int, fires: nat, left: nat, now: int)
    requires t.loop ==> t.duration > 0
  {
    && fires + left == Due(t.loop, t.duration, start, now)
    && left == (if held then Due(t.loop, t.duration, trigger, now) else 0)
    && (!held ==> !t.loop && start <= now)
    && trigger == start + if t.loop then fires * t.duration else 0
  }

  ghost function TriggersNow(s: seq<Task>): (r: seq<int>)
    reads s`triggerTime
    ensures |r| == |s| && forall k | 0 <= k < |s| :: r[k] == s[k].triggerTime
  {
    if s == [] then [] else [s[0].triggerTime] + TriggersNow(s[1..])
  }

  ghost function HeldIn(s: seq<Task>, data: seq<Task>): seq<bool> {
    seq(|s|, k requires 0 <= k < |s| => s[k] in data)
  }

  /** Where all tasks that were in the heap when dispatch began stand. */
  predicate AllProgress(init: seq<Task>, triggers: seq<int>, held: seq<bool>, starts: seq<int>, fired: seq<Firing>,
                        rem: seq<nat>, now: int)
    requires forall t | t in init :: t.loop ==> t.duration > 0
  {
    && |triggers| == |held| == |starts| == |rem| == |init|
    && forall k | 0 <= k < |init| ::
         Progress(init[k], triggers[k], held[k], starts[k], Times(fired, init[k]), rem[k], now)
  }

  /** How often each task is due. */
  function DueAll(init: seq<Task>, triggers: seq<int>, now: int): (r: seq<nat>)
    requires |triggers| == |init| && forall t | t in init :: t.loop ==> t.duration > 0
    ensures |r| == |init| && forall k | 0 <= k < |init| :: r[k] == Due(init[k].loop, init[k].duration, triggers[k], now)
  {
    seq(|init|, k requires 0 <= k < |init| => Due(init[k].loop, init[k].duration, triggers[k], now))
  }

  lemma NothingFired(init: seq<Task>, triggers: seq<int>, now: int)
    requires |triggers| == |init| && Periodic(init)
    ensures AllProgress(init, triggers, HeldIn(init, init), triggers, [], DueAll(init, triggers, now), now)
  {
  }

  function MovedOn(init: seq<Task>, triggers: seq<int>, k: nat): seq<int>
    requires |triggers| == |init| && k < |init|
  {
    triggers[k := triggers[k] + if init[k].loop then init[k].duration else 0]
  }

  lemma MovedBy(init: seq<Task>, k: nat, was: seq<int>)
    requires |was| == |init| && k < |init| && forall j | 0 <= j < |init| && j != k :: init[j].triggerTime == was[j]
    requires init[k].triggerTime == was[k] + if init[k].loop then init[k].duration else 0
    ensures TriggersNow(init) == MovedOn(init, was, k)
  {
  }

  lemma HeldBy(init: seq<Task>, k: nat, data: seq<Task>, was: seq<bool>)
    requires |was| == |init| && k < |init|
    requires forall j | 0 <= j < |init| && j != k :: init[j] in data <==> was[j]
    requires init[k] in data <==> init[k].loop
    ensures HeldIn(init, data) == was[k := init[k].loop]
  {
  }

  /** What the account of a task says once dispatch is over. */
  lemma Settled(t: Task, trigger: int, held: bool, start: int, fires: nat, left: nat, now: int)
    requires (t.loop ==> t.duration > 0) && Progress(t, trigger, held, start, fires, left, now)
    ensures fires <= Due(t.loop, t.duration, start, now)
    ensures held <==> t.loop || fires == 0
    ensures held && trigger > now ==> fires == Due(t.loop, t.duration, start, now)
    ensures !held ==> fires == Due(t.loop, t.duration, start, now) && start <= now
    ensures held && !t.loop ==> trigger == start
  {
  }

  /** Firing one held task that is due: it alone makes progress. */
  lemma AllStep(init: seq<Task>, triggers: seq<int>, held: seq<bool>, starts: seq<int>, fired: seq<Firing>,
                rem: seq<nat>, k: nat, now: int)
    requires Periodic(init) && Distinct(init) && AllProgress(init, triggers, held, starts, fired, rem, now)
    requires k < |init| && held[k] && triggers[k] <= now
    ensures rem[k] > 0
    ensures AllProgress(init, MovedOn(init, triggers, k), held[k := init[k].loop], starts,
                        fired + [Firing(init[k], triggers[k])], rem[k := rem[k] - 1], now)
  {
    var e := init[k];
    assert Progress(e, triggers[k], held[k], starts[k], Times(fired, e), rem[k], now);
    ProgressStep(e, starts[k], triggers[k], Times(fired, e), rem[k], now);
    forall j | 0 <= j < |init|
      ensures Times(fired + [Firing(e, triggers[k])], init[j]) == Times(fired, init[j]) + if j == k then 1 else 0
    {
      TimesAdd(fired, Firing(e, triggers[k]), init[j]);
    }
  }

  /** The accounts of all tasks once dispatch is over. */
  lemma Accounted(init: seq<Task>, starts: seq<int>, data: seq<Task>, fired: seq<Firing>, rem: seq<nat>, now: int)
    requires Periodic(init) && AllProgress(init, TriggersNow(init), HeldIn(init, data), starts, fired, rem, now)
    ensures forall k | 0 <= k < |init| ::
      var t, due := init[k], Due(init[k].loop, init[k].duration, starts[k], now);
      && Times(fired, t) <= due
      && (t in data <==> t.loop || Times(fired, t) == 0)
      && t.triggerTime == starts[k] + (if t.loop then Times(fired, t) * t.duration else 0)
      && (t !in data || t.triggerTime > now ==>
           Times(fired, t) == due && (t in data <==> t.loop || starts[k] > now))
  {
    forall k | 0 <= k < |init|
      ensures Progress(init[k], init[k].triggerTime, init[k] in data, starts[k], Times(fired, init[k]), rem[k], now)
    {
      assert HeldIn(init, data)[k] == (init[k] in data);
    }
    forall k | 0 <= k < |init|
      ensures Times(fired, init[k]) <= Due(init[k].loop, init[k].duration, starts[k], now)
    {
      Settled(init[k], init[k].triggerTime, init[k] in data, starts[k], Times(fired, init[k]), rem[k], now);
    }
  }

  class TaskCtl {
    const heap: MinHeap

    constructor ()
      ensures fresh(heap) && heap.data == []
    {
      heap := new MinHeap();
    }

    /** The tasks in the heap are different ones, and each knows its place. */
    ghost predicate Sound()
      reads this, heap, heap.data
    {
      Distinct(heap.data) && Indexed(heap.data)
    }

    /** Gives a task that is not in the heap a new trigger time and its place in the order. */
    method Place(d: Task, trigger: int) returns (ghost k: Keys<Task>)
      requires Distinct(heap.data) && d !in heap.data
      modifies heap`data, (set t | t in heap.data)`index, d`index, d`triggerTime
      ensures Sound() && d.triggerTime == trigger
      ensures multiset(heap.data) == multiset(old(heap.data)) + multiset{d}
      ensures d in heap.data && forall t | t in heap.data :: t in old(heap.data) || t == d
      ensures forall t | t in old(heap.data) :: t in heap.data
      ensures old(OrderedTasks(heap.data)) ==> OrderedTasks(heap.data)
      ensures heap.data == SiftUp(old(heap.data) + [d], k, |old(heap.data)|)
      ensures Agrees(old(heap.data) + [d], k) && forall t | t in old(heap.data) :: Key(k, t) == old(t.triggerTime)
    {
      ghost var s := heap.data;
      d.triggerTime := trigger;
      assert old(OrderedTasks(heap.data)) ==> OrderedTasks(s);
      k := Triggers(s + [d]);
      heap.Push(d);
      AddedIn(s, heap.data, d);
    }

    /** Takes the root, which in a heap that knows its places has index 0. */
    method TakeRoot() returns (d: Task)
      requires Sound() && heap.data != []
      modifies heap`data, (set t | t in heap.data)`index
      ensures Sound() && d == old(heap.data)[0] && d.index == 0 && d !in heap.data
      ensures forall t | t in heap.data :: t in old(heap.data)
      ensures forall t | t in old(heap.data) && t != d :: t in heap.data
      ensures old(OrderedTasks(heap.data)) ==>
        OrderedTasks(heap.data) && forall t | t in old(heap.data) :: d.triggerTime <= t.triggerTime
    {
      ghost var s := heap.data;
      d := heap.Pop();
      AddedIn(heap.data, s, d);
      PoppedOut(s, heap.data, d);
    }

    /** One round of the dispatch loop. */
    method FireOne() returns (ghost e: Task)
      requires Sound() && heap.data != [] && Periodic(heap.data)
      modifies heap`data, (set t | t in heap.data)`index, (set t | t in heap.data[..1])`triggerTime
      ensures Sound()
      ensures old(OrderedTasks(heap.data)) ==> OrderedTasks(heap.data)
      ensures e == old(heap.data)[0]
      ensures old(OrderedTasks(heap.data)) ==>
        forall t | t in old(heap.data) :: old(e.triggerTime) <= old(t.triggerTime)
      ensures forall t | t in old(heap.data) && t != e :: t.triggerTime == old(t.triggerTime) && t in heap.data
      ensures forall t | t in heap.data :: t in old(heap.data)
      ensures e in heap.data <==> e.loop
      ensures e.triggerTime == old(e.triggerTime) + if e.loop then e.duration else 0
      ensures !e.loop ==> e.index == 0
    {
      var d := TakeRoot();
      e := d;
      // the event runs here
      if d.loop {
        var _ := Place(d, d.triggerTime + d.duration);
      }
    }

    /** A task that was fired and not put back keeps index 0. */
    ghost predicate Parked(init: seq<Task>)
      reads this, heap, init
    {
      forall j | 0 <= j < |init| && init[j] !in heap.data :: init[j].index == 0
    }

    /** The heap part of the invariant of the dispatch loop: in an ordered heap nothing is due before `last`. */
    ghost predicate Pending(init: seq<Task>, ord: bool, last: int)
      reads this, heap, heap.data
    {
      && Sound()
      && (forall t | t in heap.data :: t in init)
      && (ord ==> OrderedTasks(heap.data) && forall t | t in heap.data :: last <= t.triggerTime)
    }

    /** The same round, seen from the tasks `init` that were in the heap when dispatch began. */
    method FireAt(ghost init: seq<Task>, ghost k: nat) returns (ghost at: int)
      requires Sound() && Periodic(heap.data)
      requires k < |init| && heap.data != [] && init[k] == heap.data[0] && Distinct(init) && Parked(init)
      modifies heap`data, (set t | t in heap.data)`index, (set t | t in heap.data[..1])`triggerTime
      ensures Sound()
      ensures at == old(init[k].triggerTime)
      ensures TriggersNow(init) == MovedOn(init, old(TriggersNow(init)), k)
      ensures HeldIn(init, heap.data) == HeldIn(init, old(heap.data))[k := init[k].loop]
      ensures forall t | t in heap.data :: t in old(heap.data)
      ensures old(OrderedTasks(heap.data)) ==>
        OrderedTasks(heap.data) && forall t | t in heap.data :: at <= t.triggerTime
      ensures Parked(init)
    {
      ghost var was, held := TriggersNow(init), HeldIn(init, heap.data);
      at := heap.data[0].triggerTime;
      ghost var e := FireOne();
      forall j | 0 <= j < |init| && j != k
        ensures init[j].triggerTime == was[j]
        ensures init[j] in heap.data <==> held[j]
        ensures init[j] !in heap.data ==> init[j].index == 0
      {
        assert init[j] != e;
      }
      MovedBy(init, k, was);
      HeldBy(init, k, heap.data, held);
    }

    /** One round of the dispatch loop keeps its invariant and leaves one due time fewer. */
    method Round(ghost init: seq<Task>, ghost ord: bool, ghost starts: seq<int>, ghost fired: seq<Firing>,
                 ghost rem: seq<nat>, ghost last: int, now: int)
      returns (ghost fired': seq<Firing>, ghost rem': seq<nat>, ghost at: int)
      requires heap.data != [] && heap.data[0].triggerTime <= now
      requires Distinct(init) && Periodic(init) && Pending(init, ord, last) && Parked(init)
      requires Logged(fired, init, ord, last, now)
      requires AllProgress(init, TriggersNow(init), HeldIn(init, heap.data), starts, fired, rem, now)
      modifies heap`data, (set t | t in heap.data)`index, (set t | t in heap.data)`triggerTime
      ensures Pending(init, ord, at) && Parked(init) && Logged(fired', init, ord, at, now) && at <= now
      ensures AllProgress(init, TriggersNow(init), HeldIn(init, heap.data), starts, fired', rem', now)
      ensures Sum(rem') < Sum(rem)
    {
      assert heap.data[0] in init;
      ghost var k :| 0 <= k < |init| && init[k] == heap.data[0];
      ghost var triggers, held := TriggersNow(init), HeldIn(init, heap.data);
      AllStep(init, triggers, held, starts, fired, rem, k, now);
      SumLower(rem, k);
      at := FireAt(init, k);
      assert at == triggers[k];
      fired' := fired + [Firing(init[k], at)];
      rem' := rem[k := rem[k] - 1];
      LogStep(fired, init, ord, last, now, Firing(init[k], at));
      assert TriggersNow(init) == MovedOn(init, triggers, k);
      assert HeldIn(init, heap.data) == held[k := init[k].loop];
    }

    /** The dispatch loop. */
    method Dispatch(ghost init: seq<Task>, ghost ord: bool, now: int)
      returns (ghost fired: seq<Firing>, ghost rem: seq<nat>)
      requires Sound() && Periodic(init) && init == heap.data && ord == OrderedTasks(heap.data)
      modifies heap`data, (set t | t in heap.data)`index, (set t | t in heap.data)`triggerTime
      ensures Sound() && Logged(fired, init, ord, now, now)
      ensures ord ==> OrderedTasks(heap.data)
      ensures heap.data != [] ==> heap.data[0].triggerTime > now
      ensures forall t | t in heap.data :: t in init
      ensures Parked(init)
      ensures AllProgress(init, TriggersNow(init), HeldIn(init, heap.data), old(TriggersNow(init)), fired, rem, now)
    {
      fired := [];
      rem := DueAll(init, TriggersNow(init), now);
      NothingFired(init, TriggersNow(init), now);
      RootTask(init);
      ghost var last := if init != [] && init[0].triggerTime < now then init[0].triggerTime else now;
      while |heap.data| > 0 && heap.data[0].triggerTime <= now
        invariant last <= now && Logged(fired, init, ord, last, now)
        invariant |heap.data| > 0 && heap.data[0].triggerTime <= now ==> Pending(init, ord, last)
        invariant Sound() && (ord ==> OrderedTasks(heap.data))
        invariant forall t | t in heap.data :: t in init
        invariant Parked(init)
        invariant AllProgress(init, TriggersNow(init), HeldIn(init, heap.data), old(TriggersNow(init)), fired, rem, now)
        decreases Sum(rem)
      {
        fired, rem, last := Round(init, ord, old(TriggersNow(init)), fired, rem, last, now);
      }
    }

    /**
     Fires what is due at a fixed clock reading. From an ordered heap: in order of trigger time, a one-shot task once, a
     looping task once for every period that has passed, and what stays is due later. From any heap: no task more often
     than that; a task that is not put back keeps index 0.
     */
    method FrameCheck(now: int) returns (ghost fired: seq<Firing>)
      requires Sound() && Periodic(heap.data)
      modifies heap`data, (set t | t in heap.data)`index, (set t | t in heap.data)`triggerTime
      ensures Sound()
      ensures forall f | f in fired :: f.task in old(heap.data) && f.at <= now
      ensures forall t | t in heap.data :: t in old(heap.data)
      ensures heap.data != [] ==> heap.data[0].triggerTime > now
      ensures forall t | t in old(heap.data) :: Times(fired, t) <= Due(t.loop, t.duration, old(t.triggerTime), now)
      ensures forall t | t in old(heap.data) :: t in heap.data <==> t.loop || Times(fired, t) == 0
      ensures forall t | t in old(heap.data) ::
                t.triggerTime == old(t.triggerTime) + if t.loop then Times(fired, t) * t.duration else 0
      ensures forall t | t in old(heap.data) && t !in heap.data :: t.index == 0
      ensures old(OrderedTasks(heap.data)) ==>
        && OrderedTasks(heap.data) && InOrder(fired)
        && (forall t | t in old(heap.data) :: Times(fired, t) == Due(t.loop, t.duration, old(t.triggerTime), now))
        && (forall t | t in heap.data :: t.triggerTime > now)
        && (forall t | t in old(heap.data) :: t in heap.data <==> t.loop || old(t.triggerTime) > now)
    {
      ghost var init, starts, ord := heap.data, TriggersNow(heap.data), OrderedTasks(heap.data);
      ghost var rem;
      fired, rem := Dispatch(init, ord, now);
      RootTask(heap.data);
      Accounted(init, starts, heap.data, fired, rem, now);
      assert forall t | t in init :: exists k :: 0 <= k < |init| && init[k] == t;
    }

    /** Starts a task one period from now, unless it already has a place in a heap. */
    method Start(e: Task, now: int)
      requires Sound()
      modifies heap`data, (set t | t in heap.data)`index, e`index, e`triggerTime
      ensures Sound()
      ensures old(OrderedTasks(heap.data)) ==> OrderedTasks(heap.data)
      ensures old(e.index) >= 0 ==>
        heap.data == old(heap.data) && e.triggerTime == old(e.triggerTime) && e.index == old(e.index)
      ensures old(e.index) < 0 ==>
        multiset(heap.data) == multiset(old(heap.data)) + multiset{e} && e.triggerTime == now + e.duration
      ensures forall t | t in heap.data :: t in old(heap.data) || t == e
      ensures forall t | t in old(heap.data) :: t in heap.data
      ensures old(e.index) < 0 ==> e in heap.data
    {
      if e.index >= 0 {
        return;
      }
      assert e !in heap.data;
      var _ := Place(e, now + e.duration);
    }

    /**
     Removes whatever task is at the place `e` records: `e` itself exactly when it is in the heap at that place. A place
     past the end is an error and changes nothing.
     */
    method Stop(e: Task)
      requires Sound() && e.index >= 0
      modifies heap`data, (set t | t in heap.data)`index
      ensures Sound()
      ensures old(e.index) >= |old(heap.data)| ==> heap.data == old(heap.data)
      ensures old(e.index) < |old(heap.data)| ==>
        && multiset(old(heap.data)) == multiset(heap.data) + multiset{old(heap.data[e.index])}
        && (old(OrderedTasks(heap.data)) ==>
             (OrderedTasks(heap.data) <==> old(CanRemove(heap.data, Triggers(heap.data), e.index))))
      ensures e in old(heap.data) && e !in heap.data <==>
        old(e.index < |heap.data| && heap.data[e.index] == e)
      ensures forall t | t in old(heap.data) && t !in heap.data ::
        old(e.index) < |old(heap.data)| && t == old(heap.data[e.index]) && t.index == old(t.index)
    {
      ghost var s := heap.data;
      ghost var idx := e.index;
      var ok := heap.Drop(e);
      if ok {
        PoppedOut(s, heap.data, s[idx]);
      }
    }

    /**
     Removes whatever task is at the place `e` records and puts `e` one period from now. The order of the heap survives
     exactly when the removal does not break it; the push can neither mend nor break it.
     */
    method Reset(e: Task, now: int)
      requires Sound() && e.index >= 0
      modifies heap`data, (set t | t in heap.data)`index, e`index, e`triggerTime
      ensures Sound() && e.triggerTime == now + e.duration
      ensures old(e.index) < |old(heap.data)| && old(heap.data[e.index]) != e ==>
        old(heap.data[e.index]).index == old(heap.data[e.index].index)
      ensures e in old(heap.data) ==> multiset(heap.data) == multiset(old(heap.data))
      ensures old(e.index) < |old(heap.data)| ==>
        multiset(heap.data) + multiset{old(heap.data[e.index])} == multiset(old(heap.data)) + multiset{e}
      ensures old(e.index) >= |old(heap.data)| ==> multiset(heap.data) == multiset(old(heap.data)) + multiset{e}
      ensures old(OrderedTasks(heap.data)) ==>
        (OrderedTasks(heap.data) <==>
          old(e.index >= |heap.data| || CanRemove(heap.data, Triggers(heap.data), e.index)))
    {
      ghost var s, m, idx := heap.data, Triggers(heap.data), e.index;
      ghost var r, k := Renew(e, now + e.duration);
      if IsHeap(s, m) {
        ReorderedAfter(s, m, idx, r, e, k, heap.data);
      }
      if idx < |s| {
        WithoutCounts(s, m, idx);
      }
      SwappedOut(s, r, heap.data, idx, e);
    }

    /** The same as a value: `r` is the heap in between, `k` the trigger times when `e` is pushed. */
    method Renew(e: Task, trigger: int) returns (ghost r: seq<Task>, ghost k: Keys<Task>)
      requires Sound() && e.index >= 0
      modifies heap`data, (set t | t in heap.data)`index, e`index, e`triggerTime
      ensures Sound() && e.triggerTime == trigger
      ensures old(e.index) < |old(heap.data)| && old(heap.data[e.index]) != e ==>
        old(heap.data[e.index]).index == old(heap.data[e.index].index)
      ensures r == if old(e.index) < |old(heap.data)|
        then Without(old(heap.data), old(Triggers(heap.data)), old(e.index)) else old(heap.data)
      ensures heap.data == SiftUp(r + [e], k, |r|) && Agrees(r + [e], k)
      ensures forall t | t in r :: Key(k, t) == Key(old(Triggers(heap.data)), t)
    {
      ghost var s, m, idx := heap.data, Triggers(heap.data), e.index;
      Vacate(e);
      r := heap.data;
      assert forall t | t in r :: t in s && t.triggerTime == m[t];
      k := Place(e, trigger);
      assert idx < |s| && s[idx] != e ==> s[idx].index == old(heap.data[e.index].index);
    }

    /** Removes whatever task is at the place `e` records; afterwards `e` is not in the heap. */
    method Vacate(e: Task)
      requires Sound() && e.index >= 0
      modifies heap`data, (set t | t in heap.data)`index
      ensures Sound() && e !in heap.data && forall t | t in heap.data :: t in old(heap.data)
      ensures old(e.index) < |old(heap.data)| ==>
        old(heap.data[e.index]) !in heap.data && old(heap.data[e.index]).index == old(heap.data[e.index].index)
      ensures heap.data == if old(e.index) < |old(heap.data)|
        then Without(old(heap.data), old(Triggers(heap.data)), old(e.index)) else old(heap.data)
    {
      ghost var s, idx := heap.data, e.index;
      var ok := heap.Drop(e);
      DroppedOut(s, heap.data, idx, e);
    }
  }

  /** After dropping what is at the place `e` records, `e` is not in the heap. */
  lemma DroppedOut(s: seq<Task>, r: seq<Task>, idx: nat, e: Task)
    requires Distinct(s) && (e in s ==> idx < |s| && s[idx] == e)
    requires if idx < |s| then multiset(s) == multiset(r) + multiset{s[idx]} else r == s
    ensures e !in r && Distinct(r) && forall t | t in r :: t in s
    ensures idx < |s| ==> s[idx] !in r
  {
    SameElements(r, s);
    DistinctPerm(r, s);
    if idx < |s| {
      PoppedOut(s, r, s[idx]);
    }
  }

  lemma SwappedOut(s: seq<Task>, r: seq<Task>, data: seq<Task>, idx: nat, e: Task)
    requires e in s ==> idx < |s| && s[idx] == e
    requires multiset(data) == multiset(r) + multiset{e}
    requires if idx < |s| then multiset(s) == multiset(r) + multiset{s[idx]} else r == s
    ensures e in s ==> multiset(data) == multiset(s)
    ensures idx < |s| ==> multiset(data) + multiset{s[idx]} == multiset(s) + multiset{e}
  {
  }

  lemma WithoutCounts(s: seq<Task>, m: Keys<Task>, idx: nat)
    requires idx < |s|
    ensures multiset(s) == multiset(Without(s, m, idx)) + multiset{s[idx]}
  {
  }

  lemma ReorderedAfter(s: seq<Task>, m: Keys<Task>, idx: nat, r: seq<Task>, e: Task, k: Keys<Task>, data: seq<Task>)
    requires IsHeap(s, m) && Agrees(r + [e], k) && (forall t | t in r :: Key(m, t) == Key(k, t))
    requires r == (if idx < |s| then Without(s, m, idx) else s) && data == SiftUp(r + [e], k, |r|)
    ensures OrderedTasks(data) <==> idx >= |s| || CanRemove(s, m, idx)
  {
    SameElements(data, r + [e]);
    AgreesHeap(data, k);
    if idx < |s| {
      PushBackHeap(s, m, idx, r, e, k);
    } else {
      SameKeysHeap(r, m, k);
      PushKeepsHeap(r, k, e);
    }
  }

  /** The task that was fired at `at` makes progress by one. */
  lemma ProgressStep(e: Task, start: int, at: int, fires: nat, left: nat, now: int)
    requires (e.loop ==> e.duration > 0) && at <= now
    requires fires + left == Due(e.loop, e.duration, start, now) && left == Due(e.loop, e.duration, at, now)
    requires at == start + if e.loop then fires * e.duration else 0
    ensures left > 0 && Progress(e, at + (if e.loop then e.duration else 0), e.loop, start, fires + 1, left - 1, now)
  {
    if e.loop {
      DueStep(e.duration, at, now);
      assert (fires + 1) * e.duration == fires * e.duration + e.duration;
    }
  }

  lemma AddedIn(s: seq<Task>, r: seq<Task>, d: Task)
    requires multiset(r) == multiset(s) + multiset{d}
    ensures forall t :: t in r <==> t in s || t == d
  {
    forall t ensures t in r <==> t in s || t == d {
      assert t in multiset(r) <==> t in multiset(s) || t == d;
    }
  }

  lemma PoppedOut(s: seq<Task>, r: seq<Task>, d: Task)
    requires Distinct(s) && multiset(s) == multiset(r) + multiset{d}
    ensures d !in r && forall t | t in s && t != d :: t in r
  {
    DistinctCount(s, d);
    assert multiset(r)[d] == 0;
    forall t | t in s && t != d ensures t in r {
      assert t in multiset(s);
      assert t in multiset(r);
    }
  }

  /** A run in which stopping a one-shot task that has fired takes another task, still waiting, out of the heap. */
  method StopTakesAnother() returns (c: TaskCtl, done: Task, other: Task, ghost fired: seq<Firing>)
    ensures c.Sound() && c.heap.data == [] && done != other
    ensures Times(fired, done) == 1 && Times(fired, other) == 0
    ensures other.triggerTime == 10
  {
    c := new TaskCtl();
    done := new Task(1, false);
    other := new Task(10, false);
    c.Start(done, 0);
    HeldAre(c.heap.data, multiset{done});
    c.Start(other, 0);
    HeldAre(c.heap.data, multiset{done, other});
    fired := c.FrameCheck(5);
    OneHeld(c.heap.data, other);
    c.Stop(done);
  }

  lemma HeldAre(s: seq<Task>, m: multiset<Task>)
    requires multiset(s) == m
    ensures forall t :: t in s <==> t in m
  {
    forall t ensures t in s <==> t in m {
      assert t in s <==> t in multiset(s);
    }
  }

  lemma OneHeld(s: seq<Task>, b: Task)
    requires Distinct(s) && forall t :: t in s <==> t == b
    ensures s == [b]
  {
    assert b in s;
    assert s[0] in s && s[|s| - 1] in s;
  }
}
