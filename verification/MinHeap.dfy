/** Timer tasks and the indexed min-heap that holds them. */
module MinHeapModel {
  import opened HeapOrder

  class Task {
    const loop: bool
    const duration: int
    var triggerTime: int
    var index: int

    constructor (dur: int, loop: bool)
      ensures duration == dur && this.loop == loop && index == -1
    {
      duration := dur;
      this.loop := loop;
      triggerTime := 0;
      index := -1;
    }
  }

  /** The trigger times of some tasks as they are now. */
  ghost function Triggers(s: seq<Task>): Keys<Task>
    reads s`triggerTime
  {
    map t | t in s :: t.triggerTime
  }

  ghost predicate Agrees(s: seq<Task>, m: Keys<Task>)
    reads s`triggerTime
  {
    forall t | t in s :: Key(m, t) == t.triggerTime
  }

  ghost predicate OrderedTasks(s: seq<Task>)
    reads s`triggerTime
  {
    IsHeap(s, Triggers(s))
  }

  /** The back-pointer rule: the element at place i has index i. */
  ghost predicate Indexed(s: seq<Task>)
    reads s`index
  {
    forall i | 0 <= i < |s| :: s[i].index == i
  }

  lemma SameElements(s: seq<Task>, t: seq<Task>)
    requires multiset(s) <= multiset(t)
    ensures forall x | x in s :: x in t
  {
    forall x | x in s ensures x in t {
      assert x in multiset(s);
      assert x in multiset(t);
    }
  }

  lemma AgreesHeap(s: seq<Task>, m: Keys<Task>)
    requires Agrees(s, m)
    ensures IsHeap(s, m) <==> OrderedTasks(s)
  {
    var k := Triggers(s);
    assert forall i | 0 <= i < |s| :: Key(m, s[i]) == Key(k, s[i]);
    assert forall j: nat | j < |s| :: OrderedAt(s, m, j) <==> OrderedAt(s, k, j);
  }

  class MinHeap {
    var data: seq<Task>

    constructor ()
      ensures data == []
    {
      data := [];
    }

    method ShiftDown(start: nat, ghost m: Keys<Task>)
      requires Agrees(data, m)
      modifies this`data
      ensures data == SiftDown(old(data), m, start)
    {
      var idx: nat := start;
      var d := data;
      while idx * 2 + 1 < |d|
        invariant |d| == |data| && SiftDown(d, m, idx) == SiftDown(data, m, start)
        invariant forall i | 0 <= i < |d| :: Key(m, d[i]) == d[i].triggerTime
        decreases |d| - idx
      {
        var temp := idx * 2 + 1;
        if idx * 2 + 2 < |d| {
          if d[idx * 2 + 1].triggerTime > d[idx * 2 + 2].triggerTime {
            temp := idx * 2 + 2;
          } else {
            temp := idx * 2 + 1;
          }
        }
        assert temp == SmallerChild(d, m, idx);
        if d[idx].triggerTime > d[temp].triggerTime {
          d := Swap(d, idx, temp);
          idx := temp;
        } else {
          assert SiftDown(d, m, idx) == d;
          break;
        }
      }
      data := d;
    }

    /** One step up: a swap with the parent, and the comparison with the sibling that the code adds. */
    static method StepUp(s: seq<Task>, idx: nat, ghost m: Keys<Task>) returns (d: seq<Task>, moved: bool)
      requires 0 < idx < |s| && Agrees(s, m)
      ensures moved == (Key(m, s[idx]) < Key(m, s[(idx - 1) / 2])) && multiset(d) == multiset(s)
      ensures |d| == |s| && SiftUp(s, m, idx) == if moved then SiftUp(d, m, (idx - 1) / 2) else d
    {
      var root := (idx - 1) / 2;
      d := s;
      moved := s[idx].triggerTime < s[root].triggerTime;
      if moved {
        d := Swap(d, idx, root);
        if idx % 2 == 0 && d[idx - 1].triggerTime < d[root].triggerTime {
          d := Swap(d, idx - 1, root);
        }
      }
    }

    method ShiftUp(start: nat, ghost m: Keys<Task>)
      requires start < |data| && Agrees(data, m)
      modifies this`data
      ensures data == SiftUp(old(data), m, start)
    {
      var idx: nat := start;
      var d := data;
      while idx > 0
        invariant data == old(data) && multiset(d) == multiset(data) && idx < |d| == |data|
        invariant SiftUp(d, m, idx) == SiftUp(data, m, start)
      {
        SameElements(d, data);
        var moved;
        d, moved := StepUp(d, idx, m);
        if !moved {
          break;
        }
        idx := (idx - 1) / 2;
      }
      data := d;
    }

    /** Rewrites the back-pointers of the places from `lo` on; nothing else of any task changes. */
    method Reindex(lo: nat)
      requires lo <= |data|
      modifies (set t | t in data[lo..])`index
      ensures Distinct(data) ==> forall i | lo <= i < |data| :: data[i].index == i
    {
      for i := lo to |data|
        invariant Distinct(data) ==> forall j | lo <= j < i :: data[j].index == j
      {
        assert data[i] in data[lo..];
        data[i].index := i;
      }
    }

    /** Appends a task and sifts it up. */
    method Insert(e: Task)
      modifies this`data
      ensures data == SiftUp(old(data) + [e], old(Triggers(data + [e])), |old(data)|)
      ensures multiset(data) == multiset(old(data)) + multiset{e}
      ensures old(OrderedTasks(data)) ==> OrderedTasks(data)
      ensures Distinct(old(data)) && e !in old(data) ==> Distinct(data)
      ensures forall t | t in data :: t in old(data) || t == e
    {
      ghost var s := data;
      ghost var m := Triggers(data + [e]);
      data := data + [e];
      ShiftUp(|data| - 1, m);
      PushedTasks(s, e, data, m);
    }

    /** Adds a task at its place in the order. */
    method Push(e: Task)
      modifies this`data, (set t | t in data)`index, e`index
      ensures data == SiftUp(old(data) + [e], old(Triggers(data + [e])), |old(data)|)
      ensures multiset(data) == multiset(old(data)) + multiset{e}
      ensures old(OrderedTasks(data)) ==> OrderedTasks(data)
      ensures Distinct(old(data)) && e !in old(data) ==> Distinct(data)
      ensures Distinct(data) ==> Indexed(data)
    {
      Insert(e);
      assert data[0..] == data;
      assert forall t | t in data[0..] :: t in old(data) || t == e;
      Reindex(0);
    }

    /** Takes the root, which is a smallest task of an ordered heap. The task taken keeps the index it had. */
    method Pop() returns (d: Task?)
      modifies this`data, (set t | t in data)`index
      ensures (d == null) == (old(data) == [])
      ensures d == null ==> data == []
      ensures d != null ==> d == old(data)[0] && multiset(old(data)) == multiset(data) + multiset{d}
      ensures d != null && old(OrderedTasks(data)) ==> forall t | t in old(data) :: d.triggerTime <= t.triggerTime
      ensures old(OrderedTasks(data)) ==> OrderedTasks(data)
      ensures Distinct(old(data)) ==> Distinct(data) && Indexed(data)
      ensures d != null && d !in data ==> d.index == old(d.index)
    {
      if |data| <= 0 {
        return null;
      }
      d := data[0];
      RootTask(data);
      Remove(0);
    }

    /** Fills place `idx` with the last task and sifts it down. */
    method Extract(idx: nat, ghost m: Keys<Task>)
      requires idx < |data| && Agrees(data, m)
      modifies this`data
      ensures data == Without(old(data), m, idx)
    {
      ghost var s := data;
      var tail := |data| - 1;
      data := Swap(data, idx, tail);
      data := data[..tail];
      assert data == Cut(s, idx);
      CutAgrees(s, idx, m);
      ShiftDown(idx, m);
    }

    /** Without repetition, the places before `idx` hold none of the tasks from `idx` on. */
    lemma FrontAside(idx: nat)
      requires idx <= |data|
      ensures Distinct(data) ==> forall j | 0 <= j < idx :: data[j] !in data[idx..] && data[j] == data[..idx][j]
    {
    }

    /** Removes the task at place `idx` and rewrites the back-pointers from there on. */
    method Remove(idx: nat)
      requires idx < |data|
      modifies this`data, (set t | t in data)`index
      ensures data == Without(old(data), old(Triggers(data)), idx)
      ensures multiset(old(data)) == multiset(data) + multiset{old(data)[idx]}
      ensures old(OrderedTasks(data)) ==> (OrderedTasks(data) <==> old(CanRemove(data, Triggers(data), idx)))
      ensures Distinct(old(data)) ==> Distinct(data)
      ensures Distinct(old(data)) && (idx == 0 || old(Indexed(data))) ==> Indexed(data)
      ensures old(data)[idx] !in data ==> old(data)[idx].index == old(data[idx].index)
    {
      ghost var s, m := data, Triggers(data);
      Extract(idx, m);
      RemovedTasks(s, idx, data, m);
      TailAmong(data, idx, s);
      FrontAside(idx);
      Reindex(idx);
    }

    /** Drops the task whose place a task records. Past the end of the heap this is an error and changes nothing. */
    method Drop(i: Task) returns (ok: bool)
      requires i.index >= 0
      modifies this`data, (set t | t in data)`index
      ensures ok == (old(i.index) < |old(data)|)
      ensures !ok ==> data == old(data) && forall t | t in data :: t.index == old(t.index)
      ensures ok ==> data == Without(old(data), old(Triggers(data)), old(i.index))
      ensures ok ==> multiset(old(data)) == multiset(data) + multiset{old(data[i.index])}
      ensures ok && old(OrderedTasks(data)) ==>
        (OrderedTasks(data) <==> old(CanRemove(data, Triggers(data), i.index)))
      ensures Distinct(old(data)) ==> Distinct(data)
      ensures Distinct(old(data)) && old(Indexed(data)) ==> Indexed(data)
      ensures ok && old(data[i.index]) !in data ==> old(data[i.index]).index == old(data[i.index].index)
    {
      var idx := i.index;
      if |data| <= idx {
        return false;
      }
      Remove(idx);
      return true;
    }

    /** Takes task after task: from an ordered heap they come out in order of trigger time, and all of them. */
    method Drain() returns (out: seq<Task>)
      requires OrderedTasks(data)
      modifies this`data, (set t | t in data)`index
      ensures data == [] && multiset(out) == multiset(old(data))
      ensures forall i, j | 0 <= i < j < |out| :: out[i].triggerTime <= out[j].triggerTime
    {
      out := [];
      while |data| > 0
        invariant OrderedTasks(data) && multiset(out) + multiset(data) == multiset(old(data))
        invariant forall t | t in data :: t in old(data)
        invariant forall i, j | 0 <= i < j < |out| :: out[i].triggerTime <= out[j].triggerTime
        invariant forall o, t | o in out && t in data :: o.triggerTime <= t.triggerTime
      {
        ghost var s := data;
        var d := Pop();
        SameElements(data, s);
        out := out + [d];
      }
    }
  }

  lemma PushedTasks(s: seq<Task>, e: Task, r: seq<Task>, m: Keys<Task>)
    requires Agrees(s + [e], m) && r == SiftUp(s + [e], m, |s|)
    ensures multiset(r) == multiset(s) + multiset{e}
    ensures OrderedTasks(s) ==> OrderedTasks(r)
    ensures Distinct(s) && e !in s ==> Distinct(r)
    ensures forall t | t in r :: t in s || t == e
  {
    SameElements(r, s + [e]);
    if OrderedTasks(s) {
      AgreesHeap(s, m);
      PushKeepsHeap(s, m, e);
      AgreesHeap(r, m);
    }
    if Distinct(s) && e !in s {
      DistinctPerm(r, s + [e]);
    }
  }

  lemma RootTask(s: seq<Task>)
    ensures OrderedTasks(s) && s != [] ==> forall t | t in s :: s[0].triggerTime <= t.triggerTime
  {
    if OrderedTasks(s) {
      forall j | 0 <= j < |s| ensures s[0].triggerTime <= s[j].triggerTime {
        RootIsLeast(s, Triggers(s), j);
      }
    }
  }

  lemma RemovedTasks(s: seq<Task>, idx: nat, r: seq<Task>, m: Keys<Task>)
    requires Agrees(s, m) && idx < |s| && r == Without(s, m, idx)
    ensures multiset(s) == multiset(r) + multiset{s[idx]}
    ensures OrderedTasks(s) ==> (OrderedTasks(r) <==> CanRemove(s, m, idx))
    ensures |r| == |s| - 1 && r[..idx] == s[..idx]
    ensures Distinct(s) ==> Distinct(r)
    ensures forall t | t in r :: t in s
  {
    RemovedFront(s, idx, m);
    SameElements(r, s);
    if OrderedTasks(s) {
      AgreesHeap(s, m);
      WithoutHeap(s, m, idx);
      AgreesHeap(r, m);
    }
    if Distinct(s) {
      DistinctPerm(r, s);
    }
  }

  lemma CutAgrees(s: seq<Task>, idx: nat, m: Keys<Task>)
    requires idx < |s| && Agrees(s, m)
    ensures Agrees(Cut(s, idx), m)
  {
    SameElements(Cut(s, idx), s);
  }

  lemma TailAmong(s: seq<Task>, idx: nat, r: seq<Task>)
    requires idx <= |s| && forall t | t in s :: t in r
    ensures forall t | t in s[idx..] :: t in s && t in r
  {
  }

  lemma RemovedFront(s: seq<Task>, idx: nat, m: Keys<Task>)
    requires idx < |s|
    ensures |Without(s, m, idx)| == |s| - 1 && Without(s, m, idx)[..idx] == s[..idx]
  {
    DownKeepsFront(Cut(s, idx), m, idx);
    assert Cut(s, idx)[..idx] == s[..idx];
  }
}
