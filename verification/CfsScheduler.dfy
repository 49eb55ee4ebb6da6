/** The completely fair scheduler as an object over the ordered map: every method has the
    effect that the policy model gives it. Tasks are named by number. */
module CfsScheduler {
  import opened Wrappers
  import opened TaskTypes
  import opened Ordering
  import opened SlotMap
  import opened CfsModel

  lemma KeyOrder()
    ensures TotalOrder(KeyLe)
  {
  }

  /** What is left of `add_task` once the task is filed: record the least key. */
  lemma Recorded(s: Cfs, t: TaskId, s1: Cfs, first: Option<Key>)
    requires t < |s.tasks|
    requires var v := if s.minVruntime.None? then 0 else s.minVruntime.value;
             s1 == Enqueue(s.(idPool := s.idPool + 1,
                              tasks := s.tasks[t := s.tasks[t].(initVruntime := v, id := s.idPool)]),
                           (v, s.idPool), t)
    requires first.None? <==> s1.ready == map[]
    requires first.Some? ==> IsLeast(s1.ready, first.value)
    ensures CfsModel.AddTask(s, t) == s1.(minVruntime := if first.Some? then Some(first.value.0) else None)
  {
    if first.Some? {
      var k := Least(s1.ready);
      assert KeyLe(k, first.value) && KeyLe(first.value, k);
    }
  }

  class CFScheduler {
    const readyQueue: SortedMap<Key, TaskId>
    var minVruntime: Option<int>
    var idPool: int
    var tasks: seq<Task>

    ghost predicate Valid()
      reads this, readyQueue, readyQueue.slots
    {
      readyQueue.Valid() && readyQueue.le == KeyLe
    }

    ghost function State(): Cfs
      reads this, readyQueue, readyQueue.slots
    {
      Cfs(readyQueue.slots.Length, readyQueue.Contents(), minVruntime, idPool, tasks)
    }

    constructor (capacity: nat, tasks: seq<Task>)
      ensures Valid() && fresh(readyQueue) && fresh(readyQueue.slots)
      ensures State() == Cfs(capacity, map[], None, 0, tasks)
    {
      KeyOrder();
      readyQueue := new SortedMap(capacity, KeyLe);
      minVruntime, idPool := None, 0;
      this.tasks := tasks;
    }

    /** Give task `t` the next id and queue it; a full queue loses it. */
    method File(t: TaskId, vruntime: int)
      requires Valid() && t < |tasks|
      modifies this, readyQueue, readyQueue.slots
      ensures Valid() && minVruntime == old(minVruntime)
      ensures State() == Enqueue(old(State()).(idPool := old(idPool) + 1,
                                               tasks := old(tasks)[t := old(tasks)[t].(id := old(idPool))]),
                                 (vruntime, old(idPool)), t)
    {
      var taskId := idPool;
      idPool := idPool + 1;
      tasks := tasks[t := tasks[t].(id := taskId)];
      var _ := readyQueue.Insert((vruntime, taskId), t);
    }

    method AddTask(t: TaskId)
      requires Valid() && t < |tasks|
      modifies this, readyQueue, readyQueue.slots
      ensures Valid() && State() == CfsModel.AddTask(old(State()), t)
    {
      ghost var s := State();
      if minVruntime.None? {
        minVruntime := Some(0);
      }
      var vruntime := minVruntime.value;
      tasks := tasks[t := tasks[t].(initVruntime := vruntime)];
      File(t, vruntime);
      assert tasks == s.tasks[t := s.tasks[t].(initVruntime := vruntime, id := s.idPool)];
      ghost var filed := State().(minVruntime := s.minVruntime);
      var first := readyQueue.FirstKeyValue();
      minVruntime := if first.Some? then Some(first.value.0.0) else None;
      Recorded(s, t, filed, if first.Some? then Some(first.value.0) else None);
    }

    method PickNextTask() returns (next: Option<TaskId>)
      requires Valid()
      modifies readyQueue, readyQueue.slots
      ensures Valid() && (next, State()) == PickNext(old(State()))
    {
      var first := readyQueue.PopFirst();
      if first.Some? {
        assert first.value.0 == Least(old(readyQueue.Contents()));
        return Some(first.value.1);
      }
      return None;
    }

    method PutPrevTask(t: TaskId)
      requires Valid() && t < |tasks|
      modifies this, readyQueue, readyQueue.slots
      ensures Valid() && State() == PutPrev(old(State()), t)
    {
      File(t, Vruntime(tasks[t]));
    }

    method TaskTick(t: TaskId) returns (resched: bool)
      requires Valid() && t < |tasks|
      modifies this`tasks
      ensures Valid() && (resched, State()) == Tick(old(State()), t)
    {
      tasks := tasks[t := tasks[t].(delta := tasks[t].delta + 1)];
      var n := readyQueue.Len();
      if n == 0 {
        return false;
      }
      return minVruntime.None? || Vruntime(tasks[t]) > minVruntime.value;
    }

    method ChangePriority(t: TaskId, prio: int) returns (ok: bool)
      requires Valid() && t < |tasks|
      modifies this`tasks
      ensures Valid() && (ok, State()) == SetPriority(old(State()), t, prio)
      ensures ok <==> -20 <= prio <= 19
      ensures |tasks| == |old(tasks)| && forall u :: 0 <= u < |tasks| && u != t ==> tasks[u] == old(tasks)[u]
      ensures ok ==> tasks[t].nice == prio && Vruntime(tasks[t]) == old(Vruntime(tasks[t]))
      ensures !ok ==> tasks == old(tasks)
    {
      PriorityExact(State(), t, prio);
      if -20 <= prio <= 19 {
        var vruntime := Vruntime(tasks[t]);
        tasks := tasks[t := tasks[t].(initVruntime := vruntime)];
        tasks := tasks[t := tasks[t].(delta := 0)];
        tasks := tasks[t := tasks[t].(nice := prio)];
        assert tasks == old(tasks)[t := Renice(old(tasks)[t], prio)];
        return true;
      }
      return false;
    }
  }
}
