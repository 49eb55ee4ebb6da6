/** Wait queues of blocked tasks: waking in order, and moving tasks from queue to queue. */
module WaitQueues {
  import opened TaskTypes

  predicate Known(q: seq<TaskId>, n: nat) {
    forall i :: 0 <= i < |q| ==> q[i] < n
  }

  /** The tasks a series of wakeups of `q` makes ready, in order: only a blocked task can be
      woken, and only once. */
  function Woken(states: seq<TaskState>, q: seq<TaskId>): seq<TaskId>
    requires Known(q, |states|)
    decreases |q|
  {
    if q == [] then []
    else if states[q[0]] == Blocked then [q[0]] + Woken(states[q[0] := Ready], q[1..])
    else Woken(states, q[1..])
  }

  /** The states a series of wakeups of `q` leaves. */
  function StatesAfter(states: seq<TaskState>, q: seq<TaskId>): (r: seq<TaskState>)
    requires Known(q, |states|)
    ensures |r| == |states|
    decreases |q|
  {
    if q == [] then states
    else StatesAfter(if states[q[0]] == Blocked then states[q[0] := Ready] else states, q[1..])
  }

  /** A queue of distinct blocked tasks is woken whole, first come first served. */
  lemma {:induction false} AllWoken(states: seq<TaskState>, q: seq<TaskId>)
    requires Known(q, |states|) && forall i :: 0 <= i < |q| ==> states[q[i]] == Blocked
    requires forall i, j :: 0 <= i < j < |q| ==> q[i] != q[j]
    ensures Woken(states, q) == q
    decreases |q|
  {
    if q == [] {
    } else {
      AllWoken(states[q[0] := Ready], q[1..]);
    }
  }

  /** Whatever is queued, nobody in the queue is left blocked, and nobody else is touched. */
  lemma {:induction false} NobodyLeft(states: seq<TaskState>, q: seq<TaskId>, t: TaskId)
    requires t < |states| && Known(q, |states|)
    ensures StatesAfter(states, q)[t] == if t in q && states[t] == Blocked then Ready else states[t]
    ensures t in Woken(states, q) <==> t in q && states[t] == Blocked
    decreases |q|
  {
    if q == [] {
    } else {
      NobodyLeft(if states[q[0]] == Blocked then states[q[0] := Ready] else states, q[1..], t);
    }
  }

  lemma OneWoken(states: seq<TaskState>, t: TaskId)
    requires t < |states|
    ensures Woken(states, [t]) == if states[t] == Blocked then [t] else []
    ensures StatesAfter(states, [t]) == if states[t] == Blocked then states[t := Ready] else states
  {
    assert [t][1..] == [];
  }

  /** Waking a queue is waking its first task, and then the rest. */
  lemma FirstWoken(states: seq<TaskState>, q: seq<TaskId>)
    requires q != [] && Known(q, |states|)
    ensures Woken(states, q) == Woken(states, [q[0]]) + Woken(StatesAfter(states, [q[0]]), q[1..])
    ensures StatesAfter(states, q) == StatesAfter(StatesAfter(states, [q[0]]), q[1..])
  {
    OneWoken(states, q[0]);
  }

  lemma {:induction false} WithoutKnown(q: seq<TaskId>, t: TaskId, n: nat)
    requires Known(q, n)
    ensures Known(Without(q, t), n)
  {
    if q == [] {
    } else {
      WithoutKnown(q[1..], t, n);
    }
  }

  /** The task fields that wait queues work on, and the log of tasks put on run queues. */
  class Tasks {
    var states: seq<TaskState>
    var inWaitQueue: seq<bool>
    var woken: seq<TaskId>

    constructor (n: nat)
      ensures states == seq(n, _ => Running) && inWaitQueue == seq(n, _ => false) && woken == []
    {
      states, inWaitQueue, woken := seq(n, _ => Running), seq(n, _ => false), [];
    }

    /** Only the transition from Blocked to Ready puts a task on a run queue. */
    method Unblock(t: TaskId)
      requires t < |states|
      modifies this`states, this`woken
      ensures states == StatesAfter(old(states), [t])
      ensures woken == old(woken) + Woken(old(states), [t])
    {
      if states[t] == Blocked {
        states := states[t := Ready];
        woken := woken + [t];
      }
    }
  }

  class WaitQueue {
    const tasks: Tasks
    var queue: seq<TaskId>

    ghost predicate Valid()
      reads this, tasks
    {
      && |tasks.inWaitQueue| == |tasks.states|
      && Known(queue, |tasks.states|)
    }

    constructor (tasks: Tasks)
      requires |tasks.inWaitQueue| == |tasks.states|
      ensures Valid() && this.tasks == tasks && queue == []
    {
      this.tasks := tasks;
      queue := [];
    }

    /** What a running task does under the lock before it gives up the CPU. */
    method Block(curr: TaskId)
      requires Valid() && curr < |tasks.states| && tasks.states[curr] == Running
      modifies this, tasks`states, tasks`inWaitQueue
      ensures Valid() && queue == old(queue) + [curr]
      ensures tasks.states == old(tasks.states)[curr := Blocked]
      ensures tasks.inWaitQueue == old(tasks.inWaitQueue)[curr := true]
    {
      tasks.states := tasks.states[curr := Blocked];
      tasks.inWaitQueue := tasks.inWaitQueue[curr := true];
      queue := queue + [curr];
    }

    method UnblockOne(t: TaskId)
      requires Valid() && t < |tasks.states|
      modifies tasks
      ensures Valid()
      ensures tasks.inWaitQueue == old(tasks.inWaitQueue)[t := false]
      ensures tasks.states == StatesAfter(old(tasks.states), [t])
      ensures tasks.woken == old(tasks.woken) + Woken(old(tasks.states), [t])
    {
      tasks.inWaitQueue := tasks.inWaitQueue[t := false];
      tasks.Unblock(t);
    }

    /** Takes the first task out; wakes it exactly if it is blocked. */
    method NotifyOne() returns (ok: bool)
      requires Valid()
      modifies this, tasks
      ensures Valid() && ok == (old(queue) != [])
      ensures !ok ==> queue == [] && unchanged(tasks)
      ensures ok ==> queue == old(queue)[1..]
      ensures ok ==> tasks.inWaitQueue == old(tasks.inWaitQueue)[old(queue)[0] := false]
      ensures ok ==> tasks.states == StatesAfter(old(tasks.states), [old(queue)[0]])
      ensures ok ==> tasks.woken == old(tasks.woken) + Woken(old(tasks.states), [old(queue)[0]])
    {
      if queue == [] {
        return false;
      }
      var task := queue[0];
      queue := queue[1..];
      UnblockOne(task);
      return true;
    }

    /** Empties the queue and wakes its blocked tasks in order. */
    method NotifyAll()
      requires Valid()
      modifies this, tasks
      ensures Valid() && queue == []
      ensures tasks.states == StatesAfter(old(tasks.states), old(queue))
      ensures tasks.woken == old(tasks.woken) + Woken(old(tasks.states), old(queue))
      ensures forall t: TaskId :: t < |tasks.inWaitQueue| ==>
                tasks.inWaitQueue[t] == (old(tasks.inWaitQueue)[t] && t !in old(queue))
    {
      ghost var was, log := tasks.states, tasks.woken;
      var more := true;
      while more
        invariant Valid() && |tasks.states| == |was|
        invariant !more ==> queue == []
        invariant forall t :: t in queue ==> t in old(queue)
        invariant StatesAfter(tasks.states, queue) == StatesAfter(was, old(queue))
        invariant tasks.woken + Woken(tasks.states, queue) == log + Woken(was, old(queue))
        invariant forall t: TaskId :: t < |was| && t !in queue ==>
                    tasks.inWaitQueue[t] == (old(tasks.inWaitQueue)[t] && t !in old(queue))
        decreases |queue|, more
      {
        ghost var q, s, w := queue, tasks.states, tasks.woken;
        more := NotifyOne();
        if more {
          FirstWoken(s, q);
          assert w + Woken(s, q) == tasks.woken + Woken(tasks.states, queue);
        }
      }
    }

    /** Takes out the first occurrence of one task. */
    method NotifyTask(task: TaskId) returns (ok: bool)
      requires Valid()
      modifies this, tasks
      ensures Valid() && ok == (task in old(queue))
      ensures !ok ==> queue == old(queue) && unchanged(tasks)
      ensures ok ==> exists i :: 0 <= i < |old(queue)| && old(queue)[i] == task && task !in old(queue)[..i]
                              && queue == old(queue)[..i] + old(queue)[i + 1..]
      ensures ok ==> tasks.inWaitQueue == old(tasks.inWaitQueue)[task := false]
      ensures ok ==> tasks.states == StatesAfter(old(tasks.states), [task])
      ensures ok ==> tasks.woken == old(tasks.woken) + Woken(old(tasks.states), [task])
    {
      var i := 0;
      while i < |queue|
        invariant 0 <= i <= |queue| && queue == old(queue) && unchanged(tasks)
        invariant task !in queue[..i]
      {
        if queue[i] == task {
          queue := queue[..i] + queue[i + 1..];
          UnblockOne(task);
          return true;
        }
        i := i + 1;
      }
      return false;
    }

    /** Moves the first `count` tasks, in order, to the back of `target`, which may be this
        very queue. */
    method Requeue(count: nat, target: WaitQueue) returns (moved: nat)
      requires Valid() && target.Valid() && target.tasks == tasks
      modifies this, target
      ensures Valid() && target.Valid()
      ensures moved == if count < |old(queue)| then count else |old(queue)|
      ensures target != this ==> queue == old(queue)[moved..] && target.queue == old(target.queue) + old(queue)[..moved]
      ensures target == this ==> queue == old(queue)[moved..] + old(queue)[..moved]
      ensures target != this ==>
                multiset(queue) + multiset(target.queue) == multiset(old(queue)) + multiset(old(target.queue))
    {
      moved := if count < |queue| then count else |queue|;
      var movers := queue[..moved];
      Cut(queue, moved);
      queue := queue[moved..];
      if movers != [] {
        target.queue := target.queue + movers;
      }
    }

    /** A task that was woken otherwise leaves this queue. */
    method CancelEvents(curr: TaskId)
      requires Valid() && curr < |tasks.states|
      modifies this, tasks`inWaitQueue
      ensures Valid() && tasks.inWaitQueue == old(tasks.inWaitQueue)[curr := false]
      ensures queue == if old(tasks.inWaitQueue)[curr] then Without(old(queue), curr) else old(queue)
    {
      if tasks.inWaitQueue[curr] {
        WithoutKnown(queue, curr, |tasks.states|);
        queue := Without(queue, curr);
        tasks.inWaitQueue := tasks.inWaitQueue[curr := false];
      }
    }
  }

  /** A task moved to another queue and then woken by something else cancels its wait in the
      queue it came from. Its stale entry swallows a notification: the task that waits
      behind it stays blocked although `notify_one` reports success. */
  method StaleEntrySwallowsNotification() returns (ok: bool, left: TaskState)
    ensures ok && left == Blocked
  {
    var tasks := new Tasks(2);
    var a := new WaitQueue(tasks);
    var b := new WaitQueue(tasks);
    a.Block(0);
    var moved := a.Requeue(1, b);
    tasks.Unblock(0);
    tasks.states := tasks.states[0 := Running];
    a.CancelEvents(0);
    b.Block(1);
    ok := b.NotifyOne();
    left := tasks.states[1];
  }
}
