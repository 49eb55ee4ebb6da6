/** The fairness bound cannot be improved: two tasks that drift apart by all of it. */
module CfsTightness {
  import opened Wrappers
  import opened TaskTypes
  import opened CfsModel
  import opened CfsFairness

  /** Two tasks, one running and one queued. */
  function Pair(cap: nat, cur: TaskId, running: Task, queued: Task, pool: int): Cpu
    requires cur < 2
  {
    Cpu(Cfs(cap, map[(Vruntime(queued), queued.id) := 1 - cur], Some(0), pool,
            if cur == 0 then [running, queued] else [queued, running]), Some(cur))
  }

  lemma LeastOfTwo(k: Key, a: TaskId, j: Key, b: TaskId)
    requires k != j && KeyLe(k, j)
    ensures var ready: map<Key, TaskId> := map[k := a, j := b];
            ready != map[] && Least(ready) == k && ready[k] == a && ready - {k} == map[j := b]
  {
    var ready: map<Key, TaskId> := map[k := a, j := b];
    assert k in ready && KeyLe(Least(ready), k);
  }

  /** The running task, put back, is filed beside the queued one, which is next. */
  lemma PutsBack(cap: nat, cur: TaskId, running: Task, queued: Task, pool: int)
    requires cur < 2 <= cap && queued.id < pool && Vruntime(queued) <= Vruntime(running)
    ensures Switch(PutPrev(Pair(cap, cur, running, queued, pool).sched, cur))
            == Pair(cap, 1 - cur, queued, running.(id := pool), pool + 1)
  {
    var s := Pair(cap, cur, running, queued, pool).sched;
    var k, j := (Vruntime(queued), queued.id), (Vruntime(running), pool);
    SameVruntime(running, pool);
    assert |s.ready| == 1;
    assert PutPrev(s, cur).ready == map[k := 1 - cur, j := cur];
    LeastOfTwo(k, 1 - cur, j, cur);
    assert PutPrev(s, cur).tasks == Pair(cap, 1 - cur, queued, running.(id := pool), pool + 1).sched.tasks;
  }

  lemma SameVruntime(t: Task, id: int)
    ensures Vruntime(t.(id := id)) == Vruntime(t)
  {
  }

  /** A tick after which the running task is not behind lets the queued one run. */
  lemma Alternates(cap: nat, cur: TaskId, running: Task, queued: Task, pool: int)
    requires cur < 2 <= cap && queued.id < pool
    requires var ticked := running.(delta := running.delta + 1);
             0 < Vruntime(ticked) && Vruntime(queued) <= Vruntime(ticked)
    ensures var ticked := running.(delta := running.delta + 1, id := pool);
            CpuStep(Pair(cap, cur, running, queued, pool), Pair(cap, 1 - cur, queued, ticked, pool + 1), Event.Tick)
  {
    var x := Pair(cap, cur, running, queued, pool);
    var ticked := running.(delta := running.delta + 1);
    assert (Vruntime(queued), queued.id) in x.sched.ready;
    assert x.sched.tasks[cur := ticked] == Pair(cap, cur, ticked, queued, pool).sched.tasks;
    PutsBack(cap, cur, ticked, queued, pool);
  }

  lemma Lowers(cap: nat, cur: TaskId, running: Task, queued: Task, pool: int)
    requires cur < 2
    ensures CpuStep(Pair(cap, cur, running, queued, pool),
                    Pair(cap, cur, Renice(running, 19), queued, pool), SetPrio(19))
  {
    var x := Pair(cap, cur, running, queued, pool);
    assert x.sched.tasks[cur := Renice(running, 19)] == Pair(cap, cur, Renice(running, 19), queued, pool).sched.tasks;
  }

  lemma BothAdded(cap: nat)
    requires 2 <= cap
    ensures AddAll(2, 2, cap) ==
            Cfs(cap, map[(0, 0) := 0, (0, 1) := 1], Some(0), 2, [Task(0, 0, 0, 0), Task(0, 0, 0, 1)])
  {
    AllAdded(0, 2, cap);
    AddEntersAtZero(AddAll(0, 2, cap), 0);
    AllAdded(1, 2, cap);
    AddEntersAtZero(AddAll(1, 2, cap), 1);
    assert AddAll(2, 2, cap).tasks == [Task(0, 0, 0, 0), Task(0, 0, 0, 1)];
  }

  lemma Begins(cap: nat)
    requires 2 <= cap
    ensures CpuRun([Pair(cap, 0, Task(0, 0, 0, 0), Task(0, 0, 0, 1), 2)], [], 2, 2, cap, 19)
  {
    BothAdded(cap);
    var ready: map<Key, TaskId> := map[(0, 0) := 0, (0, 1) := 1];
    assert (0, 0) in ready && KeyLe(Least(ready), (0, 0));
    assert ready - {(0, 0)} == map[(0, 1) := 1];
  }

  lemma Extend(cpus: seq<Cpu>, events: seq<Event>, n: nat, total: nat, cap: nat, top: Nice, x: Cpu, e: Event)
    requires CpuRun(cpus, events, n, total, cap, top) && CpuStep(cpus[|events|], x, e)
    requires e.SetPrio? ==> e.prio <= top
    ensures CpuRun(cpus + [x], events + [e], n, total, cap, top)
  {
    var cpus', events' := cpus + [x], events + [e];
    forall k | 0 <= k < |events'| ensures CpuStep(cpus'[k], cpus'[k + 1], events'[k]) {
      if k < |events| {
        assert events'[k] == events[k];
      }
    }
  }

  /** The running task asks for nice 19. */
  lemma Lower(was: seq<Cpu>, before: seq<Event>, cap: nat, cur: TaskId, running: Task, queued: Task, pool: int)
    returns (cpus: seq<Cpu>, events: seq<Event>)
    requires CpuRun(was, before, 2, 2, cap, 19) && cur < 2
    requires was[|before|] == Pair(cap, cur, running, queued, pool)
    ensures CpuRun(cpus, events, 2, 2, cap, 19)
    ensures cpus[|events|] == Pair(cap, cur, Renice(running, 19), queued, pool)
  {
    Lowers(cap, cur, running, queued, pool);
    var x := Pair(cap, cur, Renice(running, 19), queued, pool);
    Extend(was, before, 2, 2, cap, 19, x, SetPrio(19));
    cpus, events := was + [x], before + [SetPrio(19)];
  }

  /** The running task gets a tick, and the other one its turn. */
  lemma Turn(was: seq<Cpu>, before: seq<Event>, cap: nat, cur: TaskId, running: Task, queued: Task, pool: int)
    returns (cpus: seq<Cpu>, events: seq<Event>)
    requires CpuRun(was, before, 2, 2, cap, 19) && cur < 2 <= cap && queued.id < pool
    requires was[|before|] == Pair(cap, cur, running, queued, pool)
    requires var ticked := running.(delta := running.delta + 1);
             0 < Vruntime(ticked) && Vruntime(queued) <= Vruntime(ticked)
    ensures CpuRun(cpus, events, 2, 2, cap, 19)
    ensures cpus[|events|] == Pair(cap, 1 - cur, queued, running.(delta := running.delta + 1, id := pool), pool + 1)
  {
    Alternates(cap, cur, running, queued, pool);
    var x := Pair(cap, 1 - cur, queued, running.(delta := running.delta + 1, id := pool), pool + 1);
    Extend(was, before, 2, 2, cap, 19, x, Event.Tick);
    cpus, events := was + [x], before + [Event.Tick];
  }

  /** The virtual runtime of a task at nice 19 that started at 0. */
  lemma AtNice19(d: nat, id: int)
    ensures Vruntime(Task(0, d, 19, id)) == d * 1024 / 15
  {
  }

  /** Two tasks at nice 19 take a tick each. */
  lemma Round(was: seq<Cpu>, before: seq<Event>, cap: nat, d: nat, id: int, pool: int)
    returns (cpus: seq<Cpu>, events: seq<Event>)
    requires CpuRun(was, before, 2, 2, cap, 19) && 2 <= cap && id + 1 < pool
    requires was[|before|] == Pair(cap, 0, Task(0, d, 19, id), Task(0, d, 19, id + 1), pool)
    ensures CpuRun(cpus, events, 2, 2, cap, 19)
    ensures cpus[|events|] == Pair(cap, 0, Task(0, d + 1, 19, pool), Task(0, d + 1, 19, pool + 1), pool + 2)
  {
    AtNice19(d, id + 1);
    AtNice19(d + 1, id);
    AtNice19(d + 1, id + 1);
    AtNice19(d + 1, pool);
    cpus, events := Turn(was, before, cap, 0, Task(0, d, 19, id), Task(0, d, 19, id + 1), pool);
    cpus, events := Turn(cpus, events, cap, 1, Task(0, d, 19, id + 1), Task(0, d + 1, 19, pool), pool + 1);
  }

  /** Both tasks ask for nice 19 and take turns; a tick comes that puts one 69 ahead. */
  lemma BoundAttained(cap: nat) returns (cpus: seq<Cpu>, events: seq<Event>)
    requires 2 <= cap
    ensures CpuRun(cpus, events, 2, 2, cap, 19)
    ensures var x := cpus[|events|];
            && Live(x, 0) && Live(x, 1) && |x.sched.tasks| == 2
            && Vruntime(x.sched.tasks[0]) == Vruntime(x.sched.tasks[1]) + MaxStep(19)
  {
    Begins(cap);
    cpus, events := [Pair(cap, 0, Task(0, 0, 0, 0), Task(0, 0, 0, 1), 2)], [];
    cpus, events := Lower(cpus, events, cap, 0, Task(0, 0, 0, 0), Task(0, 0, 0, 1), 2);
    cpus, events := Turn(cpus, events, cap, 0, Task(0, 0, 19, 0), Task(0, 0, 0, 1), 2);
    cpus, events := Lower(cpus, events, cap, 1, Task(0, 0, 0, 1), Task(0, 1, 19, 2), 3);
    cpus, events := Turn(cpus, events, cap, 1, Task(0, 0, 19, 1), Task(0, 1, 19, 2), 3);
    cpus, events := Round(cpus, events, cap, 1, 2, 4);
    cpus, events := Round(cpus, events, cap, 2, 4, 6);
    cpus, events := Turn(cpus, events, cap, 0, Task(0, 3, 19, 6), Task(0, 3, 19, 7), 8);
    assert cpus[|events|] == Pair(cap, 1, Task(0, 3, 19, 7), Task(0, 4, 19, 8), 9);
    assert cpus[|events|].sched.ready[(273, 8)] == 0;
  }
}
