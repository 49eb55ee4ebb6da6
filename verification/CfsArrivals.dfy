/** When a task may join a running fair scheduler without breaking the bound: a new task
    exactly when no live task has run further than the bound, a woken one exactly when all
    live tasks are within the bound of it. */
module CfsArrivals {
  import opened Wrappers
  import opened TaskTypes
  import opened CfsModel
  import opened CfsFairness

  /** Everything `Fair` says but how far the tasks are apart. */
  ghost predicate Sound(x: Cpu) {
    && Agreement(x.sched)
    && match x.current
       case None => x.sched.ready == map[]
       case Some(c) =>
         && c < |x.sched.tasks| && !Queued(x.sched, c) && |x.sched.ready| < x.sched.cap
  }

  /** Task `t` is neither queued nor running, and the queue has room for all live tasks
      afterwards. */
  ghost predicate MayJoin(x: Cpu, t: TaskId) {
    && t < |x.sched.tasks| && !Live(x, t)
    && |x.sched.ready| + (if x.current.Some? then 1 else 0) < x.sched.cap
  }

  /** Only new tasks are added, which have not run. */
  ghost predicate MayArrive(x: Cpu, t: TaskId) {
    MayJoin(x, t) && x.sched.tasks[t].delta == 0
  }

  /** Going on with scheduler `s`. An idle CPU takes a task at once. */
  ghost function GoOn(x: Cpu, s: Cfs): Cpu {
    if x.current.Some? then x.(sched := s) else Switch(s)
  }

  /** Task `t` is added. */
  ghost function Arrived(x: Cpu, t: TaskId): Cpu
    requires t < |x.sched.tasks|
  {
    GoOn(x, AddTask(x.sched, t))
  }

  /** Task `t` is woken: it is put back under the virtual runtime it had. */
  ghost function Woken(x: Cpu, t: TaskId): Cpu
    requires t < |x.sched.tasks|
  {
    GoOn(x, PutPrev(x.sched, t))
  }

  /** Any two live tasks are at most `bound` apart. */
  ghost predicate AllClose(x: Cpu, bound: int) {
    forall t: TaskId, u: TaskId :: Live(x, t) && Live(x, u) ==> AheadAtMost(x.sched, t, u, bound)
  }

  /** No live task has run further than `bound`. */
  ghost predicate AllBelow(x: Cpu, bound: int) {
    forall t: TaskId :: Live(x, t) ==> t < |x.sched.tasks| && Vruntime(x.sched.tasks[t]) <= bound
  }

  lemma LiveExists(x: Cpu, t: TaskId)
    requires Sound(x) && Live(x, t)
    ensures t < |x.sched.tasks| && 0 <= Vruntime(x.sched.tasks[t])
  {
    if x.current != Some(t) {
      var k :| k in x.sched.ready && x.sched.ready[k] == t;
      assert Filed(x.sched, k);
    }
    VruntimeNonNegative(x.sched.tasks[t]);
  }

  /** What an arrival changes while a task is running: one live task more, at 0. */
  lemma ArrivalAdds(x: Cpu, t: TaskId)
    requires Sound(x) && MayArrive(x, t) && x.current.Some?
    ensures var x' := Arrived(x, t);
            && Sound(x') && x'.current == x.current
            && |x'.sched.tasks| == |x.sched.tasks| && Vruntime(x'.sched.tasks[t]) == 0
            && (forall u: TaskId :: Queued(x'.sched, u) <==> Queued(x.sched, u) || u == t)
            && (forall u :: 0 <= u < |x.sched.tasks| && u != t ==> x'.sched.tasks[u] == x.sched.tasks[u])
  {
    var s' := AddedAtZero(x.sched, t);
    AddEntersAtZero(x.sched, t);
    AddedAgrees(x.sched, t);
    NotRunYet(s'.tasks[t]);
    forall u: TaskId ensures Queued(s', u) <==> Queued(x.sched, u) || u == t {
      QueuedAfter(x.sched, s', (0, x.sched.idPool), t, u);
    }
  }

  /** THE EXACT CONDITION: live tasks within `bound` of each other are so after a task was
      added if and only if none of them has run further than `bound`. */
  lemma ArrivalExact(x: Cpu, t: TaskId, bound: int)
    requires Sound(x) && MayArrive(x, t) && x.current.Some? && AllClose(x, bound) && 0 <= bound
    ensures AllClose(Arrived(x, t), bound) <==> AllBelow(x, bound)
  {
    var x' := Arrived(x, t);
    ArrivalAdds(x, t);
    assert Live(x', t);
    if AllClose(x', bound) {
      forall u: TaskId | Live(x, u) ensures u < |x.sched.tasks| && Vruntime(x.sched.tasks[u]) <= bound {
        assert Live(x', u) && AheadAtMost(x'.sched, u, t, bound);
      }
    }
    if AllBelow(x, bound) {
      forall u: TaskId, w: TaskId | Live(x', u) && Live(x', w) ensures AheadAtMost(x'.sched, u, w, bound) {
        LiveExists(x', u);
        LiveExists(x', w);
        if u != t && w != t {
          assert AheadAtMost(x.sched, u, w, bound);
        }
      }
    }
  }

  /** Every live task is within `bound` of the virtual runtime `v`. */
  ghost predicate AllNear(x: Cpu, v: int, bound: int) {
    forall u: TaskId :: Live(x, u) ==> u < |x.sched.tasks| && v - bound <= Vruntime(x.sched.tasks[u]) <= v + bound
  }

  lemma PutRuntimes(s: Cfs, t: TaskId, u: TaskId)
    requires t < |s.tasks|
    ensures |PutPrev(s, t).tasks| == |s.tasks|
    ensures u < |s.tasks| ==> Vruntime(PutPrev(s, t).tasks[u]) == Vruntime(s.tasks[u])
  {
    assert PutPrev(s, t).tasks == s.tasks[t := s.tasks[t].(id := s.idPool)];
  }

  /** Putting a task back adds it to the queue, and changes no virtual runtime. */
  lemma PutAdds(s: Cfs, t: TaskId, u: TaskId)
    requires Agreement(s) && t < |s.tasks| && !Queued(s, t) && |s.ready| < s.cap
    ensures var s' := PutPrev(s, t);
            && Agreement(s') && s'.cap == s.cap && |s'.ready| <= |s.ready| + 1
            && (Queued(s', u) <==> Queued(s, u) || u == t)
            && |s'.tasks| == |s.tasks|
            && (u < |s.tasks| ==> Vruntime(s'.tasks[u]) == Vruntime(s.tasks[u]))
  {
    var task := s.tasks[t].(id := s.idPool);
    var k := (Vruntime(task), s.idPool);
    EnqueueAgrees(s, t, task, s.minVruntime);
    QueuedAfter(s, PutPrev(s, t), k, t, u);
    PutRuntimes(s, t, u);
  }

  /** What a wakeup changes while a task is running: one live task more, and no virtual
      runtime. */
  lemma WakeAdds(x: Cpu, t: TaskId)
    requires Sound(x) && MayJoin(x, t) && x.current.Some?
    ensures var x' := Woken(x, t);
            && Sound(x') && x'.current == x.current && |x'.sched.tasks| == |x.sched.tasks|
            && (forall u: TaskId :: Queued(x'.sched, u) <==> Queued(x.sched, u) || u == t)
            && (forall u :: 0 <= u < |x.sched.tasks| ==>
                  Vruntime(x'.sched.tasks[u]) == Vruntime(x.sched.tasks[u]))
  {
    var s' := PutPrev(x.sched, t);
    PutAdds(x.sched, t, x.current.value);
    forall u: TaskId
      ensures Queued(s', u) <==> Queued(x.sched, u) || u == t
      ensures u < |s'.tasks| ==> Vruntime(s'.tasks[u]) == Vruntime(x.sched.tasks[u])
    {
      PutAdds(x.sched, t, u);
    }
  }

  /** THE EXACT CONDITION FOR WAKEUPS: live tasks within `bound` of each other are so after a
      task was woken if and only if all of them are within `bound` of that task. */
  lemma WakeExact(x: Cpu, t: TaskId, bound: int)
    requires Sound(x) && MayJoin(x, t) && x.current.Some? && AllClose(x, bound) && 0 <= bound
    ensures AllClose(Woken(x, t), bound) <==> AllNear(x, Vruntime(x.sched.tasks[t]), bound)
  {
    var x', v := Woken(x, t), Vruntime(x.sched.tasks[t]);
    WakeAdds(x, t);
    assert Live(x', t);
    if AllClose(x', bound) {
      forall u: TaskId | Live(x, u)
        ensures u < |x.sched.tasks| && v - bound <= Vruntime(x.sched.tasks[u]) <= v + bound
      {
        assert Live(x', u) && AheadAtMost(x'.sched, u, t, bound) && AheadAtMost(x'.sched, t, u, bound);
      }
    }
    if AllNear(x, v, bound) {
      forall u: TaskId, w: TaskId | Live(x', u) && Live(x', w) ensures AheadAtMost(x'.sched, u, w, bound) {
        if u != t && w != t {
          assert AheadAtMost(x.sched, u, w, bound);
        }
      }
    }
  }

  lemma SwitchLive(s: Cfs, u: TaskId)
    requires Agreement(s)
    ensures Live(Switch(s), u) <==> Queued(s, u)
  {
    if s.ready != map[] {
      SwitchTakes(s);
      var k := Least(s.ready);
      if Queued(s, u) {
        var j :| j in s.ready && s.ready[j] == u;
        if j != k {
          assert j in Switch(s).sched.ready && Switch(s).sched.ready[j] == u;
        }
      }
    }
  }

  /** Putting a task back and going on with the least changes no virtual runtime, and who is
      live not at all. */
  lemma RequeueLive(s: Cfs, c: TaskId, u: TaskId)
    requires Agreement(s) && c < |s.tasks| && !Queued(s, c) && |s.ready| < s.cap
    ensures var x := Switch(PutPrev(s, c));
            && (Live(x, u) <==> Queued(s, u) || u == c)
            && |x.sched.tasks| == |s.tasks|
            && (u < |s.tasks| ==> Vruntime(x.sched.tasks[u]) == Vruntime(s.tasks[u]))
  {
    PutAdds(s, c, u);
    SwitchLive(PutPrev(s, c), u);
  }

  /** The virtual runtime that task `u` has after the next tick. */
  function TickedVruntime(x: Cpu, u: TaskId): int
    requires u < |x.sched.tasks|
  {
    var task := x.sched.tasks[u];
    Vruntime(if x.current == Some(u) then task.(delta := task.delta + 1) else task)
  }

  /** The tick itself, before any reschedule. */
  lemma TickedTask(x: Cpu, c: TaskId, s: Cfs, u: TaskId)
    requires Sound(x) && x.current == Some(c) && s == CfsModel.Tick(x.sched, c).1
    ensures Agreement(s) && !Queued(s, c) && s.cap == x.sched.cap && s.ready == x.sched.ready
    ensures Queued(s, u) <==> Queued(x.sched, u)
    ensures |s.tasks| == |x.sched.tasks|
    ensures u < |s.tasks| ==> Vruntime(s.tasks[u]) == TickedVruntime(x, u)
  {
    UnqueuedChange(x.sched, c, s.tasks[c]);
    SameQueue(x.sched, s, c);
    SameQueue(x.sched, s, u);
  }

  /** A tick, with or without a reschedule, changes the running task's virtual runtime only,
      and who is live not at all. */
  lemma TickLive(x: Cpu, x': Cpu, u: TaskId)
    requires Sound(x) && CpuStep(x, x', Event.Tick)
    ensures Live(x', u) <==> Live(x, u)
    ensures |x'.sched.tasks| == |x.sched.tasks|
    ensures u < |x.sched.tasks| ==> Vruntime(x'.sched.tasks[u]) == TickedVruntime(x, u)
  {
    var c := x.current.value;
    var (again, s) := CfsModel.Tick(x.sched, c);
    TickedTask(x, c, s, u);
    if again {
      RequeueLive(s, c, u);
    }
  }

  /** After the next tick no live task has run further than `bound`. */
  ghost predicate BelowAfterTick(x: Cpu, bound: int) {
    forall u: TaskId :: Live(x, u) ==> u < |x.sched.tasks| && TickedVruntime(x, u) <= bound
  }

  /** The exact condition for the bound to outlive the arrival and the tick after it. */
  lemma ArrivalThenTickExact(x: Cpu, t: TaskId, bound: int, x': Cpu)
    requires Sound(x) && MayArrive(x, t) && x.current.Some? && 0 <= bound
    requires CpuStep(Arrived(x, t), x', Event.Tick)
    ensures AllClose(x', bound) <==> BelowAfterTick(x, bound)
  {
    var x1 := Arrived(x, t);
    if AllClose(x', bound) {
      forall u: TaskId | Live(x, u) ensures u < |x.sched.tasks| && TickedVruntime(x, u) <= bound {
        TickedAfterArrival(x, x1, x', t, u);
        TickedAfterArrival(x, x1, x', t, t);
        assert AheadAtMost(x'.sched, u, t, bound);
      }
    }
    if BelowAfterTick(x, bound) {
      forall u: TaskId, w: TaskId | Live(x', u) && Live(x', w) ensures AheadAtMost(x'.sched, u, w, bound) {
        TickedAfterArrival(x, x1, x', t, u);
        TickedAfterArrival(x, x1, x', t, w);
      }
    }
  }

  /** After the arrival and a tick the new task is at 0, and the others where their own next
      tick would have brought them. */
  lemma TickedAfterArrival(x: Cpu, x1: Cpu, x': Cpu, t: TaskId, u: TaskId)
    requires Sound(x) && MayArrive(x, t) && x.current.Some?
    requires x1 == Arrived(x, t) && CpuStep(x1, x', Event.Tick)
    ensures Live(x', u) <==> Live(x, u) || u == t
    ensures Live(x', u) ==>
              && u < |x'.sched.tasks| == |x.sched.tasks|
              && 0 <= Vruntime(x'.sched.tasks[u]) == if u == t then 0 else TickedVruntime(x, u)
  {
    ArrivalAdds(x, t);
    ArrivalTicked(x, x1, t, u);
    TickLive(x1, x', u);
    if Live(x1, u) {
      LiveExists(x1, u);
      TickedNonNegative(x1, u);
    }
  }

  /** An arrival does not touch what the next tick will do to the others. */
  lemma ArrivalTicked(x: Cpu, x1: Cpu, t: TaskId, u: TaskId)
    requires t < |x.sched.tasks| == |x1.sched.tasks| && x1.current == x.current && x.current != Some(t)
    requires Vruntime(x1.sched.tasks[t]) == 0
    requires forall w :: 0 <= w < |x.sched.tasks| && w != t ==> x1.sched.tasks[w] == x.sched.tasks[w]
    ensures u < |x.sched.tasks| ==> TickedVruntime(x1, u) == if u == t then 0 else TickedVruntime(x, u)
  {
  }

  lemma TickedNonNegative(x: Cpu, u: TaskId)
    requires Agreement(x.sched) && u < |x.sched.tasks|
    ensures 0 <= TickedVruntime(x, u)
    ensures x.current != Some(u) ==> TickedVruntime(x, u) == Vruntime(x.sched.tasks[u])
  {
    var task := x.sched.tasks[u];
    VruntimeNonNegative(task);
    VruntimeNonNegative(task.(delta := task.delta + 1));
  }

  /** Events of one CPU, joining tasks included. `Elsewhere`: other CPUs work on a task that
      is not live here. */
  datatype Happening = Own(e: Event) | Arrive(t: TaskId) | Wake(t: TaskId) | Elsewhere(t: TaskId, task: Task)

  ghost predicate Happens(x: Cpu, x': Cpu, h: Happening) {
    match h
    case Own(e) => CpuStep(x, x', e)
    case Arrive(t) => MayArrive(x, t) && x' == Arrived(x, t)
    case Wake(t) => MayJoin(x, t) && x' == Woken(x, t)
    case Elsewhere(t, task) =>
      && t < |x.sched.tasks| && !Live(x, t) && 0 <= task.initVruntime && 0 <= task.delta
      && x' == x.(sched := x.sched.(tasks := x.sched.tasks[t := task]))
  }

  /** Who is live after something happened. */
  ghost predicate LiveAfter(x: Cpu, h: Happening, u: TaskId) {
    match h
    case Own(e) => Live(x, u) && !(e.Leave? && x.current == Some(u))
    case Arrive(t) => Live(x, u) || u == t
    case Wake(t) => Live(x, u) || u == t
    case Elsewhere(_, _) => Live(x, u)
  }

  /** NOBODY IS LOST: a task is live until it leaves, and comes back only by joining. */
  lemma LiveExactly(x: Cpu, x': Cpu, h: Happening, u: TaskId)
    requires Sound(x) && Happens(x, x', h)
    ensures Live(x', u) <==> LiveAfter(x, h, u)
  {
    match h
    case Own(e) => OwnLive(x, x', e, u);
    case Arrive(t) => ArrivalLive(x, t, u);
    case Wake(t) => WakeLive(x, t, u);
    case Elsewhere(t, _) => SameQueue(x.sched, x'.sched, u);
  }

  lemma OwnLive(x: Cpu, x': Cpu, e: Event, u: TaskId)
    requires Sound(x) && CpuStep(x, x', e)
    ensures Live(x', u) <==> Live(x, u) && !(e.Leave? && x.current == Some(u))
  {
    match e
    case Tick => TickLive(x, x', u);
    case Yield => RequeueLive(x.sched, x.current.value, u);
    case Leave => SwitchLive(x.sched, u);
    case SetPrio(prio) => SameQueue(x.sched, x'.sched, u);
  }

  lemma ArrivalLive(x: Cpu, t: TaskId, u: TaskId)
    requires Sound(x) && MayArrive(x, t)
    ensures Live(Arrived(x, t), u) <==> Live(x, u) || u == t
  {
    AddEntersAtZero(x.sched, t);
    AddedAgrees(x.sched, t);
    var s' := AddedAtZero(x.sched, t);
    QueuedAfter(x.sched, s', (0, x.sched.idPool), t, u);
    SwitchLive(s', u);
  }

  lemma WakeLive(x: Cpu, t: TaskId, u: TaskId)
    requires Sound(x) && MayJoin(x, t)
    ensures Live(Woken(x, t), u) <==> Live(x, u) || u == t
  {
    PutAdds(x.sched, t, u);
    SwitchLive(PutPrev(x.sched, t), u);
  }

  /** What a caller checks before a task with virtual runtime `v` joins: every live task is
      within `bound` of it, the running one with what it can gain in a tick to spare. */
  ghost predicate RoomToJoin(x: Cpu, v: int, bound: int, step: int) {
    && (x.current.Some? && x.current.value < |x.sched.tasks| ==>
          v - bound <= Vruntime(x.sched.tasks[x.current.value]) <= v + bound - step)
    && forall u: TaskId :: Queued(x.sched, u) ==>
         u < |x.sched.tasks| && v - bound <= Vruntime(x.sched.tasks[u]) <= v + bound
  }

  function Ticked(t: Task): Task {
    t.(delta := t.delta + 1)
  }

  /** With nice values up to `top` a tick moves a virtual runtime up, by at most `step`. */
  ghost predicate TicksAtMost(top: Nice, step: int) {
    && 0 <= step
    && forall t: Task {:trigger Ticked(t)} :: 0 <= t.delta && t.nice <= top ==>
         Vruntime(t) <= Vruntime(Ticked(t)) <= Vruntime(t) + step
  }

  lemma MaxStepHolds(top: Nice)
    ensures TicksAtMost(top, MaxStep(top))
  {
    StepAtMost69(top);
    forall t: Task {:trigger Ticked(t)} | 0 <= t.delta && t.nice <= top
      ensures Vruntime(t) <= Vruntime(Ticked(t)) <= Vruntime(t) + MaxStep(top)
    {
      TickStep(t, top);
    }
  }

  /** A run in which tasks may be added and woken at any time, each time after that check. */
  ghost predicate OpenRun(cpus: seq<Cpu>, hs: seq<Happening>, n: nat, total: nat, cap: nat, top: Nice, bound: int) {
    && n <= total && n <= cap
    && AllHappen(cpus, hs, top, bound)
    && cpus[0] == Switch(AddAll(n, total, cap))
  }

  ghost predicate AllHappen(cpus: seq<Cpu>, hs: seq<Happening>, top: Nice, bound: int) {
    |cpus| == |hs| + 1 && forall k :: 0 <= k < |hs| ==> HappensAt(cpus, hs, k, top, bound)
  }

  ghost predicate HappensAt(cpus: seq<Cpu>, hs: seq<Happening>, k: nat, top: Nice, bound: int) {
    && k < |hs| < |cpus|
    && Happens(cpus[k], cpus[k + 1], hs[k])
    && Checked(cpus[k], hs[k], top, bound, MaxStep(top))
  }

  /** The check, and `top` bounds the nice values. A new task joins at 0. */
  ghost predicate Checked(x: Cpu, h: Happening, top: Nice, bound: int, step: int) {
    match h
    case Own(e) => e.SetPrio? ==> e.prio <= top
    case Arrive(_) => RoomToJoin(x, 0, bound, step)
    case Wake(t) => t < |x.sched.tasks| && RoomToJoin(x, Vruntime(x.sched.tasks[t]), bound, step)
    case Elsewhere(_, task) => task.nice <= top
  }

  /** All live tasks lie in a window of `bound` above `low`, and the running one has a tick's
      worth of room left in it. */
  ghost predicate InWindow(x: Cpu, low: int, bound: int, step: int) {
    && Sound(x)
    && (x.current.Some? ==>
          && low <= Vruntime(x.sched.tasks[x.current.value])
          && Vruntime(x.sched.tasks[x.current.value]) + step <= low + bound
          && forall u: TaskId :: Queued(x.sched, u) ==> Within(x.sched, u, low, bound))
  }

  /** The least running task leaves room enough. */
  lemma FairInWindow(x: Cpu, bound: int, step: int) returns (low: int)
    requires Fair(x, bound) && 0 <= step <= bound
    ensures InWindow(x, low, bound, step)
  {
    low := if x.current.Some? then Vruntime(x.sched.tasks[x.current.value]) else 0;
  }

  lemma WindowClose(x: Cpu, low: int, bound: int, step: int)
    requires InWindow(x, low, bound, step) && 0 <= step
    ensures AllClose(x, bound)
  {
    forall t: TaskId | Live(x, t) ensures Within(x.sched, t, low, bound) {
      LiveExists(x, t);
      if x.current.None? {
        assert false;
      }
    }
  }

  /** After the tick itself all live tasks are still in the window. */
  lemma TickedWindow(x: Cpu, s: Cfs, low: int, bound: int, step: int, top: Nice)
    requires InWindow(x, low, bound, step) && NiceAtMost(x.sched, top) && TicksAtMost(top, step) && x.current.Some?
    requires s == CfsModel.Tick(x.sched, x.current.value).1
    ensures Agreement(s) && !Queued(s, x.current.value)
    ensures Vruntime(x.sched.tasks[x.current.value]) <= Vruntime(s.tasks[x.current.value])
    ensures Within(s, x.current.value, low, bound)
    ensures forall t: TaskId :: Queued(s, t) ==> Within(s, t, low, bound)
  {
    var c := x.current.value;
    assert s.tasks[c] == Ticked(x.sched.tasks[c]);
    UnqueuedChange(x.sched, c, s.tasks[c]);
    SameQueue(x.sched, s, c);
    forall t: TaskId | Queued(s, t) ensures Within(s, t, low, bound) {
      SameQueue(x.sched, s, t);
      assert Within(x.sched, t, low, bound);
    }
  }

  lemma TickInWindow(x: Cpu, x': Cpu, low: int, bound: int, step: int, top: Nice) returns (low': int)
    requires InWindow(x, low, bound, step) && 0 <= step <= bound && NiceAtMost(x.sched, top)
    requires CpuStep(x, x', Event.Tick) && TicksAtMost(top, step)
    ensures InWindow(x', low', bound, step)
  {
    var (again, s) := CfsModel.Tick(x.sched, x.current.value);
    TickedWindow(x, s, low, bound, step, top);
    if again {
      PutSwitchFair(s, x.current.value, low, bound);
      low' := FairInWindow(x', bound, step);
    } else {
      low' := StayInWindow(x, s, low, bound, step);
    }
  }

  /** Without a reschedule nothing is queued, or the running task is still at 0. */
  lemma StayInWindow(x: Cpu, s: Cfs, low: int, bound: int, step: int) returns (low': int)
    requires InWindow(x, low, bound, step) && 0 <= step <= bound && x.current.Some?
    requires CfsModel.Tick(x.sched, x.current.value) == (false, s) && Agreement(s) && !Queued(s, x.current.value)
    requires Vruntime(x.sched.tasks[x.current.value]) <= Vruntime(s.tasks[x.current.value])
    requires forall t: TaskId :: Queued(s, t) ==> Within(s, t, low, bound)
    ensures InWindow(x.(sched := s), low', bound, step)
  {
    var c := x.current.value;
    VruntimeNonNegative(x.sched.tasks[c]);
    if s.ready == map[] {
      low' := Vruntime(s.tasks[c]);
      assert forall t: TaskId :: !Queued(s, t);
    } else {
      low' := low;
    }
  }

  lemma PriorityInWindow(x: Cpu, x': Cpu, prio: int, low: int, bound: int, step: int)
    requires InWindow(x, low, bound, step) && CpuStep(x, x', SetPrio(prio))
    ensures InWindow(x', low, bound, step)
  {
    var c := x.current.value;
    PriorityAgrees(x.sched, c, prio);
    SameQueue(x.sched, x'.sched, c);
    forall t: TaskId | Queued(x'.sched, t) ensures Within(x'.sched, t, low, bound) {
      SameQueue(x.sched, x'.sched, t);
      assert Within(x.sched, t, low, bound);
    }
  }

  lemma OwnInWindow(x: Cpu, x': Cpu, e: Event, low: int, bound: int, step: int, top: Nice) returns (low': int)
    requires InWindow(x, low, bound, step) && 0 <= step <= bound && NiceAtMost(x.sched, top)
    requires CpuStep(x, x', e) && TicksAtMost(top, step)
    ensures InWindow(x', low', bound, step)
  {
    match e
    case Tick => low' := TickInWindow(x, x', low, bound, step, top);
    case Yield =>
      PutSwitchFair(x.sched, x.current.value, low, bound);
      low' := FairInWindow(x', bound, step);
    case Leave =>
      SwitchFair(x.sched, low, bound);
      low' := FairInWindow(x', bound, step);
    case SetPrio(prio) =>
      PriorityInWindow(x, x', prio, low, bound, step);
      low' := low;
  }

  /** Task `t` has joined the live ones on a busy CPU. */
  ghost predicate Joins(x: Cpu, x': Cpu, t: TaskId) {
    && x.current.Some? && x'.current == x.current && t < |x.sched.tasks| == |x'.sched.tasks| && !Live(x, t)
    && (forall u: TaskId :: Queued(x'.sched, u) <==> Queued(x.sched, u) || u == t)
    && forall u :: 0 <= u < |x.sched.tasks| && u != t ==>
         Vruntime(x'.sched.tasks[u]) == Vruntime(x.sched.tasks[u])
  }

  /** A task that joins behind the window moves it down; one ahead of it moves it up as far as
      needed. */
  lemma JoinInWindow(x: Cpu, x': Cpu, t: TaskId, low: int, bound: int, step: int) returns (low': int)
    requires InWindow(x, low, bound, step) && Sound(x') && Joins(x, x', t) && 0 <= step <= bound
    requires RoomToJoin(x, Vruntime(x'.sched.tasks[t]), bound, step)
    ensures InWindow(x', low', bound, step)
  {
    var v := Vruntime(x'.sched.tasks[t]);
    low' := if v < low then v else if low < v - bound then v - bound else low;
    forall u: TaskId | Queued(x'.sched, u) ensures Within(x'.sched, u, low', bound) {
      if u != t {
        assert Within(x.sched, u, low, bound);
      }
    }
  }

  /** An idle CPU has nothing live but the task that joins. */
  lemma IdleJoin(x: Cpu, s: Cfs, k: Key, t: TaskId, bound: int)
    requires Sound(x) && x.current.None? && Agreement(s) && s.ready == x.sched.ready[k := t]
    requires t < |s.tasks| && 0 <= bound
    ensures Fair(Switch(s), bound)
  {
    forall u: TaskId | Queued(s, u) ensures Within(s, u, Vruntime(s.tasks[t]), bound) {
      QueuedAfter(x.sched, s, k, t, u);
    }
    SwitchFair(s, Vruntime(s.tasks[t]), bound);
  }

  lemma ArrivalInWindow(x: Cpu, t: TaskId, low: int, bound: int, step: int) returns (low': int)
    requires InWindow(x, low, bound, step) && MayArrive(x, t) && RoomToJoin(x, 0, bound, step) && 0 <= step <= bound
    ensures InWindow(Arrived(x, t), low', bound, step)
  {
    if x.current.Some? {
      ArrivalAdds(x, t);
      low' := JoinInWindow(x, Arrived(x, t), t, low, bound, step);
    } else {
      AddEntersAtZero(x.sched, t);
      AddedAgrees(x.sched, t);
      IdleJoin(x, AddedAtZero(x.sched, t), (0, x.sched.idPool), t, bound);
      low' := FairInWindow(Arrived(x, t), bound, step);
    }
  }

  lemma WakeInWindow(x: Cpu, t: TaskId, low: int, bound: int, step: int) returns (low': int)
    requires InWindow(x, low, bound, step) && MayJoin(x, t) && 0 <= step <= bound
    requires RoomToJoin(x, Vruntime(x.sched.tasks[t]), bound, step)
    ensures InWindow(Woken(x, t), low', bound, step)
  {
    if x.current.Some? {
      WakeAdds(x, t);
      low' := JoinInWindow(x, Woken(x, t), t, low, bound, step);
    } else {
      var task := x.sched.tasks[t].(id := x.sched.idPool);
      EnqueueAgrees(x.sched, t, task, x.sched.minVruntime);
      IdleJoin(x, PutPrev(x.sched, t), (Vruntime(task), x.sched.idPool), t, bound);
      low' := FairInWindow(Woken(x, t), bound, step);
    }
  }

  /** What other CPUs do to a task that is not live here does not matter. */
  lemma ElsewhereInWindow(x: Cpu, x': Cpu, t: TaskId, task: Task, low: int, bound: int, step: int)
    requires InWindow(x, low, bound, step) && Happens(x, x', Happening.Elsewhere(t, task))
    ensures InWindow(x', low, bound, step)
  {
    UnqueuedChange(x.sched, t, task);
    if x.current.Some? {
      SameQueue(x.sched, x'.sched, x.current.value);
      forall u: TaskId | Queued(x'.sched, u) ensures Within(x'.sched, u, low, bound) {
        SameQueue(x.sched, x'.sched, u);
        assert Within(x.sched, u, low, bound);
      }
    }
  }

  lemma HappeningInWindow(x: Cpu, x': Cpu, h: Happening, low: int, bound: int, step: int, top: Nice)
    returns (low': int)
    requires InWindow(x, low, bound, step) && 0 <= step <= bound && NiceAtMost(x.sched, top)
    requires Happens(x, x', h) && TicksAtMost(top, step) && Checked(x, h, top, bound, step)
    ensures InWindow(x', low', bound, step)
  {
    match h
    case Own(e) => low' := OwnInWindow(x, x', e, low, bound, step, top);
    case Arrive(t) => low' := ArrivalInWindow(x, t, low, bound, step);
    case Wake(t) => low' := WakeInWindow(x, t, low, bound, step);
    case Elsewhere(t, task) =>
      ElsewhereInWindow(x, x', t, task, low, bound, step);
      low' := low;
  }

  lemma HappeningNice(x: Cpu, x': Cpu, h: Happening, top: Nice)
    requires Sound(x) && NiceAtMost(x.sched, top) && Happens(x, x', h)
    requires h.Own? && h.e.SetPrio? ==> h.e.prio <= top
    requires h.Elsewhere? ==> h.task.nice <= top
    ensures NiceAtMost(x'.sched, top) && |x'.sched.tasks| == |x.sched.tasks|
  {
    match h
    case Own(e) => StepNice(x, x', e, top);
    case Arrive(t) => AddEntersAtZero(x.sched, t);
    case Wake(t) =>
    case Elsewhere(t, task) =>
  }

  lemma StartInWindow(x: Cpu, n: nat, total: nat, cap: nat, top: Nice, bound: int, step: int) returns (low: int)
    requires 0 <= top && 0 <= step <= bound && n <= total && n <= cap && x == Switch(AddAll(n, total, cap))
    ensures InWindow(x, low, bound, step) && NiceAtMost(x.sched, top)
  {
    AllAdded(n, total, cap);
    var s := AddAll(n, total, cap);
    NewTasksFair(s, n, top);
    FairWider(x, 0, bound);
    low := FairInWindow(x, bound, step);
  }

  /** At the start all virtual runtimes are the same. */
  lemma NewTasksFair(s: Cfs, n: nat, top: Nice)
    requires Added(s, n) && 0 <= top
    ensures Fair(Switch(s), 0) && NiceAtMost(Switch(s).sched, top)
  {
    if 0 < n {
      forall t: TaskId | Queued(s, t) ensures Within(s, t, 0, 0) {
        assert s.tasks[t].(id := 0) == NEW_TASK;
      }
      SwitchFair(s, 0, 0);
    }
    forall t | 0 <= t < |s.tasks| ensures s.tasks[t].nice <= top {
      assert s.tasks[t].(id := 0) == NEW_TASK;
    }
  }

  lemma FairWider(x: Cpu, a: int, b: int)
    requires Fair(x, a) && a <= b
    ensures Fair(x, b)
  {
    if x.current.Some? {
      var low := Vruntime(x.sched.tasks[x.current.value]);
      forall t: TaskId | Queued(x.sched, t) ensures Within(x.sched, t, low, b) {
        assert Within(x.sched, t, low, a);
      }
    }
  }

  /** The invariant of a run that tasks may join. */
  ghost predicate Windowed(x: Cpu, low: int, bound: int, top: Nice, total: nat) {
    InWindow(x, low, bound, MaxStep(top)) && NiceAtMost(x.sched, top) && |x.sched.tasks| == total
  }

  lemma HappeningWindowed(x: Cpu, x': Cpu, h: Happening, low: int, bound: int, top: Nice, total: nat)
    returns (low': int)
    requires Windowed(x, low, bound, top, total) && Happens(x, x', h) && MaxStep(top) <= bound
    requires Checked(x, h, top, bound, MaxStep(top))
    ensures Windowed(x', low', bound, top, total)
  {
    MaxStepHolds(top);
    low' := HappeningInWindow(x, x', h, low, bound, MaxStep(top), top);
    HappeningNice(x, x', h, top);
  }

  lemma NextWindowed(cpus: seq<Cpu>, hs: seq<Happening>, low: int, bound: int, top: Nice, total: nat, k: nat)
    returns (low': int)
    requires 0 < k <= |hs| && AllHappen(cpus, hs, top, bound) && MaxStep(top) <= bound
    requires Windowed(cpus[k - 1], low, bound, top, total)
    ensures Windowed(cpus[k], low', bound, top, total)
  {
    assert HappensAt(cpus, hs, k - 1, top, bound);
    low' := HappeningWindowed(cpus[k - 1], cpus[k], hs[k - 1], low, bound, top, total);
  }

  lemma {:induction false} StaysWindowed(cpus: seq<Cpu>, hs: seq<Happening>, low: int, bound: int, top: Nice,
                                         total: nat, i: nat, k: nat) returns (low': int)
    requires i <= k <= |hs| && AllHappen(cpus, hs, top, bound) && MaxStep(top) <= bound
    requires Windowed(cpus[i], low, bound, top, total)
    ensures Windowed(cpus[k], low', bound, top, total)
    decreases k - i
  {
    if i == k {
      low' := low;
    } else {
      low' := NextWindowed(cpus, hs, low, bound, top, total, i + 1);
      low' := StaysWindowed(cpus, hs, low', bound, top, total, i + 1, k);
    }
  }

  lemma RunWindowed(cpus: seq<Cpu>, hs: seq<Happening>, n: nat, total: nat, cap: nat, top: Nice, bound: int, k: nat)
    returns (low: int)
    requires 0 <= top && MaxStep(top) <= bound && k <= |hs|
    requires OpenRun(cpus, hs, n, total, cap, top, bound)
    ensures Windowed(cpus[k], low, bound, top, total)
  {
    StepAtMost69(top);
    AllAdded(n, total, cap);
    low := StartInWindow(cpus[0], n, total, cap, top, bound, MaxStep(top));
    low := StaysWindowed(cpus, hs, low, bound, top, total, 0, k);
  }

  /** FAIRNESS WITH JOINING TASKS: in a run in which every late task is added, and every
      blocked one woken, after the check, any two live tasks are within the bound at every
      point. */
  lemma OpenFairness(cpus: seq<Cpu>, hs: seq<Happening>, n: nat, total: nat, cap: nat, top: Nice, bound: int, k: nat)
    requires 0 <= top && MaxStep(top) <= bound && k <= |hs|
    requires OpenRun(cpus, hs, n, total, cap, top, bound)
    ensures AllClose(cpus[k], bound)
  {
    StepAtMost69(top);
    var low := RunWindowed(cpus, hs, n, total, cap, top, bound, k);
    WindowClose(cpus[k], low, bound, MaxStep(top));
  }
}
