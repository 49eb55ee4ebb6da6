/** How far apart the completely fair scheduler lets virtual runtimes drift on one CPU. */
module CfsFairness {
  import opened Wrappers
  import opened TaskTypes
  import opened CfsModel

  /** One CPU: its scheduler and the task it runs. */
  datatype Cpu = Cpu(sched: Cfs, current: Option<TaskId>)

  /** What the running task does. `Leave`: it blocks or exits. */
  datatype Event = Tick | Yield | Leave | SetPrio(prio: int)

  ghost predicate Live(x: Cpu, t: TaskId) {
    x.current == Some(t) || Queued(x.sched, t)
  }

  /** Take the next task from the queue. */
  ghost function Switch(s: Cfs): Cpu {
    Cpu(PickNext(s).1, PickNext(s).0)
  }

  /** A tick that asks for it is followed by a reschedule. */
  ghost predicate CpuStep(x: Cpu, x': Cpu, e: Event) {
    && x.current.Some? && x.current.value < |x.sched.tasks|
    && var c := x.current.value;
       match e
       case Tick =>
         var (again, s) := CfsModel.Tick(x.sched, c);
         x' == if again then Switch(PutPrev(s, c)) else x.(sched := s)
       case Yield => x' == Switch(PutPrev(x.sched, c))
       case Leave => x' == Switch(x.sched)
       case SetPrio(prio) => x' == x.(sched := SetPriority(x.sched, c, prio).1)
  }

  /** A new scheduler to which the first `n` of `total` new tasks were added. */
  ghost function AddAll(n: nat, total: nat, cap: nat): (s: Cfs)
    requires n <= total
    ensures |s.tasks| == total
  {
    if n == 0 then Cfs(cap, map[], None, 0, seq(total, _ => NEW_TASK))
    else AddTask(AddAll(n - 1, total, cap), n - 1)
  }

  /** A run with `n` tasks added up front, all of which fit the queue; `top` bounds the
      nice values asked for. */
  ghost predicate CpuRun(cpus: seq<Cpu>, events: seq<Event>, n: nat, total: nat, cap: nat, top: Nice) {
    && |cpus| == |events| + 1
    && n <= total && n <= cap
    && cpus[0] == Switch(AddAll(n, total, cap))
    && (forall k :: 0 <= k < |events| && events[k].SetPrio? ==> events[k].prio <= top)
    && forall k {:trigger events[k]} :: 0 <= k < |events| ==> CpuStep(cpus[k], cpus[k + 1], events[k])
  }

  /** The most a virtual runtime can grow in one tick at nice `top`: 1024 over the weight,
      rounded up. */
  function MaxStep(top: Nice): int {
    (1024 + Weight(top) - 1) / Weight(top)
  }

  lemma MaxSteps()
    ensures MaxStep(0) == 1 && MaxStep(19) == 69
  {
  }

  lemma WeightFalls(nice: Nice)
    requires nice < 19
    ensures Weight(nice) > Weight(nice + 1)
  {
  }

  lemma {:induction false} WeightAntitone(nice: Nice, top: Nice)
    requires nice <= top
    ensures Weight(top) <= Weight(nice)
    decreases top - nice
  {
    if nice == top {
    } else {
      WeightFalls(nice);
      WeightAntitone(nice + 1, top);
    }
  }

  lemma DivBounds(a: nat, w: int)
    requires 0 < w
    ensures a / w * w <= a < (a / w + 1) * w
  {
    assert a == a / w * w + a % w;
    assert (a / w + 1) * w == a / w * w + w;
  }

  lemma Cancel(x: int, y: int, w: int)
    requires 0 < w && x * w < y * w
    ensures x < y
  {
  }

  lemma Distribute(x: int, y: int, w: int)
    ensures (x + y) * w == x * w + y * w
  {
  }

  lemma WeightedStep(d: nat, w: int, v: int)
    requires 0 < v <= w
    ensures d * 1024 / w <= (d + 1) * 1024 / w <= d * 1024 / w + (1024 + v - 1) / v
  {
    var a, q, r, c := d * 1024, d * 1024 / w, (d + 1) * 1024 / w, (1024 + v - 1) / v;
    DivBounds(a, w);
    DivBounds(a + 1024, w);
    DivBounds(1024 + v - 1, v);
    Distribute(c, 1, v);
    Distribute(v, w - v, c);
    assert 0 <= (w - v) * c;
    assert 1024 <= c * w;
    Distribute(q + 1, c, w);
    Cancel(r, q + 1 + c, w);
    Cancel(q, r + 1, w);
  }

  /** One tick moves a virtual runtime up by at most `MaxStep`. */
  lemma TickStep(t: Task, top: Nice)
    requires 0 <= t.delta && t.nice <= top
    ensures Vruntime(t) <= Vruntime(t.(delta := t.delta + 1)) <= Vruntime(t) + MaxStep(top)
  {
    WeightAntitone(t.nice, top);
    WeightedStep(t.delta, Weight(t.nice), Weight(top));
    if t.nice == 0 {
      WeightedStep(t.delta, 1024, Weight(top));
    }
  }

  /** Task `t` lies in the window of `bound` above `low`. */
  predicate Within(s: Cfs, t: TaskId, low: int, bound: int) {
    t < |s.tasks| && low <= Vruntime(s.tasks[t]) <= low + bound
  }

  ghost predicate NiceAtMost(s: Cfs, top: Nice) {
    forall t :: 0 <= t < |s.tasks| ==> s.tasks[t].nice <= top
  }

  /** The current task has the least virtual runtime, and no live one is more than `bound`
      above it. */
  ghost predicate Fair(x: Cpu, bound: int) {
    && Agreement(x.sched)
    && match x.current
       case None => x.sched.ready == map[]
       case Some(c) =>
         && c < |x.sched.tasks| && !Queued(x.sched, c) && |x.sched.ready| < x.sched.cap
         && forall t: TaskId :: Queued(x.sched, t) ==> Within(x.sched, t, Vruntime(x.sched.tasks[c]), bound)
  }

  lemma SwitchTakes(s: Cfs)
    requires s.ready != map[]
    ensures var x := Switch(s);
            && x.sched == s.(ready := x.sched.ready)
            && x.current.Some? && Queued(s, x.current.value)
            && |s.ready| == |x.sched.ready| + 1
            && (forall t: TaskId :: Queued(x.sched, t) ==> Queued(s, t))
  {
    var k := Least(s.ready);
    var rest := s.ready - {k};
    assert s.ready == rest[k := s.ready[k]];
    assert s.ready[k] == Switch(s).current.value;
  }

  lemma SwitchFair(s: Cfs, low: int, bound: int)
    requires Agreement(s)
    requires forall t: TaskId :: Queued(s, t) ==> Within(s, t, low, bound)
    ensures Fair(Switch(s), bound)
  {
    PickAgrees(s);
    if s.ready != map[] {
      SwitchTakes(s);
      var x := Switch(s);
      var c := x.current.value;
      PickIsLeast(s, c, c);
      assert Within(s, c, low, bound);
      forall t: TaskId | Queued(x.sched, t) ensures Within(x.sched, t, Vruntime(s.tasks[c]), bound) {
        assert Within(s, t, low, bound);
        PickIsLeast(s, c, t);
      }
    }
  }

  /** Putting the current task back, and going on with the least. */
  lemma PutSwitchFair(s: Cfs, c: TaskId, low: int, bound: int)
    requires Agreement(s) && c < |s.tasks| && !Queued(s, c) && |s.ready| < s.cap
    requires Within(s, c, low, bound)
    requires forall t: TaskId :: Queued(s, t) ==> Within(s, t, low, bound)
    ensures Fair(Switch(PutPrev(s, c)), bound)
  {
    EnqueueAgrees(s, c, s.tasks[c].(id := s.idPool), s.minVruntime);
    var s' := PutPrev(s, c);
    forall t: TaskId | Queued(s', t) ensures Within(s', t, low, bound) {
      if t != c {
        var k :| k in s'.ready && s'.ready[k] == t;
        assert k in s.ready;
        assert Queued(s, t);
      }
      assert Within(s, t, low, bound);
    }
    SwitchFair(s', low, bound);
  }

  /** Whether a task is queued depends on the queue alone. */
  lemma SameQueue(s: Cfs, s': Cfs, t: TaskId)
    requires s'.ready == s.ready
    ensures Queued(s', t) <==> Queued(s, t)
  {
    if k :| k in s.ready && s.ready[k] == t {
      assert s'.ready[k] == t;
    }
  }

  /** A tick moves nothing but the running task, and that by one tick's worth. */
  lemma TickMoves(s: Cfs, c: TaskId, t: TaskId, top: Nice)
    requires Agreement(s) && c < |s.tasks| && !Queued(s, c) && s.tasks[c].nice <= top
    requires t == c || (Queued(s, t) && Within(s, t, Vruntime(s.tasks[c]), MaxStep(top)))
    ensures Within(CfsModel.Tick(s, c).1, t, Vruntime(s.tasks[c]), MaxStep(top))
  {
    TickStep(s.tasks[c], top);
  }

  lemma TickFair(x: Cpu, x': Cpu, top: Nice)
    requires Fair(x, MaxStep(top)) && NiceAtMost(x.sched, top) && CpuStep(x, x', Tick)
    ensures Fair(x', MaxStep(top))
  {
    var c := x.current.value;
    var low := Vruntime(x.sched.tasks[c]);
    var (again, s) := CfsModel.Tick(x.sched, c);
    UnqueuedChange(x.sched, c, s.tasks[c]);
    SameQueue(x.sched, s, c);
    TickMoves(x.sched, c, c, top);
    forall t: TaskId | Queued(s, t) ensures Within(s, t, low, MaxStep(top)) {
      SameQueue(x.sched, s, t);
      assert Within(x.sched, t, low, MaxStep(top));
      TickMoves(x.sched, c, t, top);
    }
    if again {
      PutSwitchFair(s, c, low, MaxStep(top));
    } else {
      StayFair(x.sched, s, c, top);
    }
  }

  /** Without a reschedule nothing is queued, or the running task is still at 0. */
  lemma StayFair(s: Cfs, s': Cfs, c: TaskId, top: Nice)
    requires Agreement(s) && c < |s.tasks|
    requires CfsModel.Tick(s, c) == (false, s') && Agreement(s')
    requires Vruntime(s.tasks[c]) <= Vruntime(s'.tasks[c])
    requires forall t: TaskId :: Queued(s', t) ==> Within(s', t, Vruntime(s.tasks[c]), MaxStep(top))
    ensures forall t: TaskId :: Queued(s', t) ==> Within(s', t, Vruntime(s'.tasks[c]), MaxStep(top))
  {
    VruntimeNonNegative(s.tasks[c]);
    if s'.ready == map[] {
      assert forall t: TaskId :: !Queued(s', t);
    } else {
      assert Vruntime(s'.tasks[c]) == Vruntime(s.tasks[c]);
    }
  }

  lemma PriorityFair(x: Cpu, x': Cpu, prio: int, bound: int)
    requires Fair(x, bound) && CpuStep(x, x', SetPrio(prio))
    ensures Fair(x', bound)
  {
    var c := x.current.value;
    PriorityAgrees(x.sched, c, prio);
    assert forall t: TaskId :: Queued(x'.sched, t) <==> Queued(x.sched, t);
    forall t: TaskId | Queued(x'.sched, t)
      ensures Within(x'.sched, t, Vruntime(x'.sched.tasks[c]), bound)
    {
      assert Within(x.sched, t, Vruntime(x.sched.tasks[c]), bound);
    }
  }

  lemma StepFair(x: Cpu, x': Cpu, e: Event, top: Nice)
    requires Fair(x, MaxStep(top)) && NiceAtMost(x.sched, top) && CpuStep(x, x', e)
    ensures Fair(x', MaxStep(top))
  {
    var low, bound := Vruntime(x.sched.tasks[x.current.value]), MaxStep(top);
    StepAtMost69(top);
    match e
    case Tick => TickFair(x, x', top);
    case Yield => PutSwitchFair(x.sched, x.current.value, low, bound);
    case Leave => SwitchFair(x.sched, low, bound);
    case SetPrio(prio) => PriorityFair(x, x', prio, bound);
  }

  lemma StepNice(x: Cpu, x': Cpu, e: Event, top: Nice)
    requires NiceAtMost(x.sched, top) && CpuStep(x, x', e) && (e.SetPrio? ==> e.prio <= top)
    ensures NiceAtMost(x'.sched, top) && |x'.sched.tasks| == |x.sched.tasks|
  {
  }

  /** A scheduler to which tasks 0 to n - 1 were added, and which has not run. */
  ghost predicate Added(s: Cfs, n: nat) {
    && Agreement(s) && |s.ready| == n <= |s.tasks|
    && (forall t :: 0 <= t < |s.tasks| ==> s.tasks[t].(id := 0) == NEW_TASK)
    && (forall t: TaskId :: Queued(s, t) <==> t < n)
  }

  lemma QueuedAfter(s: Cfs, s': Cfs, k: Key, t: TaskId, u: TaskId)
    requires k !in s.ready && s'.ready == s.ready[k := t]
    ensures Queued(s', u) <==> Queued(s, u) || u == t
  {
    assert s'.ready[k] == t;
    if j :| j in s.ready && s.ready[j] == u {
      assert s'.ready[j] == u;
    }
  }

  lemma OneMoreAdded(s: Cfs, n: nat)
    requires Added(s, n) && n < |s.tasks| && n < s.cap
    ensures Added(AddedAtZero(s, n), n + 1)
  {
    assert s.tasks[n].(id := 0) == NEW_TASK;
    AddedAgrees(s, n);
    AddEntersAtZero(s, n);
    var s' := AddedAtZero(s, n);
    forall t: TaskId ensures Queued(s', t) <==> t < n + 1 {
      QueuedAfter(s, s', (0, s.idPool), n, t);
    }
  }

  lemma OneMore(s: Cfs, n: nat)
    requires Added(s, n) && n < |s.tasks| && n < s.cap
    ensures Added(AddTask(s, n), n + 1) && AddTask(s, n).cap == s.cap
  {
    AddEntersAtZero(s, n);
    OneMoreAdded(s, n);
  }

  lemma NoneAdded(s: Cfs)
    requires s.ready == map[] && s.minVruntime == None && forall t :: 0 <= t < |s.tasks| ==> s.tasks[t] == NEW_TASK
    ensures Added(s, 0)
  {
  }

  lemma {:induction false} AllAdded(n: nat, total: nat, cap: nat)
    requires n <= total && n <= cap
    ensures Added(AddAll(n, total, cap), n) && AddAll(n, total, cap).cap == cap
  {
    if n == 0 {
      NoneAdded(AddAll(0, total, cap));
    } else {
      AllAdded(n - 1, total, cap);
      OneMore(AddAll(n - 1, total, cap), n - 1);
    }
  }

  lemma StartFair(s: Cfs, n: nat, top: Nice)
    requires Added(s, n) && 0 <= top
    ensures Fair(Switch(s), MaxStep(top)) && NiceAtMost(Switch(s).sched, top)
  {
    StepAtMost69(top);
    if 0 < n {
      forall t: TaskId | Queued(s, t) ensures Within(s, t, 0, MaxStep(top)) {
        assert s.tasks[t].(id := 0) == NEW_TASK;
      }
      SwitchFair(s, 0, MaxStep(top));
    }
    forall t | 0 <= t < |s.tasks| ensures s.tasks[t].nice <= top {
      assert s.tasks[t].(id := 0) == NEW_TASK;
    }
  }

  lemma {:induction false} RunFair(cpus: seq<Cpu>, events: seq<Event>, n: nat, total: nat, cap: nat, top: Nice, k: nat)
    requires 0 <= top && CpuRun(cpus, events, n, total, cap, top) && k <= |events|
    ensures Fair(cpus[k], MaxStep(top)) && NiceAtMost(cpus[k].sched, top)
    ensures |cpus[k].sched.tasks| == total
  {
    if k == 0 {
      AllAdded(n, total, cap);
      StartFair(AddAll(n, total, cap), n, top);
    } else {
      RunFair(cpus, events, n, total, cap, top, k - 1);
      assert CpuStep(cpus[k - 1], cpus[k], events[k - 1]);
      StepFair(cpus[k - 1], cpus[k], events[k - 1], top);
      StepNice(cpus[k - 1], cpus[k], events[k - 1], top);
    }
  }

  lemma StepAtMost69(top: Nice)
    ensures 0 <= MaxStep(top) <= 69
  {
    var w := Weight(top);
    DivBounds(1024 + w - 1, w);
  }

  /** Tasks `t` and `u` exist, and `t` is at most `d` ahead of `u`. */
  predicate AheadAtMost(s: Cfs, t: TaskId, u: TaskId, d: int) {
    t < |s.tasks| && u < |s.tasks| && Vruntime(s.tasks[t]) <= Vruntime(s.tasks[u]) + d
  }

  /** The fairness bound. At every point of a run the running task has the least virtual
      runtime, and those of any two live tasks differ by at most one tick's worth: 69,
      or 1 if no nice value above 0 is asked for. Tasks that leave do not come back in these
      runs; `CfsArrivals` says when tasks may join later. */
  lemma Fairness(cpus: seq<Cpu>, events: seq<Event>, n: nat, total: nat, cap: nat, top: Nice, k: nat)
    requires 0 <= top && CpuRun(cpus, events, n, total, cap, top) && k <= |events|
    ensures forall t: TaskId, u: TaskId :: Live(cpus[k], t) && cpus[k].current == Some(u) ==>
              AheadAtMost(cpus[k].sched, u, t, 0)
    ensures forall t: TaskId, u: TaskId :: Live(cpus[k], t) && Live(cpus[k], u) ==>
              AheadAtMost(cpus[k].sched, t, u, MaxStep(top))
    ensures MaxStep(top) <= 69 && MaxStep(19) == 69 && MaxStep(0) == 1
  {
    RunFair(cpus, events, n, total, cap, top, k);
    MaxSteps();
    StepAtMost69(top);
    var x := cpus[k];
    if x.current.Some? {
      forall t: TaskId | Live(x, t) ensures Within(x.sched, t, Vruntime(x.sched.tasks[x.current.value]), MaxStep(top)) {
        if x.current == Some(t) {
          assert 0 <= MaxStep(top);
        }
      }
    } else {
      assert forall t: TaskId :: !Queued(x.sched, t);
    }
  }
}
