/** Long-run shares under the completely fair scheduler: running time goes by weight, except
    that a task that joins without a check is owed everything it missed. */
module CfsShares {
  import opened Wrappers
  import opened TaskTypes
  import opened CfsModel
  import opened CfsFairness
  import opened CfsArrivals
  import opened CfsTightness

  /** The step from state `x` is a tick of task `t`. */
  predicate TicksOf(x: Cpu, h: Happening, t: TaskId) {
    h == Own(Event.Tick) && x.current == Some(t)
  }

  /** How many ticks task `t` got between the points `i` and `j` of a run. */
  function Ticks(cpus: seq<Cpu>, hs: seq<Happening>, i: nat, j: nat, t: TaskId): nat
    requires i <= j <= |hs| < |cpus|
    decreases j
  {
    if i == j then 0
    else Ticks(cpus, hs, i, j - 1, t) + if TicksOf(cpus[j - 1], hs[j - 1], t) then 1 else 0
  }

  /** Task `t` is not given another priority, not added anew, and not run elsewhere. */
  predicate Undisturbed(x: Cpu, h: Happening, t: TaskId) {
    match h
    case Own(e) => e.SetPrio? ==> x.current != Some(t)
    case Arrive(u) => u != t
    case Wake(_) => true
    case Elsewhere(u, _) => u != t
  }

  predicate UndisturbedFrom(cpus: seq<Cpu>, hs: seq<Happening>, i: nat, j: nat, t: TaskId) {
    i <= j <= |hs| < |cpus| && forall k :: i <= k < j ==> Undisturbed(cpus[k], hs[k], t)
  }

  /** What a step then does to the fields of task `t`. */
  predicate TimeStep(x: Cpu, x': Cpu, h: Happening, t: TaskId) {
    && |x'.sched.tasks| == |x.sched.tasks|
    && (t < |x.sched.tasks| ==>
          var a, b := x.sched.tasks[t], x'.sched.tasks[t];
          && b.initVruntime == a.initVruntime && b.nice == a.nice
          && b.delta == a.delta + if TicksOf(x, h, t) then 1 else 0)
  }

  /** Putting a task back and going on with the least counts for nobody. */
  lemma PutTime(s: Cfs, c: TaskId, t: TaskId)
    requires c < |s.tasks|
    ensures |Switch(PutPrev(s, c)).sched.tasks| == |s.tasks|
    ensures t < |s.tasks| ==>
              var a, b := s.tasks[t], Switch(PutPrev(s, c)).sched.tasks[t];
              b.initVruntime == a.initVruntime && b.nice == a.nice && b.delta == a.delta
  {
    assert Switch(PutPrev(s, c)).sched.tasks == PutPrev(s, c).tasks;
    assert PutPrev(s, c).tasks == s.tasks[c := s.tasks[c].(id := s.idPool)];
  }

  lemma OwnTime(x: Cpu, x': Cpu, e: Event, t: TaskId)
    requires CpuStep(x, x', e) && Undisturbed(x, Own(e), t)
    ensures TimeStep(x, x', Own(e), t)
  {
    match e
    case Tick =>
      var (_, s) := CfsModel.Tick(x.sched, x.current.value);
      PutTime(s, x.current.value, t);
      assert TimeStep(x, x.(sched := s), Own(e), t);
    case Yield => PutTime(x.sched, x.current.value, t);
    case Leave =>
    case SetPrio(prio) =>
  }

  lemma StepTime(x: Cpu, x': Cpu, h: Happening, t: TaskId)
    requires Sound(x) && Happens(x, x', h) && Undisturbed(x, h, t)
    ensures TimeStep(x, x', h, t)
  {
    match h
    case Own(e) => OwnTime(x, x', e, t);
    case Arrive(u) => AddEntersAtZero(x.sched, u);
    case Wake(u) =>
    case Elsewhere(u, task) =>
  }

  /** Over such a stretch a task's running time is counted in its `delta`. */
  lemma {:induction false} TimeCounted(cpus: seq<Cpu>, hs: seq<Happening>, i: nat, j: nat, t: TaskId)
    requires i <= j <= |hs| < |cpus| && t < |cpus[i].sched.tasks|
    requires forall k {:trigger hs[k]} :: i <= k < j ==> TimeStep(cpus[k], cpus[k + 1], hs[k], t)
    ensures |cpus[j].sched.tasks| == |cpus[i].sched.tasks|
    ensures var a, b := cpus[i].sched.tasks[t], cpus[j].sched.tasks[t];
            && b.initVruntime == a.initVruntime && b.nice == a.nice
            && b.delta == a.delta + Ticks(cpus, hs, i, j, t)
    decreases j
  {
    if i == j {
    } else {
      TimeCounted(cpus, hs, i, j - 1, t);
      assert TimeStep(cpus[j - 1], cpus[j], hs[j - 1], t);
    }
  }

  lemma VruntimeForm(t: Task)
    requires 0 <= t.delta
    ensures Vruntime(t) == t.initVruntime + t.delta * 1024 / Weight(t.nice)
  {
  }

  /** A gain of `g` tells of `k` ticks at weight `w`, up to rounding. */
  predicate Tracks(k: nat, g: int, w: int) {
    (g - 1) * w < k * 1024 < (g + 1) * w
  }

  /** The growth of a virtual runtime, times the weight, is the running time up to rounding. */
  lemma Grown(d: nat, n: nat, w: int)
    requires 0 < w
    ensures var g := (d + n) * 1024 / w - d * 1024 / w;
            Tracks(n, g, w)
  {
    DivBounds(d * 1024, w);
    DivBounds((d + n) * 1024, w);
    var q, r := d * 1024 / w, (d + n) * 1024 / w;
    Distribute(r, 0 - q, w);
    Distribute(r - q, 1, w);
    Distribute(r - q, -1, w);
    Distribute(r, 1, w);
    Distribute(q, 1, w);
    assert (0 - q) * w == 0 - q * w;
  }

  /** Two bounds on running times, cleared of the weights' denominators. */
  lemma CrossWeights(n: nat, m: nat, g: int, h: int, v: int, w: int, bound: int)
    requires 0 < v && 0 < w
    requires Tracks(n, g, v) && Tracks(m, h, w) && g <= h + bound
    ensures SharesClose(n, v, m, w, bound)
  {
    Scale(n * 1024, (g + 1) * v, w);
    Scale((h - 1) * w, m * 1024, v);
    var u := v * w;
    assert (g + 1) * v * w == (g + 1) * u;
    assert (h - 1) * w * v == (h - 1) * u;
    Distribute(g + 1, 0 - (h - 1), u);
    assert (0 - (h - 1)) * u == 0 - (h - 1) * u;
    Monotone(g - h + 2, bound + 2, u);
  }

  lemma Scale(a: int, b: int, w: int)
    requires a < b && 0 < w
    ensures a * w < b * w
  {
  }

  lemma Monotone(a: int, b: int, w: int)
    requires a <= b && 0 <= w
    ensures a * w <= b * w
  {
  }

  /** How much the virtual runtime of `t` grew between two points of a run. */
  function Gain(cpus: seq<Cpu>, i: nat, j: nat, t: TaskId): int
    requires i < |cpus| && j < |cpus| && t < |cpus[i].sched.tasks| && t < |cpus[j].sched.tasks|
  {
    Vruntime(cpus[j].sched.tasks[t]) - Vruntime(cpus[i].sched.tasks[t])
  }

  /** A task that ran for `k` more ticks. */
  lemma TaskGrown(a: Task, b: Task, k: nat)
    requires 0 <= a.delta && b == a.(delta := a.delta + k, id := b.id)
    ensures Tracks(k, Vruntime(b) - Vruntime(a), Weight(a.nice))
  {
    VruntimeForm(a);
    VruntimeForm(b);
    Grown(a.delta, k, Weight(a.nice));
  }

  lemma GainTracks(cpus: seq<Cpu>, hs: seq<Happening>, i: nat, j: nat, t: TaskId)
    requires i <= j <= |hs| < |cpus| && t < |cpus[i].sched.tasks| == |cpus[j].sched.tasks|
    requires 0 <= cpus[i].sched.tasks[t].delta
    requires var a, b := cpus[i].sched.tasks[t], cpus[j].sched.tasks[t];
             b == a.(delta := a.delta + Ticks(cpus, hs, i, j, t), id := b.id)
    ensures Tracks(Ticks(cpus, hs, i, j, t), Gain(cpus, i, j, t), Weight(cpus[i].sched.tasks[t].nice))
  {
    TaskGrown(cpus[i].sched.tasks[t], cpus[j].sched.tasks[t], Ticks(cpus, hs, i, j, t));
  }

  lemma GainIsTime(cpus: seq<Cpu>, hs: seq<Happening>, n: nat, total: nat, cap: nat, top: Nice, bound: int,
                   i: nat, j: nat, t: TaskId)
    requires 0 <= top && MaxStep(top) <= bound && OpenRun(cpus, hs, n, total, cap, top, bound)
    requires UndisturbedFrom(cpus, hs, i, j, t) && t < total
    ensures t < |cpus[i].sched.tasks| == |cpus[j].sched.tasks| == total
    ensures Tracks(Ticks(cpus, hs, i, j, t), Gain(cpus, i, j, t), Weight(cpus[i].sched.tasks[t].nice))
  {
    SoundThroughout(cpus, hs, n, total, cap, top, bound, i);
    forall k {:trigger hs[k]} | i <= k < j ensures TimeStep(cpus[k], cpus[k + 1], hs[k], t) {
      SoundThroughout(cpus, hs, n, total, cap, top, bound, k);
      assert HappensAt(cpus, hs, k, top, bound);
      StepTime(cpus[k], cpus[k + 1], hs[k], t);
    }
    TimeCounted(cpus, hs, i, j, t);
    GainTracks(cpus, hs, i, j, t);
  }

  lemma SoundThroughout(cpus: seq<Cpu>, hs: seq<Happening>, n: nat, total: nat, cap: nat, top: Nice, bound: int, k: nat)
    requires 0 <= top && MaxStep(top) <= bound && k <= |hs| && OpenRun(cpus, hs, n, total, cap, top, bound)
    ensures Sound(cpus[k]) && |cpus[k].sched.tasks| == total
  {
    var low := RunWindowed(cpus, hs, n, total, cap, top, bound, k);
  }

  /** Two tasks live at both ends of a stretch gain almost the same. */
  lemma GainsClose(cpus: seq<Cpu>, hs: seq<Happening>, n: nat, total: nat, cap: nat, top: Nice, bound: int,
                   i: nat, j: nat, t: TaskId, u: TaskId)
    requires 0 <= top && MaxStep(top) <= bound && OpenRun(cpus, hs, n, total, cap, top, bound)
    requires i <= |hs| && j <= |hs|
    requires Live(cpus[i], t) && Live(cpus[i], u) && Live(cpus[j], t) && Live(cpus[j], u)
    ensures |cpus[i].sched.tasks| == |cpus[j].sched.tasks| == total && t < total && u < total
    ensures Gain(cpus, i, j, t) <= Gain(cpus, i, j, u) + 2 * bound
  {
    SoundThroughout(cpus, hs, n, total, cap, top, bound, i);
    SoundThroughout(cpus, hs, n, total, cap, top, bound, j);
    OpenFairness(cpus, hs, n, total, cap, top, bound, i);
    OpenFairness(cpus, hs, n, total, cap, top, bound, j);
    assert AheadAtMost(cpus[j].sched, t, u, bound);
    assert AheadAtMost(cpus[i].sched, u, t, bound);
  }

  /** Running times `k` and `l`, each divided by its weight, differ by less than `bound` plus
      two, in units of 1024 over a weight. */
  predicate SharesClose(k: nat, v: int, l: nat, w: int, bound: int) {
    k * 1024 * w - l * 1024 * v < (bound + 2) * (v * w)
  }

  lemma GainsToShares(cpus: seq<Cpu>, hs: seq<Happening>, i: nat, j: nat, t: TaskId, u: TaskId, bound: int)
    requires i <= j <= |hs| < |cpus| && t < |cpus[i].sched.tasks| == |cpus[j].sched.tasks|
    requires u < |cpus[i].sched.tasks|
    requires Tracks(Ticks(cpus, hs, i, j, t), Gain(cpus, i, j, t), Weight(cpus[i].sched.tasks[t].nice))
    requires Tracks(Ticks(cpus, hs, i, j, u), Gain(cpus, i, j, u), Weight(cpus[i].sched.tasks[u].nice))
    requires Gain(cpus, i, j, t) <= Gain(cpus, i, j, u) + bound
    ensures SharesClose(Ticks(cpus, hs, i, j, t), Weight(cpus[i].sched.tasks[t].nice),
                        Ticks(cpus, hs, i, j, u), Weight(cpus[i].sched.tasks[u].nice), bound)
  {
    CrossWeights(Ticks(cpus, hs, i, j, t), Ticks(cpus, hs, i, j, u),
                 Gain(cpus, i, j, t), Gain(cpus, i, j, u),
                 Weight(cpus[i].sched.tasks[t].nice), Weight(cpus[i].sched.tasks[u].nice), bound);
  }

  /** WEIGHTED SHARES: over any stretch of a run that keeps a bound, tasks joining and blocking
      included, the running times of two tasks that are live at both its ends and undisturbed
      in between go by weight, up to twice the bound and rounding. */
  lemma WeightedShares(cpus: seq<Cpu>, hs: seq<Happening>, n: nat, total: nat, cap: nat, top: Nice, bound: int,
                       i: nat, j: nat, t: TaskId, u: TaskId)
    requires 0 <= top && MaxStep(top) <= bound && OpenRun(cpus, hs, n, total, cap, top, bound)
    requires UndisturbedFrom(cpus, hs, i, j, t) && UndisturbedFrom(cpus, hs, i, j, u)
    requires Live(cpus[i], t) && Live(cpus[i], u) && Live(cpus[j], t) && Live(cpus[j], u)
    ensures t < total && u < total && |cpus[i].sched.tasks| == total
    ensures SharesClose(Ticks(cpus, hs, i, j, t), Weight(cpus[i].sched.tasks[t].nice),
                        Ticks(cpus, hs, i, j, u), Weight(cpus[i].sched.tasks[u].nice), 2 * bound)
  {
    GainsClose(cpus, hs, n, total, cap, top, bound, i, j, t, u);
    GainIsTime(cpus, hs, n, total, cap, top, bound, i, j, t);
    GainIsTime(cpus, hs, n, total, cap, top, bound, i, j, u);
    GainsToShares(cpus, hs, i, j, t, u, 2 * bound);
  }

  /** A CPU with two tasks of which only task `c` is live; it runs, at nice 0 from 0 on. */
  ghost predicate Alone(x: Cpu, c: TaskId, cap: nat) {
    && Agreement(x.sched) && c < 2 <= cap && x.sched.cap == cap && |x.sched.tasks| == 2
    && x.current == Some(c) && x.sched.ready == map[]
    && x.sched.tasks[c].initVruntime == 0 && x.sched.tasks[c].nice == 0
  }

  lemma AloneTick(x: Cpu, c: TaskId, cap: nat)
    requires Alone(x, c, cap)
    ensures var x' := x.(sched := CfsModel.Tick(x.sched, c).1);
            && CpuStep(x, x', Event.Tick) && Alone(x', c, cap)
            && x'.sched.tasks[1 - c] == x.sched.tasks[1 - c]
            && Vruntime(x.sched.tasks[c]) == x.sched.tasks[c].delta
            && Vruntime(x'.sched.tasks[c]) == Vruntime(x.sched.tasks[c]) + 1
  {
    UnqueuedChange(x.sched, c, x.sched.tasks[c].(delta := x.sched.tasks[c].delta + 1));
  }

  /** The only live task gets `n` more ticks. */
  lemma {:induction false} AloneTicks(was: seq<Cpu>, before: seq<Event>, m: nat, cap: nat, c: TaskId, n: nat)
    returns (cpus: seq<Cpu>, events: seq<Event>)
    requires CpuRun(was, before, m, 2, cap, 0) && Alone(was[|before|], c, cap)
    ensures CpuRun(cpus, events, m, 2, cap, 0) && was <= cpus && before <= events && Alone(cpus[|events|], c, cap)
    ensures var s, s' := was[|before|].sched, cpus[|events|].sched;
            s'.tasks[1 - c] == s.tasks[1 - c] && Vruntime(s'.tasks[c]) == Vruntime(s.tasks[c]) + n
  {
    if n == 0 {
      cpus, events := was, before;
    } else {
      cpus, events := AloneTicks(was, before, m, cap, c, n - 1);
      var x := cpus[|events|];
      var x' := x.(sched := CfsModel.Tick(x.sched, c).1);
      AloneTick(x, c, cap);
      Extend(cpus, events, m, 2, cap, 0, x', Event.Tick);
      cpus, events := cpus + [x'], events + [Event.Tick];
    }
  }

  lemma OnlyTask(cap: nat)
    requires 2 <= cap
    ensures var x := Switch(AddAll(1, 2, cap)); Alone(x, 0, cap) && x.sched.tasks == [x.sched.tasks[0], NEW_TASK]
    ensures Vruntime(Switch(AddAll(1, 2, cap)).sched.tasks[0]) == 0
  {
    var s := AddAll(0, 2, cap);
    AllAdded(1, 2, cap);
    AddEntersAtZero(s, 0);
    assert AddAll(1, 2, cap).ready == map[(0, 0) := 0];
    SwitchTakes(AddAll(1, 2, cap));
    PickAgrees(AddAll(1, 2, cap));
  }

  /** A task added late enters at 0, however long the others have run: the gap has no bound. */
  lemma LateArrivalGap(n: nat, cap: nat) returns (cpus: seq<Cpu>, events: seq<Event>)
    requires 2 <= cap
    ensures CpuRun(cpus, events, 1, 2, cap, 0) && Live(cpus[|events|], 0)
    ensures |cpus[|events|].sched.tasks| == 2
    ensures var s := AddTask(cpus[|events|].sched, 1);
            && Queued(s, 1) && |s.tasks| == 2
            && Vruntime(s.tasks[0]) == Vruntime(s.tasks[1]) + n
  {
    var x := Switch(AddAll(1, 2, cap));
    OnlyTask(cap);
    cpus, events := AloneTicks([x], [], 1, cap, 0, n);
    var s := cpus[|events|].sched;
    AddEntersAtZero(s, 1);
    assert AddTask(s, 1).ready[(0, s.idPool)] == 1;
  }

  /** Task 1 runs, task 0 has blocked, and both are at 0. */
  function Deserted(cap: nat): Cpu {
    Cpu(Cfs(cap, map[], Some(0), 2, [Task(0, 0, 0, 0), Task(0, 0, 0, 1)]), Some(1))
  }

  lemma Deserts(cap: nat)
    requires 2 <= cap
    ensures CpuStep(Pair(cap, 0, Task(0, 0, 0, 0), Task(0, 0, 0, 1), 2), Deserted(cap), Leave)
    ensures Alone(Deserted(cap), 1, cap)
  {
    var s := Pair(cap, 0, Task(0, 0, 0, 0), Task(0, 0, 0, 1), 2).sched;
    assert s.ready == map[(0, 1) := 1];
    assert (0, 1) in s.ready && s.ready - {(0, 1)} == map[];
    assert Least(s.ready) == (0, 1);
  }

  /** Two tasks are added, and the one that runs first blocks. */
  lemma FirstBlocks(cap: nat) returns (cpus: seq<Cpu>, events: seq<Event>)
    requires 2 <= cap
    ensures CpuRun(cpus, events, 2, 2, cap, 0) && events == [Leave]
    ensures cpus[0].current == Some(0) && cpus[1] == Deserted(cap)
  {
    var x := Pair(cap, 0, Task(0, 0, 0, 0), Task(0, 0, 0, 1), 2);
    Begins(cap);
    Deserts(cap);
    Extend([x], [], 2, 2, cap, 0, Deserted(cap), Leave);
    cpus, events := [x, Deserted(cap)], [Leave];
  }

  lemma PutsBackBehind(x: Cpu, cap: nat, t: TaskId, c: TaskId)
    requires Alone(x, c, cap) && t == 1 - c
    ensures var s := PutPrev(x.sched, t);
            && Queued(s, t) && |s.tasks| == 2
            && Vruntime(s.tasks[t]) == Vruntime(x.sched.tasks[t]) && s.tasks[c] == x.sched.tasks[c]
  {
    PutQueues(x.sched, t);
  }

  /** A task that blocks and is woken comes back with the virtual runtime it had, however long
      the others have run since: here too the gap has no bound. */
  lemma WakeupGap(n: nat, cap: nat) returns (cpus: seq<Cpu>, events: seq<Event>)
    requires 2 <= cap
    ensures CpuRun(cpus, events, 2, 2, cap, 0) && 0 < |events|
    ensures cpus[0].current == Some(0) && events[0] == Leave && Live(cpus[|events|], 1)
    ensures |cpus[|events|].sched.tasks| == 2
    ensures var s := PutPrev(cpus[|events|].sched, 0);
            && Queued(s, 0) && |s.tasks| == 2
            && Vruntime(s.tasks[1]) == Vruntime(s.tasks[0]) + n
  {
    var was, before := FirstBlocks(cap);
    Deserts(cap);
    cpus, events := AloneTicks(was, before, 2, cap, 1, n);
    PutsBackBehind(cpus[|events|], cap, 0, 1);
  }
}
