/** The life of a task: what changes its state, what moves it into and out of a queue, and
    that a task yielded, woken or picked gets where it is meant to. */
module SchedLife {
  import opened Wrappers
  import opened TaskTypes
  import opened SchedMachine
  import opened SchedPlacement
  import opened SchedTheorems
  import opened SchedHandshake
  import opened SchedProgress

  /** In this step the state of task `t` goes from `a` to `b`. */
  predicate Turns(s: State, s': State, t: TaskId, a: TaskState, b: TaskState) {
    t < |s.tasks| && t < |s'.tasks| && s.tasks[t].state == a && s'.tasks[t].state == b
  }

  /** CPU `c`, in user code, does `act` as task `t`. */
  predicate Calls(s: State, c: CpuId, t: TaskId, act: Action, call: Action) {
    c < |s.cpus| && s.cpus[c].pc == User && s.cpus[c].current == t && act == call
  }

  /** A place in the code from which tasks are woken. */
  predicate MayWake(pc: Pc) { pc == User || pc == ExitNotify }

  /** THE LIFE CYCLE: in reachable states, exactly these steps change the state of a task. */
  lemma LifeCycle(s: State, s': State, c: CpuId, act: Action, t: TaskId)
    requires Reachable(s) && WellFormed(s) && Step(s, s', c, act) && t < |s.tasks|
    ensures |s'.tasks| == |s.tasks|
    ensures Turns(s, s', t, Running, Ready) <==> Calls(s, c, t, act, Yield)
    ensures Turns(s, s', t, Running, Blocked) <==> Calls(s, c, t, act, Block)
    ensures Turns(s, s', t, Running, Exited) <==> Calls(s, c, t, act, Exit)
    ensures Turns(s, s', t, Blocked, Ready) <==>
            MayWake(s.cpus[c].pc) && act.Wake? && act.task == t && s.tasks[t].state == Blocked
    ensures Turns(s, s', t, Ready, Running) <==> s.cpus[c].pc == Picked(t)
    ensures s'.tasks[t].state != s.tasks[t].state ==>
              || Turns(s, s', t, Running, Ready) || Turns(s, s', t, Running, Blocked)
              || Turns(s, s', t, Running, Exited) || Turns(s, s', t, Blocked, Ready)
              || Turns(s, s', t, Ready, Running)
  {
    AssertionsHold(s, c);
  }

  /** The step puts task `t` into the queue of CPU `d`. */
  predicate Puts(s: State, c: CpuId, act: Action, t: TaskId, d: CpuId) {
    && c < |s.cpus|
    && match s.cpus[c].pc
       case User => act == Spawn(t) && d == c
       case YieldPut => s.cpus[c].current == t && d == c
       case WakePut(u, dst, _) => u == t && dst == d
       case _ => false
  }

  /** The step takes task `t` out of the queue of CPU `d`. */
  predicate Takes(s: State, c: CpuId, act: Action, t: TaskId, d: CpuId) {
    c == d && c < |s.cpus| && s.cpus[c].pc == Pick && act == Choose(t) && t in s.cpus[c].queue
  }

  /** THE QUEUES: every queue changes by exactly what is put and taken. */
  lemma QueueChanges(s: State, s': State, c: CpuId, act: Action, t: TaskId, d: CpuId)
    requires WellFormed(s) && Step(s, s', c, act) && d < |s.cpus|
    ensures |s'.cpus| == |s.cpus|
    ensures s'.cpus[d].queue[t] ==
            s.cpus[d].queue[t] + (if Puts(s, c, act, t, d) then 1 else 0) - (if Takes(s, c, act, t, d) then 1 else 0)
  {
  }

  /** A task that stops makes way for the next one; one that exits wakes its joiners first. */
  lemma StopsRunning(s: State, s': State, c: CpuId, act: Action)
    requires Reachable(s) && WellFormed(s) && Step(s, s', c, act) && s.cpus[c].pc == User
    ensures c < |s'.cpus| && CpuWellFormed(s, c)
    ensures act == Exit <==> s'.cpus[c].pc == ExitNotify
    ensures act == Block || (act == Yield && s.tasks[s.cpus[c].current].idle) <==> s'.cpus[c].pc == Pick
  {
    AssertionsHold(s, c);
  }

  /** The task that a CPU is bringing to a queue, and the CPU of that queue. */
  function Bound(cpu: Cpu, c: CpuId): Option<(TaskId, CpuId)> {
    match cpu.pc
    case YieldPut => Some((cpu.current, c))
    case WakeSpin(t, dst, _) => Some((t, dst))
    case WakePut(t, dst, _) => Some((t, dst))
    case _ => None
  }

  /** A yield and a won wakeup, and nothing else, set out for a queue: the caller's own, and
      the one that was asked for. */
  lemma SetsOut(s: State, s': State, c: CpuId, act: Action, t: TaskId, d: CpuId)
    requires Reachable(s) && WellFormed(s) && Step(s, s', c, act) && t < |s.tasks|
    requires Bound(s.cpus[c], c) == None
    ensures c < |s'.cpus|
    ensures Bound(s'.cpus[c], c) == Some((t, d)) <==>
            || (Calls(s, c, t, act, Yield) && !s.tasks[t].idle && d == c)
            || (MayWake(s.cpus[c].pc) && act == Wake(t, d) && s.tasks[t].state == Blocked && !s.tasks[t].idle)
  {
    AssertionsHold(s, c);
    if act.Wake? {
      WakeSetsOut(s, s', c, act, t, d);
    } else {
      OthersSetOut(s, s', c, act, t, d);
    }
  }

  lemma WakeSetsOut(s: State, s': State, c: CpuId, act: Action, t: TaskId, d: CpuId)
    requires WellFormed(s) && Step(s, s', c, act) && t < |s.tasks| && Bound(s.cpus[c], c) == None && act.Wake?
    ensures c < |s'.cpus|
    ensures Bound(s'.cpus[c], c) == Some((t, d)) <==>
            MayWake(s.cpus[c].pc) && act == Wake(t, d) && s.tasks[t].state == Blocked && !s.tasks[t].idle
  {
  }

  lemma OthersSetOut(s: State, s': State, c: CpuId, act: Action, t: TaskId, d: CpuId)
    requires WellFormed(s) && Step(s, s', c, act) && t < |s.tasks| && Bound(s.cpus[c], c) == None && !act.Wake?
    requires s.cpus[c].pc == User ==>
               CpuWellFormed(s, c) && s.tasks[s.cpus[c].current].state == Running
    ensures c < |s'.cpus|
    ensures Bound(s'.cpus[c], c) == Some((t, d)) <==>
            Calls(s, c, t, act, Yield) && !s.tasks[t].idle && d == c
  {
  }

  /** A step of a CPU that brings a task to a queue brings it there, or one step nearer. */
  lemma BoundStep(s: State, s': State, e: CpuId, act: Action, c: CpuId, t: TaskId, d: CpuId)
    requires WellFormed(s) && Step(s, s', e, act) && c < |s.cpus| && Bound(s.cpus[c], c) == Some((t, d))
    ensures c < |s'.cpus| == |s.cpus|
    ensures e != c ==> s'.cpus[c].pc == s.cpus[c].pc && Bound(s'.cpus[c], c) == Some((t, d))
    ensures e == c && s.cpus[c].pc.WakeSpin? && Marked(s, t) ==> s' == s
    ensures e == c && s.cpus[c].pc.WakeSpin? && !Marked(s, t) ==>
              s'.cpus[c].pc.WakePut? && Bound(s'.cpus[c], c) == Some((t, d))
    ensures e == c && !s.cpus[c].pc.WakeSpin? ==>
              d < |s'.cpus| && t in s'.cpus[d].queue && Bound(s'.cpus[c], c) == None
  {
    if e != c {
      OthersDoNotMoveIt(s, s', c, e, act);
    }
  }

  /** The place that a CPU wakes tasks from. */
  function WakesFrom(pc: Pc): Option<Pc> {
    match pc
    case WakeSpin(_, _, back) => Some(if back == ToUser then User else ExitNotify)
    case WakePut(_, _, back) => Some(if back == ToUser then User else ExitNotify)
    case User => Some(User)
    case ExitNotify => Some(ExitNotify)
    case _ => None
  }

  /** A waker goes on where it was: in user code, or with waking the joiners of its exit. */
  lemma WakerReturns(s: State, s': State, c: CpuId, act: Action)
    requires WellFormed(s) && Step(s, s', c, act)
    requires act.Wake? || s.cpus[c].pc.WakeSpin? || s.cpus[c].pc.WakePut?
    ensures c < |s'.cpus| && WakesFrom(s'.cpus[c].pc) == WakesFrom(s.cpus[c].pc) != None
    ensures s'.cpus[c].current == s.cpus[c].current
  {
  }

  /** In the step from state `k` CPU `c` puts task `t` into the queue of CPU `d`. */
  ghost predicate ArrivesAt(states: seq<State>, steps: seq<(CpuId, Action)>, k: nat, c: CpuId, t: TaskId, d: CpuId) {
    && k < |steps| < |states| && steps[k].0 == c
    && c < |states[k].cpus| && Bound(states[k].cpus[c], c) == Some((t, d))
    && d < |states[k + 1].cpus| && t in states[k + 1].cpus[d].queue
  }

  ghost predicate Arrives(states: seq<State>, steps: seq<(CpuId, Action)>, m: nat, n: nat,
                          c: CpuId, t: TaskId, d: CpuId) {
    exists k: nat :: m <= k < n && ArrivesAt(states, steps, k, c, t, d)
  }

  /** A CPU bringing task `t` to the queue of CPU `d`. */
  predicate Brings(s: State, c: CpuId, t: TaskId, d: CpuId) {
    c < |s.cpus| && Bound(s.cpus[c], c) == Some((t, d))
  }

  /** NOT LOST ON THE WAY: a task on its way into a queue stays in hand until it is there. */
  lemma {:induction false} StaysInHand(states: seq<State>, steps: seq<(CpuId, Action)>, m: nat, n: nat,
                                       c: CpuId, t: TaskId, d: CpuId)
    requires Run(states, steps) && m <= n <= |steps| && Brings(states[m], c, t, d)
    ensures Brings(states[n], c, t, d) || Arrives(states, steps, m, n, c, t, d)
    decreases n
  {
    if m == n {
    } else {
      StaysInHand(states, steps, m, n - 1, c, t, d);
      if Arrives(states, steps, m, n - 1, c, t, d) {
        var k: nat :| m <= k < n - 1 && ArrivesAt(states, steps, k, c, t, d);
        assert m <= k < n && ArrivesAt(states, steps, k, c, t, d);
      } else {
        assert StepAt(states, steps, n - 1);
        BoundStep(states[n - 1], states[n], steps[n - 1].0, steps[n - 1].1, c, t, d);
        assert Brings(states[n], c, t, d) || ArrivesAt(states, steps, n - 1, c, t, d);
      }
    }
  }

  /** The next step of a CPU that is past waiting puts the task into the queue. */
  lemma {:induction false} PutNext(states: seq<State>, steps: seq<(CpuId, Action)>, m: nat, n: nat,
                                   c: CpuId, t: TaskId, d: CpuId)
    requires Run(states, steps) && m <= n <= |steps| && Brings(states[m], c, t, d) && !states[m].cpus[c].pc.WakeSpin?
    ensures StepsOf(steps, m, n, c) >= 1 ==> Arrives(states, steps, m, n, c, t, d)
    ensures StepsOf(steps, m, n, c) == 0 ==> Brings(states[n], c, t, d) && !states[n].cpus[c].pc.WakeSpin?
    decreases n
  {
    if m == n {
    } else {
      PutNext(states, steps, m, n - 1, c, t, d);
      assert StepAt(states, steps, n - 1);
      if StepsOf(steps, m, n - 1, c) >= 1 {
        var k: nat :| m <= k < n - 1 && ArrivesAt(states, steps, k, c, t, d);
        assert m <= k < n && ArrivesAt(states, steps, k, c, t, d);
      } else {
        BoundStep(states[n - 1], states[n], steps[n - 1].0, steps[n - 1].1, c, t, d);
        if steps[n - 1].0 == c {
          assert ArrivesAt(states, steps, n - 1, c, t, d);
        }
      }
    }
  }

  /** YIELDING: a task that yields is in its own CPU's queue after the next step of that CPU. */
  lemma YieldedIsQueued(states: seq<State>, steps: seq<(CpuId, Action)>, i: nat, n: nat, c: CpuId, t: TaskId)
    requires Run(states, steps) && i < n <= |steps| && t < |states[i].tasks| && !states[i].tasks[t].idle
    requires steps[i].0 == c && Calls(states[i], c, t, steps[i].1, Yield)
    requires StepsOf(steps, i + 1, n, c) >= 1
    ensures Arrives(states, steps, i + 1, n, c, t, c)
  {
    RunStep(states, steps, i);
    SetsOut(states[i], states[i + 1], c, Yield, t, c);
    AssertionsHold(states[i], c);
    PutNext(states, steps, i + 1, n, c, t, c);
  }

  /** Once the task is free, two steps of the waker put it into the queue. */
  lemma {:induction false} FreeThenPut(states: seq<State>, steps: seq<(CpuId, Action)>, m: nat, n: nat,
                                       c: CpuId, t: TaskId, d: CpuId)
    requires Run(states, steps) && m <= n <= |steps| && Brings(states[m], c, t, d)
    requires states[m].cpus[c].pc.WakeSpin? && !Marked(states[m], t)
    ensures StepsOf(steps, m, n, c) >= 2 ==> Arrives(states, steps, m, n, c, t, d)
    ensures StepsOf(steps, m, n, c) == 1 ==> Brings(states[n], c, t, d) && states[n].cpus[c].pc.WakePut?
    ensures StepsOf(steps, m, n, c) == 0 ==>
              Brings(states[n], c, t, d) && states[n].cpus[c].pc.WakeSpin? && !Marked(states[n], t)
    decreases n
  {
    if m == n {
    } else {
      FreeThenPut(states, steps, m, n - 1, c, t, d);
      RunStep(states, steps, n - 1);
      var s, s', e, act := states[n - 1], states[n], steps[n - 1].0, steps[n - 1].1;
      var before := StepsOf(steps, m, n - 1, c);
      if before >= 2 {
        var k: nat :| m <= k < n - 1 && ArrivesAt(states, steps, k, c, t, d);
        assert m <= k < n && ArrivesAt(states, steps, k, c, t, d);
      } else {
        BoundStep(s, s', e, act, c, t, d);
        if before == 0 {
          NobodyMarks(s, s', e, act, c, t);
        } else if e == c {
          assert ArrivesAt(states, steps, n - 1, c, t, d);
        }
      }
    }
  }

  lemma {:induction false} SpinsUntil(states: seq<State>, steps: seq<(CpuId, Action)>, i: nat, m: nat,
                                      c: CpuId, t: TaskId, d: CpuId)
    requires Run(states, steps) && i <= m <= |steps| && Brings(states[i], c, t, d)
    requires states[i].cpus[c].pc.WakeSpin? && Brings(states[m], c, t, d)
    requires !Arrives(states, steps, i, m, c, t, d) && states[m].cpus[c].pc.WakeSpin?
    ensures SpinsFor(states, i, m, c, t)
    decreases m
  {
    if i == m {
    } else {
      StaysInHand(states, steps, i, m - 1, c, t, d);
      assert forall k: nat {:trigger ArrivesAt(states, steps, k, c, t, d)} ::
          i <= k < m - 1 ==> !ArrivesAt(states, steps, k, c, t, d);
      assert !Arrives(states, steps, i, m - 1, c, t, d);
      assert StepAt(states, steps, m - 1);
      BoundStep(states[m - 1], states[m], steps[m - 1].0, steps[m - 1].1, c, t, d);
      SpinsUntil(states, steps, i, m - 1, c, t, d);
    }
  }

  /** WAKING: a blocked task that a CPU wakes is put into the queue that was asked for, as soon
      as the one other CPU that may still be leaving it has taken six steps, and then the waker
      two. */
  lemma WokenIsQueued(states: seq<State>, steps: seq<(CpuId, Action)>, i: nat, c: CpuId, t: TaskId, dst: CpuId)
    returns (d: CpuId)
    requires Run(states, steps) && i < |steps| && steps[i] == (c, Wake(t, dst))
    requires c < |states[i].cpus| && MayWake(states[i].cpus[c].pc)
    requires t < |states[i].tasks| && states[i].tasks[t].state == Blocked && !states[i].tasks[t].idle
    ensures Turns(states[i], states[i + 1], t, Blocked, Ready)
    ensures Brings(states[i + 1], c, t, dst)
    ensures Marked(states[i + 1], t) ==> d != c
    ensures forall m: nat, n: nat ::
              && i < m <= n <= |steps| && StepsOf(steps, m, n, c) >= 2
              && (Marked(states[i + 1], t) ==> StepsOf(steps, i + 1, m, d) >= 6) ==>
                Arrives(states, steps, i + 1, n, c, t, dst)
  {
    RunStep(states, steps, i);
    SetsOut(states[i], states[i + 1], c, steps[i].1, t, dst);
    LifeCycle(states[i], states[i + 1], c, steps[i].1, t);
    assert states[i + 1].cpus[c].pc.WakeSpin?;
    d := c;
    if Marked(states[i + 1], t) {
      d := SpinIsBounded(states, steps, i + 1, c, t);
    }
    forall m: nat, n: nat
      | && i < m <= n <= |steps| && StepsOf(steps, m, n, c) >= 2
        && (Marked(states[i + 1], t) ==> StepsOf(steps, i + 1, m, d) >= 6)
      ensures Arrives(states, steps, i + 1, n, c, t, dst)
    {
      PutByThen(states, steps, i + 1, m, n, c, d, t, dst);
    }
  }

  lemma ArrivesLater(states: seq<State>, steps: seq<(CpuId, Action)>, i: nat, m: nat, j: nat, n: nat,
                     c: CpuId, t: TaskId, d: CpuId)
    requires i <= m && j <= n && Arrives(states, steps, m, j, c, t, d)
    ensures Arrives(states, steps, i, n, c, t, d)
  {
    var k: nat :| m <= k < j && ArrivesAt(states, steps, k, c, t, d);
    assert i <= k < n;
  }

  lemma PutByThen(states: seq<State>, steps: seq<(CpuId, Action)>, i: nat, m: nat, n: nat,
                  c: CpuId, d: CpuId, t: TaskId, dst: CpuId)
    requires Run(states, steps) && i <= m <= n <= |steps| && Brings(states[i], c, t, dst)
    requires states[i].cpus[c].pc.WakeSpin? && StepsOf(steps, m, n, c) >= 2
    requires Marked(states[i], t) ==>
               && StepsOf(steps, i, m, d) >= 6
               && forall j :: i <= j <= |steps| && SpinsFor(states, i, j, c, t) && StepsOf(steps, i, j, d) >= 6 ==>
                    !Marked(states[j], t)
    ensures Arrives(states, steps, i, n, c, t, dst)
  {
    if Arrives(states, steps, i, m, c, t, dst) {
      ArrivesLater(states, steps, i, i, m, n, c, t, dst);
    } else {
      StaysInHand(states, steps, i, m, c, t, dst);
      if states[m].cpus[c].pc.WakeSpin? {
        SpinsUntil(states, steps, i, m, c, t, dst);
        if Marked(states[i], t) {
          assert !Marked(states[m], t);
        } else {
          StaysUnmarked(states, steps, i, m, c, t);
        }
        FreeThenPut(states, steps, m, n, c, t, dst);
      } else {
        PutNext(states, steps, m, n, c, t, dst);
      }
      ArrivesLater(states, steps, i, m, n, n, c, t, dst);
    }
  }

  /** A CPU on its way to running task `n`, or there. */
  predicate Enters(cpu: Cpu, n: TaskId) {
    match cpu.pc
    case Picked(m) => m == n
    case Switch(m) => m == n
    case Returned(_) => cpu.current == n
    case Handover(_) => cpu.current == n
    case Resume(_) => cpu.current == n
    case User => cpu.current == n
    case _ => false
  }

  /** The steps left until then. */
  function Left(pc: Pc): nat {
    match pc
    case Picked(_) => 5
    case Switch(_) => 4
    case Returned(_) => 3
    case Handover(_) => 2
    case Resume(_) => 1
    case _ => 0
  }

  lemma EnterStep(s: State, s': State, e: CpuId, act: Action, c: CpuId, n: TaskId)
    requires Reachable(s) && WellFormed(s) && Step(s, s', e, act)
    requires c < |s.cpus| && Enters(s.cpus[c], n) && s.cpus[c].pc != User
    ensures c < |s'.cpus| && Enters(s'.cpus[c], n)
    ensures Left(s'.cpus[c].pc) <= Left(s.cpus[c].pc) - if e == c then 1 else 0
  {
    if e == c {
      AssertionsHold(s, c);
    } else {
      OthersDoNotMoveIt(s, s', c, e, act);
    }
  }

  /** CPU `c` runs task `n`. */
  predicate RunsTask(s: State, c: CpuId, n: TaskId) {
    c < |s.cpus| && s.cpus[c].pc == User && s.cpus[c].current == n && n < |s.tasks| && s.tasks[n].state == Running
  }

  lemma {:induction false} EntersInTime(states: seq<State>, steps: seq<(CpuId, Action)>, m: nat, j: nat,
                                        c: CpuId, n: TaskId)
    requires Run(states, steps) && m <= j <= |steps| && c < |states[m].cpus| && states[m].cpus[c].pc == Picked(n)
    ensures (exists k: nat :: m < k <= j && RunsTask(states[k], c, n))
         || (&& c < |states[j].cpus| && Enters(states[j].cpus[c], n) && states[j].cpus[c].pc != User
             && Left(states[j].cpus[c].pc) <= 5 - StepsOf(steps, m, j, c))
    decreases j
  {
    if m == j {
    } else {
      EntersInTime(states, steps, m, j - 1, c, n);
      if k: nat :| m < k <= j - 1 && RunsTask(states[k], c, n) {
        assert m < k <= j;
      } else {
        RunStep(states, steps, j - 1);
        EnterStep(states[j - 1], states[j], steps[j - 1].0, steps[j - 1].1, c, n);
        if states[j].cpus[c].pc == User {
          AssertionsHold(states[j], c);
          assert RunsTask(states[j], c, n);
        }
      }
    }
  }

  /** PICKING: a task that a CPU has picked runs there within five steps of that CPU. */
  lemma PickedRuns(states: seq<State>, steps: seq<(CpuId, Action)>, m: nat, j: nat, c: CpuId, n: TaskId)
    requires Run(states, steps) && m <= j <= |steps| && c < |states[m].cpus| && states[m].cpus[c].pc == Picked(n)
    requires StepsOf(steps, m, j, c) >= 5
    ensures exists k: nat :: m < k <= j && RunsTask(states[k], c, n)
  {
    EntersInTime(states, steps, m, j, c, n);
    if c < |states[j].cpus| && Enters(states[j].cpus[c], n) && states[j].cpus[c].pc != User {
      assert Left(states[j].cpus[c].pc) > 0;
    }
  }

  /** What the code on a CPU may do, at the places where it has a choice. */
  predicate MayDo(s: State, c: CpuId, act: Action)
    requires c < |s.cpus| && s.cpus[c].current < |s.tasks|
  {
    var cpu := s.cpus[c];
    var cur := s.tasks[cpu.current];
    match act
    case Yield => cpu.pc == User
    case Block => cpu.pc == User && !cur.idle
    case Exit => cpu.pc == User && !cur.idle && !cur.init
    case Spawn(t) => cpu.pc == User && t < |s.tasks| && !s.tasks[t].spawned
    case Wake(t, dst) => t < |s.tasks| && dst < |s.cpus|
    case Choose(n) => cpu.pc == Pick && (n in cpu.queue || n == cpu.idle)
    case Go => cpu.pc == ExitNotify
  }

  /** A step that `act` asks for, where there is one. */
  function Chosen(s: State, c: CpuId, act: Action): State
    requires c < |s.cpus| && s.cpus[c].current < |s.tasks| && MayDo(s, c, act)
  {
    var cpu := s.cpus[c];
    match act
    case Yield =>
      if s.tasks[cpu.current].state != Running then Goto(s, c, Pick)
      else Goto(SetState(s, cpu.current, Ready), c, if s.tasks[cpu.current].idle then Pick else YieldPut)
    case Block => Goto(SetState(s, cpu.current, Blocked), c, Pick)
    case Exit => Goto(SetState(s, cpu.current, Exited), c, ExitNotify)
    case Spawn(t) => Enqueue(s.(tasks := s.tasks[t := s.tasks[t].(spawned := true)]), c, t)
    case Wake(t, dst) =>
      if s.tasks[t].state != Blocked then s
      else if s.tasks[t].idle then SetState(s, t, Ready)
      else Goto(SetState(s, t, Ready), c, WakeSpin(t, dst, if cpu.pc == User then ToUser else ToExit))
    case Choose(n) =>
      if n in cpu.queue then SetCpu(s, c, cpu.(queue := cpu.queue - multiset{n}, pc := Picked(n)))
      else Goto(s, c, Picked(n))
    case Go => Goto(s, c, Pick)
  }

  /** EVERY CHOICE IS THERE: a running task can do all of these, an exiting one can wake any
      task or go on, and any queued task can be picked. */
  lemma ChoicesExact(s: State, c: CpuId, act: Action)
    requires WellFormed(s) && c < |s.cpus| && CpuWellFormed(s, c)
    requires s.cpus[c].pc in {User, Pick, ExitNotify}
    ensures (exists s' :: Step(s, s', c, act)) <==> MayDo(s, c, act) && (act.Wake? ==> s.cpus[c].pc != Pick)
  {
    if MayDo(s, c, act) && (act.Wake? ==> s.cpus[c].pc != Pick) {
      assert Step(s, Chosen(s, c, act), c, act);
    }
  }
}
