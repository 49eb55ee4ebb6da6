/** The coroutine stacks: who has them, and that one per CPU is enough. */
module SchedStacks {
  import opened Wrappers
  import opened TaskTypes
  import opened SchedMachine
  import opened SchedPlacement
  import opened SchedTheorems

  /** The coroutine running on the CPU's stack, or just about to hand it over. */
  function Holder(cpu: Cpu, tasks: seq<Task>): Option<TaskId> {
    match cpu.pc
    case Returned(o) => Some(o)
    case Handover(o) => Some(o)
    case _ => if cpu.current < |tasks| && tasks[cpu.current].coroutine then Some(cpu.current) else None
  }

  /** A CPU has created at most one coroutine stack, and it is with the holder if
      there is one and in the pool otherwise. */
  ghost predicate PoolInv(s: State, c: CpuId)
    requires c < |s.cpus|
  {
    var cpu := s.cpus[c];
    match Holder(cpu, s.tasks)
    case Some(h) =>
      cpu.created == 1 && cpu.pool == [] && h < |s.tasks| && s.tasks[h].kstack == Some(Pooled(c, 0))
    case None =>
      cpu.created <= 1 && cpu.pool == if cpu.created == 0 then [] else [Pooled(c, 0)]
  }

  ghost predicate HeldSomewhere(s: State, t: TaskId) {
    exists c :: 0 <= c < |s.cpus| && Holder(s.cpus[c], s.tasks) == Some(t)
  }

  /** A coroutine has a stack only while some CPU runs it; other tasks keep their own. */
  ghost predicate KstackInv(s: State, t: TaskId)
    requires t < |s.tasks|
  {
    var task := s.tasks[t];
    if task.coroutine then task.kstack.Some? ==> HeldSomewhere(s, t)
    else task.kstack == if task.init then None else Some(Private(t))
  }

  ghost predicate StackInv(s: State) {
    && (forall c :: 0 <= c < |s.cpus| ==> PoolInv(s, c))
    && (forall t :: 0 <= t < |s.tasks| ==> KstackInv(s, t))
  }

  /** A holder is at home on its CPU, so no two CPUs have the same one. */
  lemma HolderHome(s: State, p: seq<Place>, c: CpuId)
    requires Inv(s, p) && c < |s.cpus|
    ensures var h := Holder(s.cpus[c], s.tasks);
            h.Some? ==> h.value < |p| && p[h.value].home == Some(c) && s.tasks[h.value].coroutine
  {
    assert CpuInv(s, p, c);
  }

  /** Stacks, pools and holders are the same in both states. */
  ghost predicate StacksUnchanged(s: State, s': State) {
    && |s'.cpus| == |s.cpus| && |s'.tasks| == |s.tasks|
    && (forall c {:trigger s'.cpus[c]} :: 0 <= c < |s.cpus| ==>
          && s'.cpus[c].pool == s.cpus[c].pool && s'.cpus[c].created == s.cpus[c].created
          && Holder(s'.cpus[c], s'.tasks) == Holder(s.cpus[c], s.tasks))
    && (forall t {:trigger s'.tasks[t]} :: 0 <= t < |s.tasks| ==>
          s'.tasks[t].kstack == s.tasks[t].kstack && SameKind(s.tasks[t], s'.tasks[t]))
  }

  lemma UnchangedKeeps(s: State, s': State)
    requires StackInv(s) && StacksUnchanged(s, s')
    ensures StackInv(s')
  {
    forall c | 0 <= c < |s'.cpus| ensures PoolInv(s', c) {
      assert PoolInv(s, c);
    }
    forall t | 0 <= t < |s'.tasks| ensures KstackInv(s', t) {
      assert KstackInv(s, t);
      if s.tasks[t].coroutine && s.tasks[t].kstack.Some? {
        var c :| 0 <= c < |s.cpus| && Holder(s.cpus[c], s.tasks) == Some(t);
        assert Holder(s'.cpus[c], s'.tasks) == Some(t);
      }
    }
  }

  /** CPU `c` moved between two places at which its holder is the current coroutine,
      and maybe the queue of another CPU changed; task fields other than stacks may. */
  lemma QuietMove(s: State, s': State, c: CpuId)
    requires c < |s.cpus| == |s'.cpus| && |s'.tasks| == |s.tasks|
    requires forall d :: 0 <= d < |s.cpus| ==> SameButQueue(s.cpus[d], s'.cpus[d], d == c)
    requires forall t :: 0 <= t < |s.tasks| ==>
               s'.tasks[t].kstack == s.tasks[t].kstack && SameKind(s.tasks[t], s'.tasks[t])
    ensures StacksUnchanged(s, s')
  {
  }

  predicate AtCoroutine(pc: Pc) { !pc.Returned? && !pc.Handover? }

  predicate SameButQueue(cpu: Cpu, cpu': Cpu, moves: bool) {
    && cpu'.current == cpu.current && cpu'.pool == cpu.pool && cpu'.created == cpu.created
    && (cpu'.pc == cpu.pc || (moves && AtCoroutine(cpu.pc) && AtCoroutine(cpu'.pc)))
  }

  lemma QuietUser(s: State, s': State, c: CpuId, act: Action)
    requires WellFormed(s) && c < |s.cpus| && s.cpus[c].pc == User && UserStep(s, s', c, act)
    ensures StacksUnchanged(s, s')
  {
    QuietMove(s, s', c);
  }

  lemma QuietWake(s: State, s': State, c: CpuId, act: Action)
    requires WellFormed(s) && Step(s, s', c, act)
    requires s.cpus[c].pc.WakeSpin? || s.cpus[c].pc.WakePut? || s.cpus[c].pc.ExitNotify?
    ensures StacksUnchanged(s, s')
  {
    QuietMove(s, s', c);
  }

  lemma QuietPick(s: State, s': State, c: CpuId, act: Action)
    requires WellFormed(s) && Step(s, s', c, act)
    requires s.cpus[c].pc.YieldPut? || s.cpus[c].pc.Pick? || s.cpus[c].pc.Picked?
    ensures StacksUnchanged(s, s')
  {
    QuietMove(s, s', c);
  }

  lemma QuietResume(s: State, s': State, c: CpuId, switched: bool)
    requires WellFormed(s) && c < |s.cpus| && s.cpus[c].pc == Resume(switched) && ResumeStep(s, s', c, switched)
    ensures StacksUnchanged(s, s')
  {
    QuietMove(s, s', c);
  }

  /** A coroutine that no CPU has at home has no stack. */
  lemma HomelessIsBare(s: State, p: seq<Place>, n: TaskId)
    requires Inv(s, p) && StackInv(s) && n < |p| && s.tasks[n].coroutine
    requires forall c :: 0 <= c < |s.cpus| && p[n].home == Some(c) ==> Holder(s.cpus[c], s.tasks) != Some(n)
    ensures s.tasks[n].kstack == None
  {
    assert KstackInv(s, n);
    if s.tasks[n].kstack.Some? {
      var c :| 0 <= c < |s.cpus| && Holder(s.cpus[c], s.tasks) == Some(n);
      HolderHome(s, p, c);
    }
  }

  /** Only CPU `c` and the tasks `n` and `o` are concerned by this step. */
  lemma MovedKeeps(s: State, s': State, c: CpuId, n: TaskId, o: TaskId)
    requires StackInv(s) && c < |s.cpus| && |s'.cpus| == |s.cpus| && |s'.tasks| == |s.tasks|
    requires s'.cpus == s.cpus[c := s'.cpus[c]]
    requires forall t :: 0 <= t < |s.tasks| ==>
               SameKind(s.tasks[t], s'.tasks[t]) && (t != n && t != o ==> s'.tasks[t].kstack == s.tasks[t].kstack)
    requires forall d :: 0 <= d < |s.cpus| && d != c ==>
               Holder(s.cpus[d], s.tasks) != Some(n) && Holder(s.cpus[d], s.tasks) != Some(o)
    requires forall t :: 0 <= t < |s.tasks| && t != n && t != o && Holder(s.cpus[c], s.tasks) == Some(t) ==>
               Holder(s'.cpus[c], s'.tasks) == Some(t)
    requires PoolInv(s', c)
    requires n < |s.tasks| ==> KstackInv(s', n)
    requires o < |s.tasks| ==> KstackInv(s', o)
    ensures StackInv(s')
  {
    forall d | 0 <= d < |s'.cpus| && d != c ensures Holder(s'.cpus[d], s'.tasks) == Holder(s.cpus[d], s.tasks) {
      assert s'.cpus[d] == s.cpus[d];
    }
    forall d | 0 <= d < |s'.cpus| ensures PoolInv(s', d) {
      assert PoolInv(s, d);
    }
    forall t | 0 <= t < |s'.tasks| ensures KstackInv(s', t) {
      assert KstackInv(s, t);
      if t != n && t != o && s.tasks[t].coroutine && s.tasks[t].kstack.Some? {
        var d :| 0 <= d < |s.cpus| && Holder(s.cpus[d], s.tasks) == Some(t);
        assert Holder(s'.cpus[d], s'.tasks) == Some(t);
      }
    }
  }

  lemma SwitchStacks(s: State, s': State, c: CpuId, n: TaskId, p: seq<Place>)
    requires Inv(s, p) && StackInv(s) && c < |s.cpus| && s.cpus[c].pc == Switch(n) && n < |s.tasks|
    requires SwitchStep(s, s', c, n)
    ensures StackInv(s')
  {
    assert CpuInv(s, p, c) && TaskInv(s, p, n);
    assert PoolInv(s, c) && KstackInv(s, n);
    if s.tasks[n].coroutine {
      HomelessIsBare(s, p, n);
    }
    forall d | 0 <= d < |s.cpus| ensures Holder(s.cpus[d], s.tasks) != Some(n) {
      HolderHome(s, p, d);
    }
    assert Holder(s'.cpus[c], s'.tasks) ==
           if s.tasks[s.cpus[c].current].coroutine then Some(s.cpus[c].current)
           else if s.tasks[n].coroutine then Some(n) else None;
    MovedKeeps(s, s', c, n, n);
  }

  lemma HandoverStacks(s: State, s': State, c: CpuId, o: TaskId, p: seq<Place>)
    requires Inv(s, p) && StackInv(s) && c < |s.cpus| && s.cpus[c].pc == Handover(o) && o < |s.tasks|
    requires HandoverStep(s, s', c, o)
    ensures StackInv(s')
  {
    var n := s.cpus[c].current;
    assert CpuInv(s, p, c) && TaskInv(s, p, n);
    assert PoolInv(s, c) && KstackInv(s, n) && KstackInv(s, o);
    if s.tasks[n].coroutine {
      HomelessIsBare(s, p, n);
    }
    forall d | 0 <= d < |s.cpus| && d != c
      ensures Holder(s.cpus[d], s.tasks) != Some(n) && Holder(s.cpus[d], s.tasks) != Some(o)
    {
      HolderHome(s, p, d);
    }
    assert Holder(s'.cpus[c], s'.tasks) == if s.tasks[n].coroutine then Some(n) else None;
    MovedKeeps(s, s', c, n, o);
  }

  lemma StepStacks(s: State, s': State, c: CpuId, act: Action, p: seq<Place>)
    requires Inv(s, p) && StackInv(s) && Step(s, s', c, act)
    ensures StackInv(s')
  {
    assert CpuInv(s, p, c);
    match s.cpus[c].pc
    case Switch(n) => SwitchStacks(s, s', c, n, p);
    case Handover(o) => HandoverStacks(s, s', c, o, p);
    case User =>
      QuietUser(s, s', c, act);
      UnchangedKeeps(s, s');
    case Returned(o) =>
      ReturnedNotRunning(s, c, p, o);
      assert StacksUnchanged(s, s');
      UnchangedKeeps(s, s');
    case Resume(switched) =>
      QuietResume(s, s', c, switched);
      UnchangedKeeps(s, s');
    case YieldPut | Pick | Picked(_) =>
      QuietPick(s, s', c, act);
      UnchangedKeeps(s, s');
    case WakeSpin(_, _, _) | WakePut(_, _, _) | ExitNotify =>
      QuietWake(s, s', c, act);
      UnchangedKeeps(s, s');
  }

  lemma InitStacks(s: State)
    requires Init(s)
    ensures StackInv(s)
  {
    forall c | 0 <= c < |s.cpus| ensures PoolInv(s, c) {
      assert BootCpu(s, c) && BootTask(s, s.cpus[c].current);
    }
    forall t | 0 <= t < |s.tasks| ensures KstackInv(s, t) {
      assert BootTask(s, t);
    }
  }

  lemma {:induction false} RunStacks(states: seq<State>, steps: seq<(CpuId, Action)>, k: nat)
    requires Run(states, steps) && k <= |steps|
    ensures StackInv(states[k])
  {
    if k == 0 {
      InitStacks(states[0]);
    } else {
      RunStacks(states, steps, k - 1);
      var p := RunHolds(states, steps, k - 1);
      assert StepAt(states, steps, k - 1);
      StepStacks(states[k - 1], states[k], steps[k - 1].0, steps[k - 1].1, p);
    }
  }

  /** STACKS: in every reachable state each CPU has created at most one coroutine
      stack and has it in its pool, or with the coroutine it runs or is just leaving;
      taking that stack at a handover never fails; and a coroutine that is on no CPU
      has none. */
  lemma OneStackPerCpu(s: State)
    requires Reachable(s)
    ensures forall c :: 0 <= c < |s.cpus| ==> PoolInv(s, c)
    ensures forall c :: 0 <= c < |s.cpus| ==> s.cpus[c].created <= 1
    ensures forall c :: 0 <= c < |s.cpus| && s.cpus[c].pc.Handover? ==>
              s.cpus[c].pc.was < |s.tasks| && s.tasks[s.cpus[c].pc.was].kstack == Some(Pooled(c, 0))
    ensures forall t :: 0 <= t < |s.tasks| && s.tasks[t].coroutine && !s.tasks[t].onCpu ==> s.tasks[t].kstack == None
  {
    var states, steps :| Run(states, steps) && states[|steps|] == s;
    RunStacks(states, steps, |steps|);
    var p := RunHolds(states, steps, |steps|);
    forall c | 0 <= c < |s.cpus| ensures s.cpus[c].created <= 1 {
      assert PoolInv(s, c);
    }
    forall c | 0 <= c < |s.cpus| && s.cpus[c].pc.Handover?
      ensures s.cpus[c].pc.was < |s.tasks| && s.tasks[s.cpus[c].pc.was].kstack == Some(Pooled(c, 0))
    {
      assert PoolInv(s, c);
    }
    forall t | 0 <= t < |s.tasks| && s.tasks[t].coroutine && !s.tasks[t].onCpu ensures s.tasks[t].kstack == None {
      assert TaskInv(s, p, t);
      HomelessIsBare(s, p, t);
    }
  }

  /** NEVER STUCK: at every code position a CPU can go on. In particular the stack and the
      previous task are there to be taken; a spinning waker goes on spinning. */
  lemma NeverStuck(s: State, c: CpuId) returns (s': State, act: Action)
    requires Reachable(s) && c < |s.cpus|
    ensures WellFormed(s) && Step(s, s', c, act)
  {
    OneStackPerCpu(s);
    var p := ReachableHolds(s);
    assert CpuInv(s, p, c);
    var cpu := s.cpus[c];
    act := Go;
    match cpu.pc
    case User =>
      act := Yield;
      s' := if s.tasks[cpu.current].state == Running then
              Goto(SetState(s, cpu.current, Ready), c, if s.tasks[cpu.current].idle then Pick else YieldPut)
            else Goto(s, c, Pick);
    case YieldPut => s' := Goto(Enqueue(s, c, cpu.current), c, Pick);
    case Pick =>
      act := Choose(cpu.idle);
      s' := if cpu.idle in cpu.queue then
              SetCpu(s, c, cpu.(queue := cpu.queue - multiset{cpu.idle}, pc := Picked(cpu.idle)))
            else Goto(s, c, Picked(cpu.idle));
    case Picked(n) =>
      s' := Goto(SetState(s, n, Running), c,
                 if n != cpu.current then Switch(n)
                 else if s.tasks[cpu.current].coroutine then User else Resume(false));
    case Switch(n) => s' := AfterSwitch(s, c, n);
    case Returned(o) =>
      s' := if s.tasks[o].state == Running then Goto(SetState(s, o, Blocked), c, Pick) else Goto(s, c, Handover(o));
    case Handover(o) => s' := AfterHandover(s, c, o);
    case Resume(switched) =>
      s' := if switched then
              State(s.cpus[c := cpu.(prev := None, pc := User)],
                    s.tasks[cpu.prev.value := s.tasks[cpu.prev.value].(onCpu := false)])
            else Goto(s, c, User);
    case WakeSpin(t, dst, back) => s' := if s.tasks[t].onCpu then s else Goto(s, c, WakePut(t, dst, back));
    case WakePut(t, dst, back) => s' := Goto(Enqueue(s, dst, t), c, BackPc(back));
    case ExitNotify => s' := Goto(s, c, Pick);
  }

  lemma AfterSwitch(s: State, c: CpuId, n: TaskId) returns (s': State)
    requires WellFormed(s) && c < |s.cpus| && n < |s.tasks|
    ensures SwitchStep(s, s', c, n)
  {
    var cpu := s.cpus[c];
    var next := s.tasks[n].(onCpu := true);
    var cpu' := cpu.(current := n, prev := Some(cpu.current));
    if s.tasks[cpu.current].coroutine {
      s' := State(s.cpus[c := cpu'.(pc := Returned(cpu.current))], s.tasks[n := next]);
    } else if !NeedsStack(next) {
      s' := State(s.cpus[c := cpu'.(pc := Resume(true))], s.tasks[n := next]);
    } else if cpu.pool != [] {
      s' := State(s.cpus[c := cpu'.(pc := Resume(true), pool := cpu.pool[..|cpu.pool| - 1])],
                  s.tasks[n := next.(kstack := Some(cpu.pool[|cpu.pool| - 1]))]);
    } else {
      s' := State(s.cpus[c := cpu'.(pc := Resume(true), created := cpu.created + 1)],
                  s.tasks[n := next.(kstack := Some(Pooled(c, cpu.created)))]);
    }
  }

  lemma AfterHandover(s: State, c: CpuId, o: TaskId) returns (s': State)
    requires WellFormed(s) && c < |s.cpus| && o < |s.tasks| && s.tasks[o].kstack.Some?
    ensures HandoverStep(s, s', c, o)
  {
    var cpu := s.cpus[c];
    var stack := s.tasks[o].kstack;
    var taken := s.tasks[o := s.tasks[o].(kstack := None)];
    if NeedsStack(taken[cpu.current]) {
      s' := State(s.cpus[c := cpu.(pc := Resume(true))],
                  taken[cpu.current := taken[cpu.current].(kstack := stack)]);
    } else {
      s' := State(s.cpus[c := cpu.(pc := Resume(true), pool := cpu.pool + [stack.value])], taken);
    }
  }
}
