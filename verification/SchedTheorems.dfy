/** What the placement invariant means for every reachable state. */
module SchedTheorems {
  import opened Wrappers
  import opened TaskTypes
  import opened SchedMachine
  import opened SchedPlacement

  lemma UserKeeps(s: State, s': State, c: CpuId, act: Action, p: seq<Place>) returns (p': seq<Place>)
    requires Inv(s, p) && c < |s.cpus| && s.cpus[c].pc == User && UserStep(s, s', c, act)
    ensures Inv(s', p')
  {
    match act
    case Yield => p' := YieldKeeps(s, s', c, p);
    case Block => p' := StopKeeps(s, s', c, p, act);
    case Exit => p' := StopKeeps(s, s', c, p, act);
    case Spawn(t) => p' := SpawnKeeps(s, s', c, p, t);
    case Wake(t, dst) => p' := WakeKeeps(s, s', c, p, t, dst, ToUser);
    case _ => assert false; p' := p;
  }

  /** Every step keeps the invariant. */
  lemma StepKeeps(s: State, s': State, c: CpuId, act: Action, p: seq<Place>) returns (p': seq<Place>)
    requires Inv(s, p) && Step(s, s', c, act)
    ensures Inv(s', p')
  {
    assert CpuInv(s, p, c);
    match s.cpus[c].pc
    case User => p' := UserKeeps(s, s', c, act, p);
    case YieldPut => p' := YieldPutKeeps(s, s', c, p);
    case Pick => p' := PickKeeps(s, s', c, p, act);
    case Picked(n) => p' := PickedKeeps(s, s', c, p, n);
    case Switch(n) => p' := SwitchKeeps(s, s', c, p, n);
    case Returned(o) =>
      ReturnedNotRunning(s, c, p, o);
      ReturnedKeeps(s, c, p, o);
      p' := p;
    case Handover(o) =>
      HandoverKeeps(s, s', c, p, o);
      p' := p;
    case Resume(switched) => p' := ResumeKeeps(s, s', c, p, switched);
    case WakeSpin(t, dst, back) =>
      if !s.tasks[t].onCpu {
        WakeSpinKeeps(s, c, p, t, dst, back);
      }
      p' := p;
    case WakePut(t, dst, back) => p' := WakePutKeeps(s, s', c, p, t, dst, back);
    case ExitNotify =>
      if act == Go {
        NotifiedKeeps(s, c, p);
        p' := p;
      } else {
        p' := WakeKeeps(s, s', c, p, act.task, act.dst, ToExit);
      }
  }

  /** Where the tasks are at boot. */
  lemma InitHolds(s: State) returns (p: seq<Place>)
    requires Init(s)
    ensures Inv(s, p)
  {
    p := [];
    while |p| < |s.tasks|
      invariant |p| <= |s.tasks|
      invariant forall t :: 0 <= t < |p| ==> BootPlace(s, p[t], t)
    {
      var t := |p|;
      assert BootTask(s, t);
      if s.tasks[t].onCpu {
        var c :| 0 <= c < |s.cpus| && s.cpus[c].current == t;
        p := p + [Place(Active(c), Some(c))];
      } else {
        p := p + [Place(Nowhere, None)];
      }
    }
    forall c | 0 <= c < |s.cpus| ensures CpuInv(s, p, c) {
      assert BootCpu(s, c) && CpuWellFormed(s, c);
      assert BootTask(s, s.cpus[c].current) && BootPlace(s, p[s.cpus[c].current], s.cpus[c].current);
    }
    forall t | 0 <= t < |s.tasks| ensures TaskInv(s, p, t) {
      assert BootTask(s, t) && BootPlace(s, p[t], t);
      if s.tasks[t].onCpu {
        assert BootCpu(s, p[t].loc.cpu);
      }
    }
  }

  ghost predicate BootPlace(s: State, place: Place, t: TaskId)
    requires t < |s.tasks|
  {
    if s.tasks[t].onCpu then
      exists c :: 0 <= c < |s.cpus| && s.cpus[c].current == t && place == Place(Active(c), Some(c))
    else place == Place(Nowhere, None)
  }

  /** A run of the whole machine: the i-th step is taken by CPU `steps[i].0`. */
  ghost predicate Run(states: seq<State>, steps: seq<(CpuId, Action)>) {
    && |states| == |steps| + 1
    && Init(states[0])
    && forall k :: 0 <= k < |steps| ==> StepAt(states, steps, k)
  }

  ghost predicate StepAt(states: seq<State>, steps: seq<(CpuId, Action)>, k: nat) {
    && k < |steps| < |states| && WellFormed(states[k])
    && Step(states[k], states[k + 1], steps[k].0, steps[k].1)
  }

  ghost predicate Reachable(s: State) {
    exists states, steps :: Run(states, steps) && states[|steps|] == s
  }

  lemma {:induction false} RunHolds(states: seq<State>, steps: seq<(CpuId, Action)>, k: nat) returns (p: seq<Place>)
    requires Run(states, steps) && k <= |steps|
    ensures Inv(states[k], p)
  {
    if k == 0 {
      p := InitHolds(states[0]);
    } else {
      p := RunHolds(states, steps, k - 1);
      assert StepAt(states, steps, k - 1);
      p := StepKeeps(states[k - 1], states[k], steps[k - 1].0, steps[k - 1].1, p);
    }
  }

  /** Every reachable state satisfies the invariant. */
  lemma ReachableHolds(s: State) returns (p: seq<Place>)
    requires Reachable(s)
    ensures Inv(s, p)
  {
    var states, steps :| Run(states, steps) && states[|steps|] == s;
    p := RunHolds(states, steps, |steps|);
  }

  /** How often a task is to be found in the ready queue or the hand of a CPU. */
  function Copies(cpu: Cpu, t: TaskId): nat {
    cpu.queue[t] + if Hand(cpu) == Some(t) then 1 else 0
  }

  /** PLACEMENT, currents: a task is current on at most one CPU. */
  lemma CurrentOnce(s: State, c: CpuId, d: CpuId)
    requires Reachable(s) && c < |s.cpus| && d < |s.cpus| && c != d
    ensures s.cpus[c].current != s.cpus[d].current
  {
    var p := ReachableHolds(s);
    assert CpuInv(s, p, c) && CpuInv(s, p, d);
  }

  /** PLACEMENT, queues: a spawned Ready task other than an idle task is in exactly
      one place, once; any other task is in no queue, and in a hand only as the idle
      task just picked. */
  lemma ReadyOnce(s: State, t: TaskId)
    requires Reachable(s) && t < |s.tasks|
    ensures var task := s.tasks[t];
            if task.state == Ready && task.spawned && !task.idle then
              exists c :: 0 <= c < |s.cpus| && Copies(s.cpus[c], t) == 1 && NowhereBut(s, c, t)
            else
              forall c :: 0 <= c < |s.cpus| ==>
                t !in s.cpus[c].queue && (Hand(s.cpus[c]) == Some(t) ==> task.idle && s.cpus[c].pc == Picked(t))
  {
    var p := ReachableHolds(s);
    assert TaskInv(s, p, t);
    forall d | 0 <= d < |s.cpus|
      ensures t in s.cpus[d].queue ==> p[t].loc == Queued(d) && s.cpus[d].queue[t] == 1
      ensures Hand(s.cpus[d]) == Some(t) ==> p[t].loc == InHand(d)
      ensures Hand(s.cpus[d]) == Some(t) && s.tasks[t].idle ==> s.cpus[d].pc == Picked(t)
    {
      assert CpuInv(s, p, d);
    }
    if p[t].loc.Queued? || p[t].loc.InHand? {
      var c := p[t].loc.cpu;
      assert Copies(s.cpus[c], t) == 1 && NowhereBut(s, c, t);
    }
  }

  ghost predicate NowhereBut(s: State, c: CpuId, t: TaskId) {
    forall d :: 0 <= d < |s.cpus| && d != c ==> Copies(s.cpus[d], t) == 0
  }

  /** The assertions in the scheduler code never fail: the caller of yield, block and
      exit is Running, the picked task is Ready, the switch after an exit or a block
      always finds another task, and a coroutine that returned is not Running. */
  lemma AssertionsHold(s: State, c: CpuId)
    requires Reachable(s) && c < |s.cpus|
    ensures WellFormed(s)
    ensures CpuWellFormed(s, c)
    ensures s.cpus[c].pc == User ==> s.tasks[s.cpus[c].current].state == Running
    ensures s.cpus[c].pc.Picked? ==> s.tasks[s.cpus[c].pc.next].state == Ready
    ensures s.cpus[c].pc.Picked? && s.tasks[s.cpus[c].current].state in {Exited, Blocked} ==>
              s.cpus[c].pc.next != s.cpus[c].current
    ensures s.cpus[c].pc.Returned? ==> s.tasks[s.cpus[c].pc.was].state != Running
    ensures forall t :: 0 <= t < |s.tasks| && !s.tasks[t].spawned ==> s.tasks[t].state == Ready
  {
    var p := ReachableHolds(s);
    assert CpuInv(s, p, c);
    assert TaskInv(s, p, s.cpus[c].current);
    if s.cpus[c].pc.Picked? {
      var n := s.cpus[c].pc.next;
      assert TaskInv(s, p, n);
    } else if s.cpus[c].pc.Returned? {
      ReturnedNotRunning(s, c, p, s.cpus[c].pc.was);
    }
    forall t | 0 <= t < |s.tasks| && !s.tasks[t].spawned ensures s.tasks[t].state == Ready {
      assert TaskInv(s, p, t);
    }
  }

  /** An exited task stays exited, whatever any CPU does. */
  lemma ExitedForever(s: State, s': State, c: CpuId, act: Action, t: TaskId)
    requires Reachable(s) && WellFormed(s) && Step(s, s', c, act) && t < |s.tasks| && s.tasks[t].state == Exited
    ensures t < |s'.tasks| && s'.tasks[t].state == Exited
  {
    AssertionsHold(s, c);
  }
}
