/** The `on_cpu` handshake between a waker and the CPU still leaving the woken task. */
module SchedHandshake {
  import opened Wrappers
  import opened TaskTypes
  import opened SchedMachine
  import opened SchedPlacement
  import opened SchedTheorems

  /** HANDSHAKE: whoever is about to be enqueued by a waker, or switched to, is not
      in use on any other CPU; a mark is set exactly while some CPU uses the task. */
  lemma Handshake(s: State, c: CpuId)
    requires Reachable(s) && c < |s.cpus|
    ensures s.cpus[c].pc.WakePut? ==> forall d :: 0 <= d < |s.cpus| ==> !Occupies(s.cpus[d], s.cpus[c].pc.task)
    ensures s.cpus[c].pc.Picked? || s.cpus[c].pc.Switch? ==>
              forall d :: 0 <= d < |s.cpus| && d != c ==> !Occupies(s.cpus[d], s.cpus[c].pc.next)
    ensures forall t :: 0 <= t < |s.tasks| ==>
              (s.tasks[t].onCpu <==> exists d :: 0 <= d < |s.cpus| && Occupies(s.cpus[d], t))
  {
    var p := ReachableHolds(s);
    assert CpuInv(s, p, c);
    forall d | 0 <= d < |s.cpus|
      ensures forall t: TaskId :: Occupies(s.cpus[d], t) ==> t < |p| && p[t].home == Some(d)
    {
      assert CpuInv(s, p, d);
    }
    forall t | 0 <= t < |s.tasks|
      ensures s.tasks[t].onCpu <==> exists d :: 0 <= d < |s.cpus| && Occupies(s.cpus[d], t)
    {
      assert TaskInv(s, p, t);
    }
  }

  /** The steps a CPU still has to take until it has left the task it gave up. */
  function Rank(pc: Pc): nat {
    match pc
    case Pick => 6
    case Picked(_) => 5
    case Switch(_) => 4
    case Returned(_) => 3
    case Handover(_) => 2
    case Resume(_) => 1
    case _ => 0
  }

  /** NO CIRCULAR WAIT: a waker spins only on a CPU that is on its way out of the
      task, and so does not spin itself. */
  lemma AwaitedIsLeaving(s: State, c: CpuId) returns (d: CpuId)
    requires Reachable(s) && c < |s.cpus| && s.cpus[c].pc.WakeSpin?
    requires s.cpus[c].pc.task < |s.tasks| && s.tasks[s.cpus[c].pc.task].onCpu
    ensures d < |s.cpus| && d != c && Occupies(s.cpus[d], s.cpus[c].pc.task) && Rank(s.cpus[d].pc) > 0
  {
    var p := ReachableHolds(s);
    var t := s.cpus[c].pc.task;
    assert CpuInv(s, p, c);
    assert TaskInv(s, p, t);
    d := p[t].home.value;
    assert CpuInv(s, p, d);
  }

  /** A task some CPU is waking is Ready, and no other CPU has it in hand. */
  lemma WokenIsApart(s: State, c: CpuId, d: CpuId)
    requires Reachable(s) && c < |s.cpus| && d < |s.cpus| && c != d && s.cpus[c].pc.WakeSpin?
    ensures WellFormed(s) && CpuWellFormed(s, d)
    ensures var t := s.cpus[c].pc.task;
            && t < |s.tasks| && Hand(s.cpus[d]) != Some(t) && Runs(s.cpus[d]) != Some(t)
    ensures Leaving(s.cpus[d]) ==> s.cpus[d].prev.Some? && s.cpus[d].prev.value != s.cpus[d].current
    ensures s.cpus[d].pc.Returned? ==> s.tasks[s.cpus[d].pc.was].state != Running
  {
    var p := ReachableHolds(s);
    assert CpuInv(s, p, c) && CpuInv(s, p, d);
    if s.cpus[d].pc.Returned? {
      ReturnedNotRunning(s, d, p, s.cpus[d].pc.was);
    }
  }

  /** The awaited CPU is done with the task after at most `Rank` steps of its own. */
  lemma AwaitedAdvances(s: State, s': State, c: CpuId, d: CpuId, act: Action)
    requires Reachable(s) && WellFormed(s) && c < |s.cpus| && d < |s.cpus| && c != d && s.cpus[c].pc.WakeSpin?
    requires Occupies(s.cpus[d], s.cpus[c].pc.task) && Rank(s.cpus[d].pc) > 0
    requires Step(s, s', d, act)
    ensures d < |s'.cpus|
    ensures Occupies(s'.cpus[d], s.cpus[c].pc.task) ==> 0 < Rank(s'.cpus[d].pc) < Rank(s.cpus[d].pc)
  {
    WokenIsApart(s, c, d);
  }

  /** Steps of other CPUs neither move the awaited CPU nor free the task under it. */
  lemma OthersDoNotMoveIt(s: State, s': State, d: CpuId, e: CpuId, act: Action)
    requires WellFormed(s) && Step(s, s', e, act) && d < |s.cpus| && d != e
    ensures d < |s'.cpus| && s'.cpus[d].pc == s.cpus[d].pc
    ensures s'.cpus[d].current == s.cpus[d].current && s'.cpus[d].prev == s.cpus[d].prev
  {
  }

  /** Every current task is marked as on a CPU. */
  ghost predicate CurrentsMarked(s: State)
    requires WellFormed(s)
  {
    forall d :: 0 <= d < |s.cpus| ==> CpuWellFormed(s, d) && s.tasks[s.cpus[d].current].onCpu
  }

  /** TAKE ONCE PER SWITCH: at the recovery point the code as written finds an
      initialised `prev_task` and leaves all current tasks marked exactly when the
      switch before it changed the task. */
  lemma TakePrevExact(s: State, c: CpuId, switched: bool)
    requires Reachable(s) && WellFormed(s) && c < |s.cpus| && s.cpus[c].pc == Resume(switched)
    ensures switched <==> exists s' :: WellFormed(s') && TakePrev(s, s', c) && CurrentsMarked(s')
  {
    var p := ReachableHolds(s);
    assert CpuInv(s, p, c);
    var cpu := s.cpus[c];
    if cpu.prev.Some? {
      var s' := State(s.cpus[c := cpu.(prev := None, pc := User)],
                      s.tasks[cpu.prev.value := s.tasks[cpu.prev.value].(onCpu := false)]);
      if switched {
        forall d | 0 <= d < |s'.cpus| ensures CpuWellFormed(s', d) && s'.tasks[s'.cpus[d].current].onCpu {
          assert CpuInv(s, p, d);
          assert TaskInv(s, p, s.cpus[d].current);
        }
        assert TakePrev(s, s', c) && CurrentsMarked(s');
      } else {
        forall s'' | WellFormed(s'') && TakePrev(s, s'', c) ensures !CurrentsMarked(s'') {
          assert !s''.tasks[s''.cpus[c].current].onCpu;
        }
      }
    }
  }

  /** One CPU with its main thread and its idle thread. */
  function Solo(pc: Pc, queue: multiset<TaskId>, state: TaskState): State {
    State([Cpu(0, Some(0), 1, queue, pc, [], 0)],
          [Task(false, false, true, true, state, true, None),
           Task(false, true, false, true, Ready, false, Some(Private(1)))])
  }

  lemma SoloBoots()
    ensures Init(Solo(User, multiset{}, Running))
  {
    var s := Solo(User, multiset{}, Running);
    assert s.cpus[0].current == 0 && s.cpus[0].idle == 1;
    assert BootCpu(s, 0) && BootTask(s, 0) && BootTask(s, 1);
  }

  lemma SoloYields()
    ensures Step(Solo(User, multiset{}, Running), Solo(YieldPut, multiset{}, Ready), 0, Yield)
    ensures Step(Solo(YieldPut, multiset{}, Ready), Solo(Pick, multiset{0}, Ready), 0, Go)
    ensures Step(Solo(Pick, multiset{0}, Ready), Solo(Picked(0), multiset{}, Ready), 0, Choose(0))
    ensures Step(Solo(Picked(0), multiset{}, Ready), Solo(Resume(false), multiset{}, Running), 0, Go)
  {
    var s1, s2 := Solo(YieldPut, multiset{}, Ready), Solo(Pick, multiset{0}, Ready);
    assert multiset{} + multiset{0} == multiset{0} && multiset{0} - multiset{0} == multiset{};
    assert s2 == Goto(Enqueue(s1, 0, 0), 0, Pick);
  }

  /** The other case happens: with nothing else to run, a thread that yields switches
      to itself, and the take that follows clears the mark of the running task. */
  lemma SelfSwitchHappens() returns (s: State)
    ensures Reachable(s) && |s.cpus| == 1 && s.cpus[0].pc == Resume(false)
  {
    SoloBoots();
    SoloYields();
    s := Solo(Resume(false), multiset{}, Running);
    var states := [Solo(User, multiset{}, Running), Solo(YieldPut, multiset{}, Ready),
                   Solo(Pick, multiset{0}, Ready), Solo(Picked(0), multiset{}, Ready), s];
    var steps := [(0, Yield), (0, Go), (0, Choose(0)), (0, Go)];
    forall k | 0 <= k < |steps|
      ensures StepAt(states, steps, k)
    {
      assert k == 0 || k == 1 || k == 2 || k == 3;
    }
    assert Run(states, steps);
  }
}
