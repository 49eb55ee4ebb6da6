/** The multi-CPU scheduler as a step system, one step per access to a shared task
    field or ready queue. The ready queues are policy-free: a pick may return any
    queued task, or none. */
module SchedMachine {
  import opened Wrappers
  import opened TaskTypes

  type CpuId = nat

  /** A kernel stack: a thread's own, or the n-th one a CPU allocated for coroutines. */
  datatype Stack = Private(task: TaskId) | Pooled(cpu: CpuId, n: nat)

  datatype Task = Task(coroutine: bool, idle: bool, init: bool, spawned: bool,
                       state: TaskState, onCpu: bool, kstack: Option<Stack>)

  /** Where a waker goes on afterwards: back to user code, or to its own exit. */
  datatype Back = ToUser | ToExit

  /** Where a CPU stands in the scheduler code. */
  datatype Pc =
    | User                                            // running the current task
    | YieldPut                                        // state set to Ready, not yet enqueued
    | Pick                                            // about to ask the ready queue
    | Picked(next: TaskId)                            // next task in hand
    | Switch(next: TaskId)                            // next task marked Running
    | Returned(was: TaskId)                           // a coroutine's poll returned after resched_f
    | Handover(was: TaskId)                           // about to take the old coroutine's stack
    | Resume(switched: bool)                          // recovery point of the task now running
    | WakeSpin(task: TaskId, dst: CpuId, back: Back)  // waiting for the woken task to leave its CPU
    | WakePut(task: TaskId, dst: CpuId, back: Back)   // about to enqueue the woken task
    | ExitNotify                                      // state set to Exited, waking the joiners

  datatype Cpu = Cpu(current: TaskId, prev: Option<TaskId>, idle: TaskId,
                     queue: multiset<TaskId>, pc: Pc, pool: seq<Stack>, created: nat)

  datatype State = State(cpus: seq<Cpu>, tasks: seq<Task>)

  /** What the code on a CPU does next, where there is a choice. */
  datatype Action =
    | Yield
    | Block
    | Exit
    | Spawn(task: TaskId)
    | Wake(task: TaskId, dst: CpuId)
    | Choose(next: TaskId)
    | Go

  ghost predicate WellFormed(s: State) {
    forall c {:trigger s.cpus[c]} :: 0 <= c < |s.cpus| ==> CpuWellFormed(s, c)
  }

  ghost predicate CpuWellFormed(s: State, c: CpuId)
    requires c < |s.cpus|
  {
    var cpu := s.cpus[c];
    && cpu.current < |s.tasks| && cpu.idle < |s.tasks|
    && (cpu.prev.Some? ==> cpu.prev.value < |s.tasks|)
    && match cpu.pc
       case Picked(n) => n < |s.tasks|
       case Switch(n) => n < |s.tasks|
       case Returned(o) => o < |s.tasks|
       case Handover(o) => o < |s.tasks|
       case WakeSpin(t, dst, _) => t < |s.tasks| && dst < |s.cpus|
       case WakePut(t, dst, _) => t < |s.tasks| && dst < |s.cpus|
       case _ => true
  }

  function SetCpu(s: State, c: CpuId, cpu: Cpu): State
    requires c < |s.cpus|
  {
    s.(cpus := s.cpus[c := cpu])
  }

  function Goto(s: State, c: CpuId, pc: Pc): State
    requires c < |s.cpus|
  {
    SetCpu(s, c, s.cpus[c].(pc := pc))
  }

  function SetState(s: State, t: TaskId, state: TaskState): State
    requires t < |s.tasks|
  {
    s.(tasks := s.tasks[t := s.tasks[t].(state := state)])
  }

  function Enqueue(s: State, c: CpuId, t: TaskId): State
    requires c < |s.cpus|
  {
    SetCpu(s, c, s.cpus[c].(queue := s.cpus[c].queue + multiset{t}))
  }

  function BackPc(back: Back): Pc { if back == ToUser then User else ExitNotify }

  /** One step of the code running on CPU `c`. */
  ghost predicate Step(s: State, s': State, c: CpuId, act: Action)
    requires WellFormed(s)
  {
    && c < |s.cpus|
    && match s.cpus[c].pc
       case User => UserStep(s, s', c, act)
       case YieldPut => act == Go && s' == Goto(Enqueue(s, c, s.cpus[c].current), c, Pick)
       case Pick => PickStep(s, s', c, act)
       case Picked(n) => act == Go && PickedStep(s, s', c, n)
       case Switch(n) => act == Go && SwitchStep(s, s', c, n)
       case Returned(o) =>
         && act == Go
         && s' == (if s.tasks[o].state == Running then Goto(SetState(s, o, Blocked), c, Pick)
                   else Goto(s, c, Handover(o)))
       case Handover(o) => act == Go && HandoverStep(s, s', c, o)
       case Resume(switched) => act == Go && ResumeStep(s, s', c, switched)
       case WakeSpin(t, dst, back) =>
         act == Go && s' == (if s.tasks[t].onCpu then s else Goto(s, c, WakePut(t, dst, back)))
       case WakePut(t, dst, back) => act == Go && s' == Goto(Enqueue(s, dst, t), c, BackPc(back))
       case ExitNotify =>
         || (act == Go && s' == Goto(s, c, Pick))
         || (act.Wake? && WakeStep(s, s', c, act.task, act.dst, ToExit))
  }

  ghost predicate UserStep(s: State, s': State, c: CpuId, act: Action)
    requires WellFormed(s) && c < |s.cpus|
  {
    var cur := s.cpus[c].current;
    match act
    case Yield =>
      // compare-and-swap Running -> Ready, then enqueue unless idle
      if s.tasks[cur].state == Running then
        s' == Goto(SetState(s, cur, Ready), c, if s.tasks[cur].idle then Pick else YieldPut)
      else s' == Goto(s, c, Pick)
    case Block =>
      !s.tasks[cur].idle && s' == Goto(SetState(s, cur, Blocked), c, Pick)
    case Exit =>
      && !s.tasks[cur].idle && !s.tasks[cur].init
      && s' == Goto(SetState(s, cur, Exited), c, ExitNotify)
    case Spawn(t) =>
      && t < |s.tasks| && !s.tasks[t].spawned
      && s' == Enqueue(s.(tasks := s.tasks[t := s.tasks[t].(spawned := true)]), c, t)
    case Wake(t, dst) => WakeStep(s, s', c, t, dst, ToUser)
    case _ => false
  }

  /** Compare-and-swap Blocked -> Ready; only the winner goes on. */
  ghost predicate WakeStep(s: State, s': State, c: CpuId, t: TaskId, dst: CpuId, back: Back)
    requires c < |s.cpus|
  {
    && t < |s.tasks| && dst < |s.cpus|
    && if s.tasks[t].state != Blocked then s' == s
       else if s.tasks[t].idle then s' == SetState(s, t, Ready)
       else s' == Goto(SetState(s, t, Ready), c, WakeSpin(t, dst, back))
  }

  /** The ready queue yields one of its tasks, or nothing and the idle task is taken. */
  ghost predicate PickStep(s: State, s': State, c: CpuId, act: Action)
    requires c < |s.cpus|
  {
    var cpu := s.cpus[c];
    && act.Choose?
    && if act.next in cpu.queue then
         s' == SetCpu(s, c, cpu.(queue := cpu.queue - multiset{act.next}, pc := Picked(act.next)))
       else act.next == cpu.idle && s' == Goto(s, c, Picked(act.next))
  }

  ghost predicate PickedStep(s: State, s': State, c: CpuId, n: TaskId)
    requires WellFormed(s) && c < |s.cpus| && n < |s.tasks|
  {
    var cur := s.cpus[c].current;
    var pc := if n != cur then Switch(n) else if s.tasks[cur].coroutine then User else Resume(false);
    s' == Goto(SetState(s, n, Running), c, pc)
  }

  /** A task gets a coroutine stack of CPU `c` if it has none and needs one. */
  predicate NeedsStack(task: Task) { task.kstack.None? && !task.init && !task.idle }

  /** Marks the next task as on this CPU and makes it current. A thread also makes
      sure the next task has a stack; a coroutine returns to its scheduling loop. */
  ghost predicate SwitchStep(s: State, s': State, c: CpuId, n: TaskId)
    requires WellFormed(s) && c < |s.cpus| && n < |s.tasks|
  {
    var cpu := s.cpus[c];
    var cur := cpu.current;
    var next := s.tasks[n].(onCpu := true);
    var cpu' := cpu.(current := n, prev := Some(cur));
    if s.tasks[cur].coroutine then
      s' == State(s.cpus[c := cpu'.(pc := Returned(cur))], s.tasks[n := next])
    else if !NeedsStack(next) then
      s' == State(s.cpus[c := cpu'.(pc := Resume(true))], s.tasks[n := next])
    else if cpu.pool != [] then
      s' == State(s.cpus[c := cpu'.(pc := Resume(true), pool := cpu.pool[..|cpu.pool| - 1])],
                  s.tasks[n := next.(kstack := Some(cpu.pool[|cpu.pool| - 1]))])
    else
      s' == State(s.cpus[c := cpu'.(pc := Resume(true), created := cpu.created + 1)],
                  s.tasks[n := next.(kstack := Some(Pooled(c, cpu.created)))])
  }

  /** The old coroutine's stack is taken: the next coroutine goes on running on it,
      or it goes back to the pool and the next thread's context is entered. */
  ghost predicate HandoverStep(s: State, s': State, c: CpuId, o: TaskId)
    requires WellFormed(s) && c < |s.cpus| && o < |s.tasks|
  {
    var cpu := s.cpus[c];
    && s.tasks[o].kstack.Some?
    && var stack := s.tasks[o].kstack;
       var taken := s.tasks[o := s.tasks[o].(kstack := None)];
       if NeedsStack(taken[cpu.current]) then
         s' == State(s.cpus[c := cpu.(pc := Resume(true))],
                     taken[cpu.current := taken[cpu.current].(kstack := stack)])
       else
         s' == State(s.cpus[c := cpu.(pc := Resume(true), pool := cpu.pool + [stack.value])], taken)
  }

  /** The previous task is taken and its mark cleared, once per switch that changed
      the task. Without such a switch nothing is taken. */
  ghost predicate ResumeStep(s: State, s': State, c: CpuId, switched: bool)
    requires WellFormed(s) && c < |s.cpus|
  {
    if !switched then s' == Goto(s, c, User) else TakePrev(s, s', c)
  }

  /** The take itself; it needs an initialised `prev_task`. */
  ghost predicate TakePrev(s: State, s': State, c: CpuId)
    requires WellFormed(s) && c < |s.cpus|
  {
    var cpu := s.cpus[c];
    && cpu.prev.Some?
    && s' == State(s.cpus[c := cpu.(prev := None, pc := User)],
                   s.tasks[cpu.prev.value := s.tasks[cpu.prev.value].(onCpu := false)])
  }

  /** Each CPU starts in its boot task; all other spawned tasks are idle tasks. */
  ghost predicate Init(s: State) {
    && WellFormed(s)
    && (forall c :: 0 <= c < |s.cpus| ==> BootCpu(s, c))
    && (forall c, d :: 0 <= c < d < |s.cpus| ==>
          s.cpus[c].current != s.cpus[d].current && s.cpus[c].idle != s.cpus[d].idle)
    && (forall t :: 0 <= t < |s.tasks| ==> BootTask(s, t))
  }

  ghost predicate BootCpu(s: State, c: CpuId)
    requires WellFormed(s) && c < |s.cpus|
  {
    var cpu := s.cpus[c];
    && cpu.prev == Some(cpu.current) && cpu.queue == multiset{} && cpu.pc == User
    && cpu.pool == [] && cpu.created == 0
    && s.tasks[cpu.idle].idle
    && (s.tasks[cpu.current].idle ==> cpu.current == cpu.idle)
  }

  ghost predicate BootTask(s: State, t: TaskId)
    requires t < |s.tasks|
  {
    var task := s.tasks[t];
    && (task.onCpu <==> exists c :: 0 <= c < |s.cpus| && s.cpus[c].current == t)
    && task.state == (if task.onCpu then Running else Ready)
    && (task.onCpu ==> task.init)
    && (task.idle ==> exists c :: 0 <= c < |s.cpus| && s.cpus[c].idle == t)
    && (task.spawned <==> task.onCpu || task.idle)
    && (task.coroutine ==> !task.idle && !task.init)
    && task.kstack == if task.coroutine || task.init then None else Some(Private(t))
  }
}
