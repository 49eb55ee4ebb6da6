/** Where tasks are: the invariant of the scheduler over all interleavings. */
module SchedPlacement {
  import opened Wrappers
  import opened TaskTypes
  import opened SchedMachine

  /** The one place a task may be run or queued from. */
  datatype Loc =
    | Nowhere
    | Queued(cpu: CpuId)   // in the ready queue of the CPU
    | InHand(cpu: CpuId)   // held by code on the CPU on its way into or out of a queue
    | Active(cpu: CpuId)   // running there, or chosen to run next

  /** `home` is the CPU whose code or stack is still the task's. */
  datatype Place = Place(loc: Loc, home: Option<CpuId>)

  /** The task the code on a CPU holds outside the queues. */
  function Hand(cpu: Cpu): Option<TaskId> {
    match cpu.pc
    case YieldPut => Some(cpu.current)
    case Picked(n) => Some(n)
    case WakeSpin(t, _, _) => Some(t)
    case WakePut(t, _, _) => Some(t)
    case _ => None
  }

  /** The task marked Running on a CPU. */
  function Runs(cpu: Cpu): Option<TaskId> {
    match cpu.pc
    case User => Some(cpu.current)
    case Resume(_) => Some(cpu.current)
    case Returned(_) => Some(cpu.current)
    case Handover(_) => Some(cpu.current)
    case Switch(n) => Some(n)
    case WakeSpin(_, _, back) => if back == ToUser then Some(cpu.current) else None
    case WakePut(_, _, back) => if back == ToUser then Some(cpu.current) else None
    case _ => None
  }

  /** The CPU has made another task current and not yet finished leaving the old one. */
  predicate Leaving(cpu: Cpu) {
    cpu.pc == Resume(true) || cpu.pc.Returned? || cpu.pc.Handover?
  }

  /** The CPU's code is on the task's behalf or stack. */
  predicate Occupies(cpu: Cpu, t: TaskId) {
    cpu.current == t || (Leaving(cpu) && cpu.prev == Some(t))
  }

  /** The current task has already exited. */
  predicate Exiting(cpu: Cpu) {
    match cpu.pc
    case ExitNotify => true
    case WakeSpin(_, _, back) => back == ToExit
    case WakePut(_, _, back) => back == ToExit
    case _ => false
  }

  /** The queue, the hand and the running task of a CPU are where `p` says. */
  ghost predicate LinkInv(cpu: Cpu, p: seq<Place>, c: CpuId) {
    && (forall t {:trigger cpu.queue[t]} :: t in cpu.queue ==> cpu.queue[t] == 1 && t < |p| && p[t].loc == Queued(c))
    && (Hand(cpu).Some? ==> Hand(cpu).value < |p| && p[Hand(cpu).value].loc == InHand(c))
    && (Runs(cpu).Some? ==> Runs(cpu).value < |p| && p[Runs(cpu).value].loc == Active(c))
    && cpu.current < |p| && p[cpu.current].home == Some(c)
    && (Leaving(cpu) ==> cpu.prev.Some? && cpu.prev.value != cpu.current &&
                         cpu.prev.value < |p| && p[cpu.prev.value].home == Some(c))
    && (!Leaving(cpu) && cpu.prev.Some? ==> cpu.prev.value == cpu.current)
  }

  /** What the code position of a CPU promises about the tasks it works on. */
  ghost predicate CodeInv(cpu: Cpu, tasks: seq<Task>, p: seq<Place>)
    requires |p| == |tasks| && cpu.current < |p| && cpu.idle < |p|
  {
    && (Exiting(cpu) ==> tasks[cpu.current].state == Exited)
    && tasks[cpu.idle].idle
    && (tasks[cpu.current].idle ==> cpu.current == cpu.idle)
    && (cpu.prev.Some? && cpu.prev.value < |p| && tasks[cpu.prev.value].idle ==> cpu.prev.value == cpu.idle)
    && match cpu.pc
       case YieldPut => !tasks[cpu.current].idle
       case Picked(n) => n < |p| && (p[n].home == None || n == cpu.current) && (tasks[n].idle ==> n == cpu.idle)
       case Switch(n) => n < |p| && p[n].home == None && n != cpu.current && (tasks[n].idle ==> n == cpu.idle)
       case Returned(o) => cpu.prev == Some(o) && o < |p| && tasks[o].coroutine
       case Handover(o) => cpu.prev == Some(o) && o < |p| && tasks[o].coroutine
       case WakeSpin(t, _, _) => t < |p| && !tasks[t].idle
       case WakePut(t, _, _) => t < |p| && p[t].home == None && !tasks[t].idle
       case _ => true
  }

  ghost predicate CpuInv(s: State, p: seq<Place>, c: CpuId)
    requires |p| == |s.tasks| && c < |s.cpus|
  {
    CpuWellFormed(s, c) && LinkInv(s.cpus[c], p, c) && CodeInv(s.cpus[c], s.tasks, p)
  }

  /** The place of a task is real. */
  ghost predicate PlaceInv(cpus: seq<Cpu>, place: Place, t: TaskId) {
    && (match place.loc
        case Nowhere => true
        case Queued(c) => c < |cpus| && t in cpus[c].queue && (place.home == None || place.home == Some(c))
        case InHand(c) => c < |cpus| && Hand(cpus[c]) == Some(t)
        case Active(c) => c < |cpus| && Runs(cpus[c]) == Some(t))
    && (place.home.Some? ==> place.home.value < |cpus| && Occupies(cpus[place.home.value], t))
  }

  /** The fields of a task agree with its place. */
  ghost predicate FieldInv(task: Task, place: Place) {
    && (task.onCpu <==> place.home.Some?)
    && (task.state == Running <==> place.loc.Active?)
    && (place.loc.Queued? || place.loc.InHand? ==> task.state == Ready && task.spawned)
    && (task.state == Ready && task.spawned && !task.idle ==> place.loc.Queued? || place.loc.InHand?)
    && (!task.spawned ==> task.state == Ready && place == Place(Nowhere, None))
    && (task.idle ==> task.spawned && !place.loc.Queued? && (task.state == Running || task.state == Ready))
    && (task.coroutine ==> !task.idle && !task.init)
  }

  ghost predicate TaskInv(s: State, p: seq<Place>, t: TaskId)
    requires |p| == |s.tasks| && t < |p|
  {
    PlaceInv(s.cpus, p[t], t) && FieldInv(s.tasks[t], p[t])
  }

  /** Each idle task belongs to one CPU. */
  ghost predicate IdleApart(s: State) {
    forall c, d :: 0 <= c < d < |s.cpus| ==> s.cpus[c].idle != s.cpus[d].idle
  }

  ghost predicate Inv(s: State, p: seq<Place>) {
    && WellFormed(s) && |p| == |s.tasks|
    && (forall c :: 0 <= c < |s.cpus| ==> CpuInv(s, p, c))
    && (forall t :: 0 <= t < |s.tasks| ==> TaskInv(s, p, t))
    && IdleApart(s)
  }

  /** A task keeps whatever hold it has of a CPU. */
  predicate StillAt(cpu: Cpu, cpu': Cpu, t: TaskId) {
    && (t in cpu.queue ==> t in cpu'.queue)
    && (Hand(cpu) == Some(t) ==> Hand(cpu') == Some(t))
    && (Runs(cpu) == Some(t) ==> Runs(cpu') == Some(t))
    && (Occupies(cpu, t) ==> Occupies(cpu', t))
  }

  predicate SameKind(task: Task, task': Task) {
    task'.idle == task.idle && task'.init == task.init && task'.coroutine == task.coroutine
  }

  predicate SameFields(task: Task, task': Task) {
    task'.state == task.state && task'.onCpu == task.onCpu && task'.spawned == task.spawned && SameKind(task, task')
  }

  /** The step leaves every CPU but `c` and `d` and every task but `t` and `u` alone. */
  ghost predicate Frame(s: State, p: seq<Place>, s': State, p': seq<Place>, c: CpuId, d: CpuId, t: TaskId, u: TaskId)
  {
    && c < |s.cpus| && d < |s.cpus| && |s'.cpus| == |s.cpus|
    && |p'| == |p| == |s.tasks| == |s'.tasks|
    && (forall e :: 0 <= e < |s.cpus| && e != c && e != d ==> s'.cpus[e] == s.cpus[e])
    && s'.cpus[c].idle == s.cpus[c].idle && s'.cpus[d].idle == s.cpus[d].idle
    && (forall v :: 0 <= v < |p| && v != t && v != u ==>
          && p'[v] == p[v] && SameFields(s.tasks[v], s'.tasks[v])
          && StillAt(s.cpus[c], s'.cpus[c], v) && StillAt(s.cpus[d], s'.cpus[d], v))
  }

  /** What happens to a touched task must not concern other CPUs than `c` and `d`. */
  ghost predicate Local(s: State, p: seq<Place>, s': State, p': seq<Place>, c: CpuId, d: CpuId, t: TaskId)
    requires |p'| == |p| == |s.tasks| == |s'.tasks| && t < |p|
  {
    && (p'[t].loc == p[t].loc || p[t].loc == Nowhere || p[t].loc.cpu == c || p[t].loc.cpu == d)
    && (p'[t].home == p[t].home || p[t].home == Some(c) || (p[t].home == None && p[t].loc == Active(c)))
    && (s.tasks[t].state == Exited ==> s'.tasks[t].state == Exited)
    && SameKind(s.tasks[t], s'.tasks[t])
  }

  /** What changes about task `t` does not concern CPU `e`. */
  ghost predicate Elsewhere(p: seq<Place>, p': seq<Place>, e: CpuId, t: TaskId)
    requires t < |p| == |p'|
  {
    && (p[t].loc != Nowhere && p[t].loc.cpu == e ==>
          p'[t].loc == p[t].loc && (p[t].home == None ==> p'[t].home == None))
    && (p[t].home == Some(e) ==> p'[t].home == p[t].home)
  }

  lemma LinkFrame(cpu: Cpu, p: seq<Place>, p': seq<Place>, e: CpuId, t: TaskId, u: TaskId)
    requires LinkInv(cpu, p, e) && |p'| == |p| && t < |p| && u < |p|
    requires forall v :: 0 <= v < |p| && v != t && v != u ==> p'[v] == p[v]
    requires Elsewhere(p, p', e, t) && Elsewhere(p, p', e, u)
    ensures LinkInv(cpu, p', e)
  {
  }

  lemma CodeFrame(cpu: Cpu, tasks: seq<Task>, p: seq<Place>, tasks': seq<Task>, p': seq<Place>,
                  e: CpuId, t: TaskId, u: TaskId)
    requires LinkInv(cpu, p, e) && |p'| == |p| == |tasks| == |tasks'| && t < |p| && u < |p| && cpu.idle < |p|
    requires CodeInv(cpu, tasks, p)
    requires forall v :: 0 <= v < |p| && v != t && v != u ==> p'[v] == p[v] && tasks'[v].state == tasks[v].state
    requires forall v :: 0 <= v < |p| ==> SameKind(tasks[v], tasks'[v])
    requires forall v :: v == t || v == u ==> (tasks[v].state == Exited ==> tasks'[v].state == Exited)
    requires Elsewhere(p, p', e, t) && Elsewhere(p, p', e, u)
    ensures CodeInv(cpu, tasks', p')
  {
    assert SameKind(tasks[cpu.idle], tasks'[cpu.idle]) && SameKind(tasks[cpu.current], tasks'[cpu.current]);
  }

  lemma OtherCpu(s: State, p: seq<Place>, s': State, p': seq<Place>, c: CpuId, d: CpuId, t: TaskId, u: TaskId, e: CpuId)
    requires Frame(s, p, s', p', c, d, t, u) && t < |p| && u < |p|
    requires Local(s, p, s', p', c, d, t) && Local(s, p, s', p', c, d, u)
    requires e < |s.cpus| && e != c && e != d && CpuInv(s, p, e)
    ensures CpuInv(s', p', e)
  {
    LinkFrame(s.cpus[e], p, p', e, t, u);
    CodeFrame(s.cpus[e], s.tasks, p, s'.tasks, p', e, t, u);
  }

  lemma OtherTask(s: State, p: seq<Place>, s': State, p': seq<Place>, c: CpuId, d: CpuId, t: TaskId, u: TaskId,
                  v: TaskId)
    requires Frame(s, p, s', p', c, d, t, u)
    requires v < |p| && v != t && v != u && TaskInv(s, p, v)
    ensures TaskInv(s', p', v)
  {
  }

  /** A step on CPU `c` that touches the tasks `t` and `u`, and besides `c` at most
      the queue of `d`, keeps everything elsewhere in order. */
  lemma Keep(s: State, p: seq<Place>, s': State, p': seq<Place>, c: CpuId, d: CpuId, t: TaskId, u: TaskId)
    requires Inv(s, p) && Frame(s, p, s', p', c, d, t, u) && t < |p| && u < |p|
    requires Local(s, p, s', p', c, d, t) && Local(s, p, s', p', c, d, u)
    requires TaskInv(s', p', t) && TaskInv(s', p', u)
    requires CpuInv(s', p', c) && CpuInv(s', p', d)
    ensures Inv(s', p')
  {
    forall e | 0 <= e < |s.cpus| ensures CpuInv(s', p', e) {
      assert CpuInv(s, p, e);
      if e != c && e != d {
        OtherCpu(s, p, s', p', c, d, t, u, e);
      }
    }
    forall e | 0 <= e < |s.cpus| ensures CpuWellFormed(s', e) && s'.cpus[e].idle == s.cpus[e].idle {
      assert CpuInv(s', p', e);
    }
    forall v | 0 <= v < |p| ensures TaskInv(s', p', v) {
      assert TaskInv(s, p, v);
      if v != t && v != u {
        OtherTask(s, p, s', p', c, d, t, u, v);
      }
    }
  }

  lemma YieldKeeps(s: State, s': State, c: CpuId, p: seq<Place>) returns (p': seq<Place>)
    requires Inv(s, p) && c < |s.cpus| && s.cpus[c].pc == User && UserStep(s, s', c, Yield)
    ensures Inv(s', p')
  {
    var cur := s.cpus[c].current;
    assert CpuInv(s, p, c) && TaskInv(s, p, cur);
    p' := p[cur := p[cur].(loc := if s.tasks[cur].idle then Nowhere else InHand(c))];
    assert TaskInv(s', p', cur);
    assert CpuInv(s', p', c);
    Keep(s, p, s', p', c, c, cur, cur);
  }

  lemma StopKeeps(s: State, s': State, c: CpuId, p: seq<Place>, act: Action) returns (p': seq<Place>)
    requires Inv(s, p) && c < |s.cpus| && s.cpus[c].pc == User && UserStep(s, s', c, act)
    requires (act == Block || act == Exit)
    ensures Inv(s', p')
  {
    var cur := s.cpus[c].current;
    assert CpuInv(s, p, c) && TaskInv(s, p, cur);
    p' := p[cur := p[cur].(loc := Nowhere)];
    assert TaskInv(s', p', cur);
    assert CpuInv(s', p', c);
    Keep(s, p, s', p', c, c, cur, cur);
  }

  lemma SpawnKeeps(s: State, s': State, c: CpuId, p: seq<Place>, t: TaskId) returns (p': seq<Place>)
    requires Inv(s, p) && c < |s.cpus| && s.cpus[c].pc == User && UserStep(s, s', c, Spawn(t))
    ensures Inv(s', p')
  {
    assert CpuInv(s, p, c) && TaskInv(s, p, t);
    p' := p[t := Place(Queued(c), None)];
    assert TaskInv(s', p', t);
    assert CpuInv(s', p', c);
    Keep(s, p, s', p', c, c, t, t);
  }

  lemma WakeKeeps(s: State, s': State, c: CpuId, p: seq<Place>, t: TaskId, dst: CpuId, back: Back)
    returns (p': seq<Place>)
    requires Inv(s, p) && c < |s.cpus| && s.cpus[c].pc == BackPc(back) && WakeStep(s, s', c, t, dst, back)
    ensures Inv(s', p')
  {
    assert CpuInv(s, p, c) && TaskInv(s, p, t);
    if s.tasks[t].state == Blocked {
      p' := p[t := p[t].(loc := InHand(c))];
      assert TaskInv(s', p', t);
      assert CpuInv(s', p', c);
      Keep(s, p, s', p', c, c, t, t);
    } else {
      p' := p;
    }
  }

  lemma YieldPutKeeps(s: State, s': State, c: CpuId, p: seq<Place>) returns (p': seq<Place>)
    requires Inv(s, p) && c < |s.cpus| && s.cpus[c].pc == YieldPut
    requires s' == Goto(Enqueue(s, c, s.cpus[c].current), c, Pick)
    ensures Inv(s', p')
  {
    var cur := s.cpus[c].current;
    assert CpuInv(s, p, c) && TaskInv(s, p, cur);
    p' := p[cur := p[cur].(loc := Queued(c))];
    assert TaskInv(s', p', cur);
    assert CpuInv(s', p', c);
    Keep(s, p, s', p', c, c, cur, cur);
  }

  /** At the moment of picking, the CPU's idle task is free or current, and Ready. */
  lemma IdleFree(s: State, c: CpuId, p: seq<Place>)
    requires Inv(s, p) && c < |s.cpus| && s.cpus[c].pc == Pick
    ensures var i := s.cpus[c].idle;
            && i < |p| && p[i].loc == Nowhere && s.tasks[i].state == Ready && s.tasks[i].idle
            && (p[i].home == None || i == s.cpus[c].current)
  {
    var i := s.cpus[c].idle;
    assert CpuInv(s, p, c);
    assert TaskInv(s, p, i);
    forall d | 0 <= d < |s.cpus|
      ensures Hand(s.cpus[d]) != Some(i) && Runs(s.cpus[d]) != Some(i)
      ensures Occupies(s.cpus[d], i) ==> d == c
    {
      assert CpuInv(s, p, d);
    }
  }

  /** Taking task `n` in hand, from this CPU's queue or as its idle task. */
  lemma TakeKeeps(s: State, s': State, c: CpuId, p: seq<Place>, n: TaskId) returns (p': seq<Place>)
    requires Inv(s, p) && c < |s.cpus| && s.cpus[c].pc == Pick && n < |p|
    requires p[n].loc == Queued(c) || p[n].loc == Nowhere
    requires n == s.cpus[c].idle || !s.tasks[n].idle
    requires p[n].home == None || n == s.cpus[c].current
    requires s.tasks[n].state == Ready && s.tasks[n].spawned
    requires s' == SetCpu(s, c, s.cpus[c].(queue := s.cpus[c].queue - multiset{n}, pc := Picked(n)))
    ensures Inv(s', p')
  {
    assert CpuInv(s, p, c) && TaskInv(s, p, n);
    p' := p[n := p[n].(loc := InHand(c))];
    assert TaskInv(s', p', n);
    assert CpuInv(s', p', c);
    Keep(s, p, s', p', c, c, n, n);
  }

  lemma PickKeeps(s: State, s': State, c: CpuId, p: seq<Place>, act: Action) returns (p': seq<Place>)
    requires Inv(s, p) && c < |s.cpus| && s.cpus[c].pc == Pick && PickStep(s, s', c, act)
    ensures Inv(s', p')
  {
    var n := act.next;
    var cpu := s.cpus[c];
    assert CpuInv(s, p, c);
    if n in cpu.queue {
      assert TaskInv(s, p, n);
    } else {
      IdleFree(s, c, p);
      assert TaskInv(s, p, n);
      assert cpu.queue - multiset{n} == cpu.queue;
    }
    p' := TakeKeeps(s, s', c, p, n);
  }

  lemma PickedKeeps(s: State, s': State, c: CpuId, p: seq<Place>, n: TaskId) returns (p': seq<Place>)
    requires Inv(s, p) && c < |s.cpus| && s.cpus[c].pc == Picked(n) && n < |s.tasks| && PickedStep(s, s', c, n)
    ensures Inv(s', p')
  {
    assert CpuInv(s, p, c) && TaskInv(s, p, n);
    p' := p[n := p[n].(loc := Active(c))];
    assert TaskInv(s', p', n);
    assert CpuInv(s', p', c);
    Keep(s, p, s', p', c, c, n, n);
  }

  lemma SwitchKeeps(s: State, s': State, c: CpuId, p: seq<Place>, n: TaskId) returns (p': seq<Place>)
    requires Inv(s, p) && c < |s.cpus| && s.cpus[c].pc == Switch(n) && n < |s.tasks| && SwitchStep(s, s', c, n)
    ensures Inv(s', p')
  {
    var cur := s.cpus[c].current;
    assert CpuInv(s, p, c);
    p' := EnterKeeps(s, s', c, p, n, if s.tasks[cur].coroutine then Returned(cur) else Resume(true));
  }

  /** The part of a switch that does not concern stacks. */
  lemma EnterKeeps(s: State, s': State, c: CpuId, p: seq<Place>, n: TaskId, pc: Pc) returns (p': seq<Place>)
    requires Inv(s, p) && c < |s.cpus| && s.cpus[c].pc == Switch(n) && n < |s.tasks|
    requires pc == Resume(true) || (pc == Returned(s.cpus[c].current) && s.tasks[s.cpus[c].current].coroutine)
    requires |s'.cpus| == |s.cpus| && |s'.tasks| == |s.tasks|
    requires s'.cpus == s.cpus[c := s'.cpus[c]] && s'.tasks == s.tasks[n := s'.tasks[n]]
    requires var cpu, cpu' := s.cpus[c], s'.cpus[c];
             && cpu'.current == n && cpu'.prev == Some(cpu.current) && cpu'.pc == pc
             && cpu'.idle == cpu.idle && cpu'.queue == cpu.queue
    requires SameFields(s.tasks[n].(onCpu := true), s'.tasks[n])
    ensures Inv(s', p')
  {
    assert CpuInv(s, p, c) && TaskInv(s, p, n);
    p' := p[n := Place(Active(c), Some(c))];
    assert TaskInv(s', p', n);
    assert CpuInv(s', p', c);
    Keep(s, p, s', p', c, c, n, n);
  }

  /** The coroutine that has just returned from its poll is not Running any more:
      its CPU still holds it, and nobody else can have started it. */
  lemma ReturnedNotRunning(s: State, c: CpuId, p: seq<Place>, o: TaskId)
    requires Inv(s, p) && c < |s.cpus| && s.cpus[c].pc == Returned(o)
    ensures o < |p| && s.tasks[o].state != Running
  {
    assert CpuInv(s, p, c);
    assert TaskInv(s, p, o);
    forall e | 0 <= e < |s.cpus| ensures Runs(s.cpus[e]) != Some(o) {
      assert CpuInv(s, p, e);
    }
  }

  lemma ReturnedKeeps(s: State, c: CpuId, p: seq<Place>, o: TaskId)
    requires Inv(s, p) && c < |s.cpus| && s.cpus[c].pc == Returned(o)
    ensures Inv(Goto(s, c, Handover(o)), p)
  {
    var s' := Goto(s, c, Handover(o));
    assert CpuInv(s, p, c);
    assert TaskInv(s, p, o);
    assert TaskInv(s', p, o);
    assert CpuInv(s', p, c);
    Keep(s, p, s', p, c, c, o, o);
  }

  lemma HandoverKeeps(s: State, s': State, c: CpuId, p: seq<Place>, o: TaskId)
    requires Inv(s, p) && c < |s.cpus| && s.cpus[c].pc == Handover(o) && o < |s.tasks| && HandoverStep(s, s', c, o)
    ensures Inv(s', p)
  {
    assert CpuInv(s, p, c);
    LandKeeps(s, s', c, p, o);
  }

  /** The part of a handover that does not concern stacks. */
  lemma LandKeeps(s: State, s': State, c: CpuId, p: seq<Place>, o: TaskId)
    requires Inv(s, p) && c < |s.cpus| && s.cpus[c].pc == Handover(o) && o < |s.tasks|
    requires |s'.cpus| == |s.cpus| && |s'.tasks| == |s.tasks|
    requires s'.cpus == s.cpus[c := s'.cpus[c]]
    requires forall v :: 0 <= v < |s.tasks| ==> SameFields(s.tasks[v], s'.tasks[v])
    requires var cpu, cpu' := s.cpus[c], s'.cpus[c];
             && cpu'.current == cpu.current && cpu'.prev == cpu.prev && cpu'.pc == Resume(true)
             && cpu'.idle == cpu.idle && cpu'.queue == cpu.queue
    ensures Inv(s', p)
  {
    assert CpuInv(s, p, c) && TaskInv(s, p, o);
    assert TaskInv(s', p, o);
    assert CpuInv(s', p, c);
    Keep(s, p, s', p, c, c, o, o);
  }

  lemma ResumeKeeps(s: State, s': State, c: CpuId, p: seq<Place>, switched: bool) returns (p': seq<Place>)
    requires Inv(s, p) && c < |s.cpus| && s.cpus[c].pc == Resume(switched) && ResumeStep(s, s', c, switched)
    ensures Inv(s', p')
  {
    assert CpuInv(s, p, c);
    var o := if switched then s.cpus[c].prev.value else s.cpus[c].current;
    assert TaskInv(s, p, o);
    p' := if switched then p[o := p[o].(home := None)] else p;
    assert TaskInv(s', p', o);
    assert CpuInv(s', p', c);
    Keep(s, p, s', p', c, c, o, o);
  }

  lemma WakeSpinKeeps(s: State, c: CpuId, p: seq<Place>, t: TaskId, dst: CpuId, back: Back)
    requires Inv(s, p) && c < |s.cpus| && s.cpus[c].pc == WakeSpin(t, dst, back) && t < |s.tasks| && !s.tasks[t].onCpu
    ensures Inv(Goto(s, c, WakePut(t, dst, back)), p)
  {
    var s' := Goto(s, c, WakePut(t, dst, back));
    assert CpuInv(s, p, c) && TaskInv(s, p, t);
    assert TaskInv(s', p, t);
    assert CpuInv(s', p, c);
    Keep(s, p, s', p, c, c, t, t);
  }

  lemma WakePutKeeps(s: State, s': State, c: CpuId, p: seq<Place>, t: TaskId, dst: CpuId, back: Back)
    returns (p': seq<Place>)
    requires Inv(s, p) && c < |s.cpus| && s.cpus[c].pc == WakePut(t, dst, back) && dst < |s.cpus|
    requires s' == Goto(Enqueue(s, dst, t), c, BackPc(back))
    ensures Inv(s', p')
  {
    assert CpuInv(s, p, c) && CpuInv(s, p, dst);
    assert TaskInv(s, p, t);
    p' := p[t := Place(Queued(dst), None)];
    if dst == c {
      PutHere(s, s', c, p, p', t, back);
    } else {
      PutAway(s, s', c, p, p', t, dst, back);
      PutThere(s, s', c, p, p', t, dst);
    }
    PutFrame(s, s', c, p, p', t, dst, back);
    Keep(s, p, s', p', c, dst, t, t);
  }

  lemma PutFrame(s: State, s': State, c: CpuId, p: seq<Place>, p': seq<Place>, t: TaskId, dst: CpuId, back: Back)
    requires |p| == |s.tasks| && c < |s.cpus| && dst < |s.cpus| && t < |p| && s.cpus[c].pc == WakePut(t, dst, back)
    requires TaskInv(s, p, t) && p[t].loc == InHand(c) && p[t].home == None && !s.tasks[t].idle
    requires CpuInv(s, p, c)
    requires s' == Goto(Enqueue(s, dst, t), c, BackPc(back)) && p' == p[t := Place(Queued(dst), None)]
    ensures Frame(s, p, s', p', c, dst, t, t) && Local(s, p, s', p', c, dst, t) && TaskInv(s', p', t)
  {
    assert t in s'.cpus[dst].queue;
  }

  lemma PutHere(s: State, s': State, c: CpuId, p: seq<Place>, p': seq<Place>, t: TaskId, back: Back)
    requires |p| == |s.tasks| && c < |s.cpus| && CpuInv(s, p, c)
    requires s.cpus[c].pc == WakePut(t, c, back) && t < |p| && p[t].loc == InHand(c) && p[t].home == None
    requires s' == Goto(Enqueue(s, c, t), c, BackPc(back)) && p' == p[t := Place(Queued(c), None)]
    ensures CpuInv(s', p', c)
  {
  }

  lemma PutAway(s: State, s': State, c: CpuId, p: seq<Place>, p': seq<Place>, t: TaskId, dst: CpuId, back: Back)
    requires |p| == |s.tasks| == |s'.tasks| && c < |s.cpus| == |s'.cpus| && CpuInv(s, p, c) && s'.tasks == s.tasks
    requires s.cpus[c].pc == WakePut(t, dst, back) && t < |p| && p[t].loc == InHand(c) && p[t].home == None
    requires s'.cpus[c] == s.cpus[c].(pc := BackPc(back)) && p' == p[t := Place(Queued(dst), None)]
    ensures CpuInv(s', p', c)
  {
  }

  lemma PutThere(s: State, s': State, c: CpuId, p: seq<Place>, p': seq<Place>, t: TaskId, dst: CpuId)
    requires |p| == |s.tasks| == |s'.tasks| && dst < |s.cpus| == |s'.cpus| && c != dst && CpuInv(s, p, dst)
    requires s'.tasks == s.tasks
    requires t < |p| && p[t].loc == InHand(c) && p[t].home == None && p' == p[t := Place(Queued(dst), None)]
    requires s'.cpus[dst] == s.cpus[dst].(queue := s.cpus[dst].queue + multiset{t})
    ensures CpuInv(s', p', dst)
  {
    assert t !in s.cpus[dst].queue;
    assert LinkInv(s'.cpus[dst], p', dst);
  }

  lemma NotifiedKeeps(s: State, c: CpuId, p: seq<Place>)
    requires Inv(s, p) && c < |s.cpus| && s.cpus[c].pc == ExitNotify
    ensures Inv(Goto(s, c, Pick), p)
  {
    var s', cur := Goto(s, c, Pick), s.cpus[c].current;
    assert CpuInv(s, p, c);
    assert TaskInv(s, p, cur);
    assert TaskInv(s', p, cur);
    assert CpuInv(s', p, c);
    Keep(s, p, s', p, c, c, cur, cur);
  }
}
