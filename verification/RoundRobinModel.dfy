/** The round-robin policy: the effect of every operation, and one CPU driven by it. */
module RoundRobinModel {
  import opened Wrappers
  import opened TaskTypes

  /** One scheduler: its queue, front first, and the time slice of every task. A new or
      reset slice is `full`; the ring queue has room for one task less than its capacity. */
  datatype RR = RR(cap: nat, full: int, queue: seq<TaskId>, slices: seq<int>)

  function PushBack(s: RR, t: TaskId): RR {
    if |s.queue| == s.cap - 1 then s else s.(queue := s.queue + [t])
  }

  function PushFront(s: RR, t: TaskId): RR {
    if |s.queue| == s.cap - 1 then s else s.(queue := [t] + s.queue)
  }

  function AddTask(s: RR, t: TaskId): RR {
    PushBack(s, t)
  }

  function PickNext(s: RR): (Option<TaskId>, RR) {
    if s.queue == [] then (None, s) else (Some(s.queue[0]), s.(queue := s.queue[1..]))
  }

  function PutPrev(s: RR, t: TaskId, preempt: bool): RR
    requires t < |s.slices|
  {
    if s.slices[t] > 0 && preempt then PushFront(s, t)
    else PushBack(s.(slices := s.slices[t := s.full]), t)
  }

  /** Whether to reschedule, and the new state. */
  function Tick(s: RR, t: TaskId): (bool, RR)
    requires t < |s.slices|
  {
    (s.slices[t] <= 1, s.(slices := s.slices[t := s.slices[t] - 1]))
  }

  datatype Cpu = Cpu(rr: RR, current: TaskId, idle: TaskId)

  /** `Preempt`: a reschedule that was asked for. `Leave`: the current task blocks or exits.
      `Elsewhere`: another CPU runs a task that is not queued here. */
  datatype Event =
    | Ticked
    | Preempt
    | Yield
    | Leave
    | Spawn(t: TaskId)
    | Wake(t: TaskId, preempt: bool)
    | Elsewhere(t: TaskId, slice: int)

  function Switch(s: RR, idle: TaskId): Cpu {
    var (next, s') := PickNext(s);
    Cpu(s', if next.Some? then next.value else idle, idle)
  }

  /** The current task goes back to the queue, the idle task to nowhere; then the next runs. */
  function Requeue(x: Cpu, preempt: bool): Cpu
    requires x.current < |x.rr.slices|
  {
    Switch(if x.current == x.idle then x.rr else PutPrev(x.rr, x.current, preempt), x.idle)
  }

  predicate Outside(x: Cpu, t: TaskId) {
    t < |x.rr.slices| && t !in x.rr.queue && t != x.current && t != x.idle
  }

  /** Tasks fit the queue; a spawned task is new, a woken one is queued nowhere. */
  ghost predicate Step(x: Cpu, x': Cpu, e: Event) {
    && x.current < |x.rr.slices|
    && |x.rr.queue| < x.rr.cap - 1
    && match e
       case Ticked =>
         var (again, s) := Tick(x.rr, x.current);
         x' == if again then Requeue(x.(rr := s), true) else x.(rr := s)
       case Preempt => x' == Requeue(x, true)
       case Yield => x' == Requeue(x, false)
       case Leave => x.current != x.idle && x' == Switch(x.rr, x.idle)
       case Spawn(t) => Outside(x, t) && x.rr.slices[t] == x.rr.full && x' == x.(rr := AddTask(x.rr, t))
       case Wake(t, preempt) => Outside(x, t) && x' == x.(rr := PutPrev(x.rr, t, preempt))
       case Elsewhere(t, slice) =>
         Outside(x, t) && slice <= x.rr.full && x' == x.(rr := x.rr.(slices := x.rr.slices[t := slice]))
  }
}
