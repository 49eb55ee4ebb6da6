/** Tasks waiting on several wait queues, as a step system: blocking, waking, moving between
    queues, stray wakeups and leaving a wait, in any order. */
module WaitMachine {
  import opened Wrappers
  import opened TaskTypes

  type QueueId = nat

  /** `home` is the queue on whose behalf the task is in a wait. */
  datatype Waiter = Waiter(state: TaskState, inQueue: bool, home: Option<QueueId>)

  /** `moving[i]` has been drained from a queue and not yet reached queue `targets[i]`. */
  datatype State = State(queues: seq<seq<TaskId>>, moving: seq<seq<TaskId>>, targets: seq<QueueId>,
                         waiters: seq<Waiter>)

  datatype Event =
    | Block(t: TaskId, q: QueueId)            // push the caller, which gives up the CPU
    | NotifyOne(q: QueueId)                   // wake the first task
    | NotifyTask(q: QueueId, i: nat)          // wake the task at an index
    | Drain(q: QueueId, count: nat, target: QueueId)
    | Deliver(i: nat)
    | Stray(t: TaskId)                        // a wakeup that comes from no queue
    | Resume(t: TaskId)                       // picked from the ready queue
    | Finish(t: TaskId)                       // the wait is over: cancel its events

  /** What may happen: stray wakeups, requeueing, and waits that block again in a loop. */
  datatype Config = Config(strays: bool, requeues: bool, loops: bool)

  function Wake(w: Waiter): Waiter {
    if w.state == Blocked then w.(state := Ready) else w
  }

  function SetWaiter(s: State, t: TaskId, w: Waiter): State
    requires t < |s.waiters|
  {
    s.(waiters := s.waiters[t := w])
  }

  function SetQueue(s: State, q: QueueId, tasks: seq<TaskId>): State
    requires q < |s.queues|
  {
    s.(queues := s.queues[q := tasks])
  }

  /** Take the task at index `i` out of a queue and wake it. */
  ghost predicate TakeStep(s: State, s': State, q: QueueId, i: nat) {
    && q < |s.queues| && i < |s.queues[q]| && s.queues[q][i] < |s.waiters|
    && var t := s.queues[q][i];
       s' == SetWaiter(SetQueue(s, q, s.queues[q][..i] + s.queues[q][i + 1..]), t,
                       Wake(s.waiters[t]).(inQueue := false))
  }

  ghost predicate Step(s: State, s': State, e: Event) {
    match e
    case Block(t, q) =>
      && t < |s.waiters| && q < |s.queues| && s.waiters[t].state == Running
      && (s.waiters[t].home == None || s.waiters[t].home == Some(q))
      && s' == SetWaiter(SetQueue(s, q, s.queues[q] + [t]), t, Waiter(Blocked, true, Some(q)))
    case NotifyOne(q) => TakeStep(s, s', q, 0)
    case NotifyTask(q, i) =>
      q < |s.queues| && i < |s.queues[q]| && s.queues[q][i] !in s.queues[q][..i] && TakeStep(s, s', q, i)
    case Drain(q, count, target) =>
      && q < |s.queues| && target < |s.queues|
      && var n := if count < |s.queues[q]| then count else |s.queues[q]|;
         s' == SetQueue(s, q, s.queues[q][n..]).(moving := s.moving + [s.queues[q][..n]],
                                                 targets := s.targets + [target])
    case Deliver(i) =>
      && i < |s.moving| == |s.targets| && s.targets[i] < |s.queues|
      && s' == SetQueue(s, s.targets[i], s.queues[s.targets[i]] + s.moving[i])
               .(moving := s.moving[..i] + s.moving[i + 1..], targets := s.targets[..i] + s.targets[i + 1..])
    case Stray(t) => t < |s.waiters| && s' == SetWaiter(s, t, Wake(s.waiters[t]))
    case Resume(t) =>
      t < |s.waiters| && s.waiters[t].state == Ready && s' == SetWaiter(s, t, s.waiters[t].(state := Running))
    case Finish(t) =>
      && t < |s.waiters| && s.waiters[t].state == Running && s.waiters[t].home.Some?
      && s.waiters[t].home.value < |s.queues|
      && var q := s.waiters[t].home.value;
         s' == SetWaiter(if s.waiters[t].inQueue then SetQueue(s, q, Without(s.queues[q], t)) else s, t,
                         Waiter(Running, false, None))
  }

  /** The events a configuration allows in a state. */
  predicate Allowed(s: State, e: Event, config: Config) {
    match e
    case Stray(_) => config.strays
    case Drain(_, _, _) => config.requeues
    case Block(t, _) => config.loops || t >= |s.waiters| || s.waiters[t].home == None
    case _ => true
  }

  /** Nobody waits. */
  function Start(tasks: nat, queues: nat): State {
    State(seq(queues, _ => []), [], [], seq(tasks, _ => Waiter(Running, false, None)))
  }

  ghost predicate StepAt(states: seq<State>, events: seq<Event>, config: Config, k: nat) {
    && k < |events| < |states|
    && Step(states[k], states[k + 1], events[k]) && Allowed(states[k], events[k], config)
  }

  ghost predicate Run(states: seq<State>, events: seq<Event>, tasks: nat, queues: nat, config: Config) {
    && |states| == |events| + 1
    && states[0] == Start(tasks, queues)
    && forall k :: 0 <= k < |events| ==> StepAt(states, events, config, k)
  }

  ghost predicate Reachable(s: State, tasks: nat, queues: nat, config: Config) {
    exists states, events :: Run(states, events, tasks, queues, config) && states[|events|] == s
  }
}
