/** Joining a task: any number of joiners, threads or coroutines, one exiting task, and
    stray wakers; one step per lock operation or access to a shared field. */
module JoinMachine {
  import opened Wrappers
  import opened TaskTypes

  type Jid = TaskId

  /** Where a joiner stands. Everything from `Test` to `Unlock`, and `Retain`, is done
      holding the lock of the wait queue. */
  datatype Pc =
    | Outside
    | Peek       // coroutine: test the condition without the lock
    | WantLock
    | Test       // thread: test the condition under the lock
    | Mark       // set the own state to Blocked
    | Flag       // set `in_wait_queue`
    | Push       // join the queue
    | Unlock
    | Parked     // given up the CPU, until made Ready and picked
    | Cancel     // the condition held: leave the queue if still marked as in it
    | WantCancel
    | Retain
    | Done

  datatype Joiner = Joiner(coroutine: bool, state: TaskState, inQueue: bool, pc: Pc)

  /** Where the exiting task stands. `swept`: it has held the lock since it exited. */
  datatype Notifier =
    | Alive
    | WantQueue(swept: bool)
    | Pop
    | Clear(j: Jid)     // popped, about to clear `in_wait_queue`
    | Wake(j: Jid)      // about to move Blocked to Ready
    | Release(last: bool)
    | Finished

  datatype Owner = TheNotifier | TheJoiner(j: Jid)

  datatype State = State(exited: bool, lock: Option<Owner>, queue: seq<Jid>,
                         joiners: seq<Joiner>, notifier: Notifier)

  datatype Actor = ANotifier | AJoiner(j: Jid) | AStray(j: Jid)

  ghost predicate Init(s: State) {
    && !s.exited && s.lock == None && s.queue == [] && s.notifier == Alive
    && forall j :: 0 <= j < |s.joiners| ==>
         s.joiners[j].state == Running && !s.joiners[j].inQueue && s.joiners[j].pc == Outside
  }

  function Set(s: State, j: Jid, joiner: Joiner): State
    requires j < |s.joiners|
  {
    s.(joiners := s.joiners[j := joiner])
  }

  function Goto(s: State, j: Jid, pc: Pc): State
    requires j < |s.joiners|
  {
    Set(s, j, s.joiners[j].(pc := pc))
  }

  /** `join` for threads, `join_f` for coroutines. */
  ghost predicate JoinerStep(s: State, s': State, j: Jid)
    requires j < |s.joiners|
  {
    var me := s.joiners[j];
    match me.pc
    case Outside => s' == Goto(s, j, if me.coroutine then Peek else WantLock)
    case Peek => s' == Goto(s, j, if s.exited then Cancel else WantLock)
    case WantLock =>
      s.lock == None && s' == Goto(s.(lock := Some(TheJoiner(j))), j, if me.coroutine then Mark else Test)
    case Test => s' == if s.exited then Goto(s.(lock := None), j, Cancel) else Goto(s, j, Mark)
    case Mark => s' == Set(s, j, me.(state := Blocked, pc := Flag))
    case Flag => s' == Set(s, j, me.(inQueue := true, pc := Push))
    case Push => s' == Goto(s.(queue := s.queue + [j]), j, Unlock)
    case Unlock => s' == Goto(s.(lock := None), j, Parked)
    case Parked =>
      me.state == Ready && s' == Set(s, j, me.(state := Running, pc := if me.coroutine then Peek else WantLock))
    case Cancel => s' == Goto(s, j, if me.inQueue then WantCancel else Done)
    case WantCancel => s.lock == None && s' == Goto(s.(lock := Some(TheJoiner(j))), j, Retain)
    case Retain =>
      s' == Set(s.(lock := None, queue := Without(s.queue, j)), j, me.(inQueue := false, pc := Done))
    case Done => s' == s
  }

  /** `set_state(Exited)`, then `notify_all`. */
  ghost predicate NotifierStep(s: State, s': State) {
    match s.notifier
    case Alive => s' == s.(exited := true, notifier := WantQueue(false))
    case WantQueue(_) => s.lock == None && s' == s.(lock := Some(TheNotifier), notifier := Pop)
    case Pop =>
      s' == if s.queue == [] then s.(notifier := Release(true))
            else s.(queue := s.queue[1..], notifier := Clear(s.queue[0]))
    case Clear(j) =>
      && j < |s.joiners|
      && s' == Set(s.(notifier := Wake(j)), j, s.joiners[j].(inQueue := false))
    case Wake(j) => j < |s.joiners| && s' == Awaken(s.(notifier := Release(false)), j)
    case Release(last) => s' == s.(lock := None, notifier := if last then Finished else WantQueue(true))
    case Finished => s' == s
  }

  /** The compare-and-swap Blocked -> Ready. */
  function Awaken(s: State, j: Jid): State
    requires j < |s.joiners|
  {
    if s.joiners[j].state == Blocked then Set(s, j, s.joiners[j].(state := Ready)) else s
  }

  /** A stray waker may try to unblock any joiner at any time. */
  ghost predicate Step(s: State, s': State, actor: Actor) {
    match actor
    case ANotifier => NotifierStep(s, s')
    case AJoiner(j) => j < |s.joiners| && JoinerStep(s, s', j)
    case AStray(j) => j < |s.joiners| && s' == Awaken(s, j)
  }

  ghost predicate Run(states: seq<State>, actors: seq<Actor>) {
    && |states| == |actors| + 1
    && Init(states[0])
    && forall k {:trigger actors[k]} :: 0 <= k < |actors| ==> Step(states[k], states[k + 1], actors[k])
  }

  ghost predicate Reachable(s: State) {
    exists states, actors :: Run(states, actors) && states[|actors|] == s
  }
}
