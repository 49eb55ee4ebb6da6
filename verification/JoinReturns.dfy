/** When a join returns: never before the exit, and for threads soon after it. */
module JoinReturns {
  import opened Wrappers
  import opened TaskTypes
  import opened JoinMachine
  import opened JoinTheorems

  /** Past the wait. */
  predicate Returning(pc: Pc) { pc.Cancel? || pc.WantCancel? || pc.Retain? || pc.Done? }

  /** The notifier has not begun to empty the queue, or has emptied it. */
  predicate Quiet(n: Notifier) { n.Alive? || n == WantQueue(false) || n == Release(true) || n.Finished? }

  /** Who is past the wait has seen the exit; marks tell who is queued, but for entries that
      the notifier is working on. */
  ghost predicate MarkInv(s: State, j: Jid)
    requires j < |s.joiners|
  {
    var me := s.joiners[j];
    && (Returning(me.pc) ==> s.exited && me.state == Running)
    && (me.pc.Done? ==> !me.inQueue)
    && (me.pc.Push? ==> me.inQueue)
    && (me.inQueue ==> j in s.queue || s.notifier == Clear(j) || me.pc.Push?)
    && (Quiet(s.notifier) && j in s.queue ==> me.inQueue)
  }

  ghost predicate MarksInv(s: State) {
    forall j :: 0 <= j < |s.joiners| ==> MarkInv(s, j)
  }

  lemma JoinerMarks(s: State, s': State, j: Jid)
    requires Inv(s) && MarksInv(s) && j < |s.joiners| && JoinerStep(s, s', j)
    ensures MarksInv(s')
  {
    assert JoinerInv(s, j) && MarkInv(s, j);
    OwnMarks(s, s', j);
    forall i | 0 <= i < |s'.joiners| ensures MarkInv(s', i) {
      if i != j {
        assert MarkInv(s, i);
        QueueKeeps(s, s', j, i);
      }
    }
  }

  lemma OwnMarks(s: State, s': State, j: Jid)
    requires LockInv(s) && j < |s.joiners| && JoinerInv(s, j) && MarkInv(s, j) && JoinerStep(s, s', j)
    ensures |s'.joiners| == |s.joiners| && MarkInv(s', j)
  {
    if s.joiners[j].pc.Retain? {
      WithoutMember(s.queue, j, j);
    }
  }

  lemma NotifierMarks(s: State, s': State)
    requires Inv(s) && MarksInv(s) && NotifierStep(s, s')
    ensures MarksInv(s')
  {
    forall i | 0 <= i < |s'.joiners| ensures MarkInv(s', i) {
      assert JoinerInv(s, i) && MarkInv(s, i);
    }
  }

  lemma StrayMarks(s: State, j: Jid)
    requires Inv(s) && MarksInv(s) && j < |s.joiners|
    ensures MarksInv(Awaken(s, j))
  {
    var s' := Awaken(s, j);
    forall i | 0 <= i < |s'.joiners| ensures MarkInv(s', i) {
      assert MarkInv(s, i);
    }
  }

  lemma {:induction false} RunMarks(states: seq<State>, actors: seq<Actor>, k: nat)
    requires Run(states, actors) && k <= |actors|
    ensures MarksInv(states[k])
  {
    if k == 0 {
    } else {
      RunMarks(states, actors, k - 1);
      RunHolds(states, actors, k - 1);
      var s, s' := states[k - 1], states[k];
      assert Step(s, s', actors[k - 1]);
      match actors[k - 1]
      case ANotifier => NotifierMarks(s, s');
      case AJoiner(j) => JoinerMarks(s, s', j);
      case AStray(j) => StrayMarks(s, j);
    }
  }

  lemma ReachableMarks(s: State)
    requires Reachable(s)
    ensures Inv(s) && MarksInv(s)
  {
    var states, actors :| Run(states, actors) && states[|actors|] == s;
    RunHolds(states, actors, |actors|);
    RunMarks(states, actors, |actors|);
  }

  /** NOT BEFORE THE EXIT: a joiner, thread or coroutine, that is past its wait joins a task
      that has exited. One that has returned runs, is not marked, and has left no entry in the
      queue, unless the notifier is just emptying it. */
  lemma ReturnsAfterExit(s: State, j: Jid)
    requires Reachable(s) && j < |s.joiners| && Returning(s.joiners[j].pc)
    ensures s.exited && s.joiners[j].state == Running
    ensures s.joiners[j].pc.Done? ==> !s.joiners[j].inQueue && (Quiet(s.notifier) ==> j !in s.queue)
  {
    ReachableMarks(s);
    assert MarkInv(s, j);
  }

  /** THE MARK IS EXACT: before the notifier begins and after it is done, a joiner that is not
      inside the critical section is marked exactly when it is queued. */
  lemma MarkExact(s: State, j: Jid)
    requires Reachable(s) && j < |s.joiners| && Quiet(s.notifier) && !InLock(s.joiners[j].pc)
    ensures s.joiners[j].inQueue <==> j in s.queue
  {
    ReachableMarks(s);
    assert MarkInv(s, j);
  }

  /** A joiner that tests its condition goes on exactly when the task has exited. */
  lemma TestExact(s: State, s': State, j: Jid)
    requires j < |s.joiners| && Step(s, s', AJoiner(j)) && (s.joiners[j].pc.Peek? || s.joiners[j].pc.Test?)
    ensures |s'.joiners| == |s.joiners|
    ensures Returning(s'.joiners[j].pc) <==> s.exited
  {
  }

  /** A joiner can move unless it waits for the lock or for a wakeup. */
  lemma MovesExactly(s: State, j: Jid)
    requires j < |s.joiners|
    ensures (exists s' :: Step(s, s', AJoiner(j))) <==>
            && ((s.joiners[j].pc.WantLock? || s.joiners[j].pc.WantCancel?) ==> s.lock == None)
            && (s.joiners[j].pc.Parked? ==> s.joiners[j].state == Ready)
  {
    if && ((s.joiners[j].pc.WantLock? || s.joiners[j].pc.WantCancel?) ==> s.lock == None)
       && (s.joiners[j].pc.Parked? ==> s.joiners[j].state == Ready)
    {
      assert Step(s, Moved(s, j), AJoiner(j));
    }
  }

  /** The step of joiner `j`. */
  function Moved(s: State, j: Jid): State
    requires j < |s.joiners|
  {
    var me := s.joiners[j];
    match me.pc
    case Outside => Goto(s, j, if me.coroutine then Peek else WantLock)
    case Peek => Goto(s, j, if s.exited then Cancel else WantLock)
    case WantLock => Goto(s.(lock := Some(TheJoiner(j))), j, if me.coroutine then Mark else Test)
    case Test => if s.exited then Goto(s.(lock := None), j, Cancel) else Goto(s, j, Mark)
    case Mark => Set(s, j, me.(state := Blocked, pc := Flag))
    case Flag => Set(s, j, me.(inQueue := true, pc := Push))
    case Push => Goto(s.(queue := s.queue + [j]), j, Unlock)
    case Unlock => Goto(s.(lock := None), j, Parked)
    case Parked => Set(s, j, me.(state := Running, pc := if me.coroutine then Peek else WantLock))
    case Cancel => Goto(s, j, if me.inQueue then WantCancel else Done)
    case WantCancel => Goto(s.(lock := Some(TheJoiner(j))), j, Retain)
    case Retain => Set(s.(lock := None, queue := Without(s.queue, j)), j, me.(inQueue := false, pc := Done))
    case Done => s
  }

  /** Whoever holds the lock can move. */
  lemma HolderMoves(s: State)
    requires Reachable(s) && s.lock.Some?
    ensures match s.lock.value
            case TheNotifier => exists s' :: Step(s, s', ANotifier)
            case TheJoiner(j) => j < |s.joiners| ==> exists s' :: Step(s, s', AJoiner(j))
  {
    ReachableHolds(s);
    match s.lock.value
    case TheNotifier =>
      var n := s.notifier;
      var s' := match n
                case Pop => if s.queue == [] then s.(notifier := Release(true))
                            else s.(queue := s.queue[1..], notifier := Clear(s.queue[0]))
                case Clear(j) => Set(s.(notifier := Wake(j)), j, s.joiners[j].(inQueue := false))
                case Wake(j) => Awaken(s.(notifier := Release(false)), j)
                case Release(last) => s.(lock := None, notifier := if last then Finished else WantQueue(true))
                case _ => s;
      assert Step(s, s', ANotifier);
    case TheJoiner(j) =>
      if j < |s.joiners| {
        MovesExactly(s, j);
      }
  }

  /** The steps that a thread still has to take once the notifier has finished. */
  function StepsLeft(pc: Pc): nat {
    match pc
    case Unlock => 7
    case Parked => 6
    case Outside => 6
    case WantLock => 5
    case Test => 4
    case Cancel => 3
    case WantCancel => 2
    case Retain => 1
    case _ => 0
  }

  /** A thread is by then at none of the places where it would go to sleep. */
  lemma ThreadAwake(s: State, j: Jid)
    requires Reachable(s) && s.notifier.Finished? && j < |s.joiners| && !s.joiners[j].coroutine
    ensures var me := s.joiners[j];
            s.exited && me.state != Blocked && !me.pc.Peek? && !me.pc.Mark? && !me.pc.Flag? && !me.pc.Push?
  {
    NoThreadMissesExit(s);
    ReachableHolds(s);
    assert JoinerInv(s, j);
  }

  lemma ThreadMoves(s: State, s': State, actor: Actor, j: Jid)
    requires Reachable(s) && s.notifier.Finished? && j < |s.joiners| && !s.joiners[j].coroutine
    requires Step(s, s', actor)
    ensures s'.notifier.Finished? && j < |s'.joiners| && !s'.joiners[j].coroutine
    ensures actor != AJoiner(j) ==> s'.joiners[j].pc == s.joiners[j].pc
    ensures actor == AJoiner(j) ==>
              s'.joiners[j].pc.Done? || StepsLeft(s'.joiners[j].pc) < StepsLeft(s.joiners[j].pc)
  {
    ThreadAwake(s, j);
    match actor
    case ANotifier =>
    case AJoiner(i) =>
    case AStray(i) =>
  }

  /** How many of the steps from `i` up to `k` joiner `j` takes. */
  function StepsOf(actors: seq<Actor>, i: nat, k: nat, j: Jid): nat
    requires i <= k <= |actors|
    decreases k
  {
    if i == k then 0 else StepsOf(actors, i, k - 1, j) + if actors[k - 1] == AJoiner(j) then 1 else 0
  }

  lemma PrefixReachable(states: seq<State>, actors: seq<Actor>, k: nat)
    requires Run(states, actors) && k <= |actors|
    ensures Reachable(states[k])
  {
    var prefix, taken := states[..k + 1], actors[..k];
    forall m | 0 <= m < k ensures Step(prefix[m], prefix[m + 1], taken[m]) {
      assert taken[m] == actors[m];
    }
    assert Run(prefix, taken) && prefix[|taken|] == states[k];
  }

  lemma {:induction false} StepsUsedUp(states: seq<State>, actors: seq<Actor>, i: nat, k: nat, j: Jid)
    requires Run(states, actors) && i <= k <= |actors| && states[i].notifier.Finished?
    requires j < |states[i].joiners| && !states[i].joiners[j].coroutine
    ensures states[k].notifier.Finished? && j < |states[k].joiners| && !states[k].joiners[j].coroutine
    ensures states[k].joiners[j].pc.Done? || StepsLeft(states[k].joiners[j].pc) <= 7 - StepsOf(actors, i, k, j)
    decreases k
  {
    if i == k {
    } else {
      StepsUsedUp(states, actors, i, k - 1, j);
      PrefixReachable(states, actors, k - 1);
      assert Step(states[k - 1], states[k], actors[k - 1]);
      ThreadMoves(states[k - 1], states[k], actors[k - 1], j);
    }
  }

  /** THREADS RETURN: once `notify_all` has finished, a thread has returned from its join after
      at most seven steps of its own, whatever else runs. */
  lemma ThreadsReturn(states: seq<State>, actors: seq<Actor>, i: nat, k: nat, j: Jid)
    requires Run(states, actors) && i <= k <= |actors| && states[i].notifier.Finished?
    requires j < |states[i].joiners| && !states[i].joiners[j].coroutine && StepsOf(actors, i, k, j) >= 7
    ensures j < |states[k].joiners| && states[k].joiners[j].pc.Done?
  {
    StepsUsedUp(states, actors, i, k, j);
    PrefixReachable(states, actors, k);
    ThreadAwake(states[k], j);
  }
}
