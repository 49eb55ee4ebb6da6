/** No thread misses the exit of the task it joins; a coroutine can. */
module JoinTheorems {
  import opened Wrappers
  import opened TaskTypes
  import opened JoinMachine

  predicate InLock(pc: Pc) {
    pc.Test? || pc.Mark? || pc.Flag? || pc.Push? || pc.Unlock? || pc.Retain?
  }

  predicate NotifierInLock(n: Notifier) { n.Pop? || n.Clear? || n.Wake? || n.Release? }

  /** The notifier has held the lock since the exit. */
  predicate Swept(n: Notifier) { NotifierInLock(n) || n == WantQueue(true) || n.Finished? }

  predicate InHand(n: Notifier, j: Jid) { (n.Clear? || n.Wake?) && n.j == j }

  /** Who is inside the critical section is who the lock names. */
  ghost predicate LockInv(s: State) {
    && (NotifierInLock(s.notifier) <==> s.lock == Some(TheNotifier))
    && (forall j :: 0 <= j < |s.joiners| ==> (InLock(s.joiners[j].pc) <==> s.lock == Some(TheJoiner(j))))
    && (s.exited <==> !s.notifier.Alive?)
    && (forall k :: 0 <= k < |s.queue| ==> s.queue[k] < |s.joiners|)
    && (s.notifier.Clear? || s.notifier.Wake? ==> s.notifier.j < |s.joiners|)
  }

  /** A blocked joiner is on its way into the queue, in it, or in the notifier's hand;
      a thread on its way in cannot have been overtaken by the notifier. */
  ghost predicate JoinerInv(s: State, j: Jid)
    requires j < |s.joiners|
  {
    var me := s.joiners[j];
    && (me.state == Blocked ==>
          || me.pc.Flag? || me.pc.Push?
          || ((me.pc.Unlock? || me.pc.Parked?) && (j in s.queue || InHand(s.notifier, j))))
    && (me.pc.Test? || me.pc.Peek? || me.pc.WantLock? || me.pc.Mark? || me.pc.Outside? ==> me.state == Running)
    && (!me.coroutine && Swept(s.notifier) ==> !me.pc.Mark? && !me.pc.Flag? && !me.pc.Push?)
    && (!me.coroutine ==> !me.pc.Peek?)
    && (me.coroutine ==> !me.pc.Test?)
  }

  /** Once the notifier has found the queue empty, only coroutines join it. */
  ghost predicate Inv(s: State) {
    && LockInv(s)
    && (forall j :: 0 <= j < |s.joiners| ==> JoinerInv(s, j))
    && (s.notifier.Finished? || s.notifier == Release(true) ==>
          forall k :: 0 <= k < |s.queue| ==> s.joiners[s.queue[k]].coroutine)
  }

  lemma WithoutKeeps(q: seq<Jid>, j: Jid, i: Jid)
    requires i != j
    ensures i in Without(q, j) <==> i in q
    ensures forall k :: 0 <= k < |Without(q, j)| ==> Without(q, j)[k] in q
  {
    WithoutMember(q, j, i);
    forall k | 0 <= k < |Without(q, j)| ensures Without(q, j)[k] in q {
      WithoutMember(q, j, Without(q, j)[k]);
    }
  }

  /** What a step of joiner `j` leaves alone. */
  lemma OthersKeep(s: State, s': State, j: Jid)
    requires j < |s.joiners| == |s'.joiners| && s'.notifier == s.notifier
    requires forall i :: 0 <= i < |s.joiners| && i != j ==> s'.joiners[i] == s.joiners[i]
    requires forall i: Jid {:trigger i in s'.queue} {:trigger i in s.queue} ::
               i != j ==> (i in s'.queue <==> i in s.queue)
    requires forall i :: 0 <= i < |s.joiners| ==> JoinerInv(s, i)
    ensures forall i :: 0 <= i < |s.joiners| && i != j ==> JoinerInv(s', i)
  {
    forall i | 0 <= i < |s.joiners| && i != j ensures JoinerInv(s', i) {
      assert JoinerInv(s, i);
    }
  }

  /** Only `Push` and `Retain` change the queue, and only as to `j`. */
  lemma QueueKeeps(s: State, s': State, j: Jid, i: Jid)
    requires j < |s.joiners| && JoinerStep(s, s', j) && i != j
    ensures i in s'.queue <==> i in s.queue
    ensures forall k :: 0 <= k < |s'.queue| ==> s'.queue[k] in s.queue || s'.queue[k] == j
    ensures s.joiners[j].pc.Push? || (forall k :: 0 <= k < |s'.queue| ==> s'.queue[k] in s.queue)
  {
    if s.joiners[j].pc.Retain? {
      WithoutKeeps(s.queue, j, i);
    }
  }

  lemma JoinerKeepsLock(s: State, s': State, j: Jid)
    requires LockInv(s) && j < |s.joiners| && JoinerStep(s, s', j)
    ensures LockInv(s')
  {
    QueueKeeps(s, s', j, j + 1);
  }

  lemma JoinerKeepsOwn(s: State, s': State, j: Jid)
    requires LockInv(s) && j < |s.joiners| && JoinerInv(s, j) && JoinerStep(s, s', j)
    ensures |s'.joiners| == |s.joiners| && JoinerInv(s', j)
  {
  }

  lemma JoinerKeeps(s: State, s': State, j: Jid)
    requires Inv(s) && j < |s.joiners| && JoinerStep(s, s', j)
    ensures Inv(s')
  {
    assert JoinerInv(s, j);
    JoinerKeepsLock(s, s', j);
    JoinerKeepsOwn(s, s', j);
    QueueKeeps(s, s', j, j + 1);
    forall i: Jid | i != j ensures i in s'.queue <==> i in s.queue {
      QueueKeeps(s, s', j, i);
    }
    AllKeep(s, s', j);
  }

  /** Putting together what a step of joiner `j` keeps. */
  lemma AllKeep(s: State, s': State, j: Jid)
    requires Inv(s) && LockInv(s') && j < |s.joiners| == |s'.joiners| && JoinerInv(s', j)
    requires s'.notifier == s.notifier && s'.joiners[j].coroutine == s.joiners[j].coroutine
    requires forall i :: 0 <= i < |s.joiners| && i != j ==> s'.joiners[i] == s.joiners[i]
    requires forall i: Jid {:trigger i in s'.queue} {:trigger i in s.queue} ::
               i != j ==> (i in s'.queue <==> i in s.queue)
    requires (forall k :: 0 <= k < |s'.queue| ==> s'.queue[k] in s.queue) || s.joiners[j].pc.Push?
    requires forall k :: 0 <= k < |s'.queue| ==> s'.queue[k] in s.queue || s'.queue[k] == j
    requires JoinerInv(s, j)
    ensures Inv(s')
  {
    OthersKeep(s, s', j);
  }

  lemma NotifierKeeps(s: State, s': State)
    requires Inv(s) && NotifierStep(s, s')
    ensures Inv(s')
  {
    forall i | 0 <= i < |s'.joiners| ensures JoinerInv(s', i) {
      assert JoinerInv(s, i);
    }
  }

  lemma StrayKeeps(s: State, j: Jid)
    requires Inv(s) && j < |s.joiners|
    ensures Inv(Awaken(s, j))
  {
    var s' := Awaken(s, j);
    forall i | 0 <= i < |s'.joiners| ensures JoinerInv(s', i) {
      assert JoinerInv(s, i);
    }
  }

  lemma StepKeeps(s: State, s': State, actor: Actor)
    requires Inv(s) && Step(s, s', actor)
    ensures Inv(s')
  {
    match actor
    case ANotifier => NotifierKeeps(s, s');
    case AJoiner(j) => JoinerKeeps(s, s', j);
    case AStray(j) => StrayKeeps(s, j);
  }

  lemma {:induction false} RunHolds(states: seq<State>, actors: seq<Actor>, k: nat)
    requires Run(states, actors) && k <= |actors|
    ensures Inv(states[k])
  {
    if k == 0 {
    } else {
      RunHolds(states, actors, k - 1);
      StepKeeps(states[k - 1], states[k], actors[k - 1]);
    }
  }

  lemma ReachableHolds(s: State)
    requires Reachable(s)
    ensures Inv(s)
  {
    var states, actors :| Run(states, actors) && states[|actors|] == s;
    RunHolds(states, actors, |actors|);
  }

  /** The notifier is done, and joiner `j` sleeps. */
  ghost predicate Stranded(s: State, j: Jid) {
    && s.notifier.Finished?
    && j < |s.joiners|
    && s.joiners[j].pc.Parked?
    && s.joiners[j].state == Blocked
  }

  /** No lost wakeup: after `notify_all` no thread is blocked or queued, whatever
      else runs; if every joiner is a thread, the queue is empty for good. */
  lemma NoThreadMissesExit(s: State)
    requires Reachable(s) && s.notifier.Finished?
    ensures forall j :: 0 <= j < |s.joiners| && !s.joiners[j].coroutine ==>
              s.joiners[j].state != Blocked && j !in s.queue
    ensures (forall j :: 0 <= j < |s.joiners| ==> !s.joiners[j].coroutine) ==> s.queue == []
  {
    ReachableHolds(s);
    forall j | 0 <= j < |s.joiners| && !s.joiners[j].coroutine
      ensures s.joiners[j].state != Blocked && j !in s.queue
    {
      assert JoinerInv(s, j);
    }
    if s.queue != [] {
      assert s.joiners[s.queue[0]].coroutine;
    }
  }

  /** A stranded joiner stays so unless a stray waker hits it. */
  lemma StrandedForGood(s: State, s': State, actor: Actor, j: Jid)
    requires Stranded(s, j) && Step(s, s', actor) && actor != AStray(j)
    ensures Stranded(s', j)
  {
    match actor
    case ANotifier =>
    case AJoiner(i) => assert i != j;
    case AStray(i) =>
  }

  ghost predicate HasKinds(s: State, coroutine: seq<bool>) {
    && |s.joiners| == |coroutine|
    && forall j :: 0 <= j < |coroutine| ==> s.joiners[j].coroutine == coroutine[j]
  }

  /** With joiners of these kinds, joiner `j` can be left asleep. */
  ghost predicate CanStrand(coroutine: seq<bool>, j: Jid) {
    exists s :: Reachable(s) && HasKinds(s, coroutine) && Stranded(s, j)
  }

  lemma ReachableStep(s: State, s': State, actor: Actor)
    requires Reachable(s) && Step(s, s', actor)
    ensures Reachable(s')
  {
    var states, actors :| Run(states, actors) && states[|actors|] == s;
    var states', actors' := states + [s'], actors + [actor];
    assert Run(states', actors') by {
      forall k | 0 <= k < |actors'| ensures Step(states'[k], states'[k + 1], actors'[k]) {
        if k < |actors| {
          assert actors'[k] == actors[k];
        }
      }
    }
    assert states'[|actors'|] == s';
  }

  function Start(coroutine: seq<bool>): State {
    State(false, None, [], seq(|coroutine|, i requires 0 <= i < |coroutine| =>
            Joiner(coroutine[i], Running, false, Outside)), Alive)
  }

  lemma StartReachable(coroutine: seq<bool>)
    ensures Reachable(Start(coroutine))
  {
    assert Run([Start(coroutine)], []);
  }

  /** The exit and the whole of `notify_all` fit between the joiner's test and its lock. */
  lemma NotifiedTooSoon(coroutine: seq<bool>, j: Jid) returns (s: State)
    requires j < |coroutine| && coroutine[j]
    ensures Reachable(s) && HasKinds(s, coroutine) && s.queue == [] && s.lock == None
    ensures s.notifier.Finished? && s.joiners[j] == Joiner(true, Running, false, WantLock)
  {
    StartReachable(coroutine);
    var s0 := Start(coroutine);
    var s1 := Goto(s0, j, Peek);
    ReachableStep(s0, s1, AJoiner(j));
    var s2 := Goto(s1, j, WantLock);
    ReachableStep(s1, s2, AJoiner(j));
    var s3 := s2.(exited := true, notifier := WantQueue(false));
    ReachableStep(s2, s3, ANotifier);
    var s4 := s3.(lock := Some(TheNotifier), notifier := Pop);
    ReachableStep(s3, s4, ANotifier);
    var s5 := s4.(notifier := Release(true));
    ReachableStep(s4, s5, ANotifier);
    s := s5.(lock := None, notifier := Finished);
    ReachableStep(s5, s, ANotifier);
  }

  lemma ThenSleeps(s: State, j: Jid) returns (s': State)
    requires Reachable(s) && s.lock == None && s.notifier.Finished?
    requires j < |s.joiners| && s.joiners[j] == Joiner(true, Running, false, WantLock)
    ensures Reachable(s') && Stranded(s', j) && |s'.joiners| == |s.joiners|
    ensures forall i :: 0 <= i < |s.joiners| ==> s'.joiners[i].coroutine == s.joiners[i].coroutine
  {
    var s1 := Goto(s.(lock := Some(TheJoiner(j))), j, Mark);
    ReachableStep(s, s1, AJoiner(j));
    var s2 := Set(s1, j, s1.joiners[j].(state := Blocked, pc := Flag));
    ReachableStep(s1, s2, AJoiner(j));
    var s3 := Set(s2, j, s2.joiners[j].(inQueue := true, pc := Push));
    ReachableStep(s2, s3, AJoiner(j));
    var s4 := Goto(s3.(queue := s3.queue + [j]), j, Unlock);
    ReachableStep(s3, s4, AJoiner(j));
    s' := Goto(s4.(lock := None), j, Parked);
    ReachableStep(s4, s', AJoiner(j));
  }

  /** Exactly which joiners can be left asleep on an exited task, whoever else joins it: the
      coroutines. */
  lemma StrandsExactlyCoroutines(coroutine: seq<bool>, j: Jid)
    requires j < |coroutine|
    ensures CanStrand(coroutine, j) <==> coroutine[j]
  {
    if CanStrand(coroutine, j) {
      var s :| Reachable(s) && HasKinds(s, coroutine) && Stranded(s, j);
      NoThreadMissesExit(s);
    }
    if coroutine[j] {
      var s := NotifiedTooSoon(coroutine, j);
      var s' := ThenSleeps(s, j);
      assert HasKinds(s', coroutine);
    }
  }
}
