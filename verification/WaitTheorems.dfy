/** When a successful notification wakes somebody, and when a wait leaves no trace. */
module WaitTheorems {
  import opened Wrappers
  import opened TaskTypes
  import opened WaitMachine

  /** All entries of a list of queues. */
  function Entries(qs: seq<seq<TaskId>>): multiset<TaskId> {
    if qs == [] then multiset{} else multiset(qs[0]) + Entries(qs[1..])
  }

  lemma Associate(a: multiset<TaskId>, b: multiset<TaskId>, c: multiset<TaskId>)
    ensures a + (b + c) == (a + b) + c
  {
  }

  lemma EntriesFirst(a: seq<seq<TaskId>>, b: seq<seq<TaskId>>)
    requires a != []
    ensures Entries(a + b) == multiset(a[0]) + Entries(a[1..] + b)
  {
    assert (a + b)[1..] == a[1..] + b;
  }

  lemma {:induction false} EntriesConcat(a: seq<seq<TaskId>>, b: seq<seq<TaskId>>)
    ensures Entries(a + b) == Entries(a) + Entries(b)
  {
    if a == [] {
      assert a + b == b;
    } else {
      EntriesFirst(a, b);
      EntriesConcat(a[1..], b);
      Associate(multiset(a[0]), Entries(a[1..]), Entries(b));
    }
  }

  lemma EntriesOne(q: seq<TaskId>)
    ensures Entries([q]) == multiset(q)
  {
    assert [q][1..] == [];
  }

  /** Taking one queue out of a list, or changing it, changes its entries only. */
  lemma EntriesSplit(qs: seq<seq<TaskId>>, i: nat, q: seq<TaskId>)
    requires i < |qs|
    ensures Entries(qs) == Entries(qs[..i] + qs[i + 1..]) + multiset(qs[i])
    ensures Entries(qs[i := q]) == Entries(qs[..i] + qs[i + 1..]) + multiset(q)
  {
    assert qs == qs[..i] + [qs[i]] + qs[i + 1..];
    assert qs[i := q] == qs[..i] + [q] + qs[i + 1..];
    EntriesConcat(qs[..i] + [qs[i]], qs[i + 1..]);
    EntriesConcat(qs[..i], [qs[i]]);
    EntriesConcat(qs[..i] + [q], qs[i + 1..]);
    EntriesConcat(qs[..i], [q]);
    EntriesConcat(qs[..i], qs[i + 1..]);
    EntriesOne(qs[i]);
    EntriesOne(q);
  }

  lemma {:induction false} EntryOf(qs: seq<seq<TaskId>>, i: nat, t: TaskId)
    requires i < |qs| && t in qs[i]
    ensures t in Entries(qs)
  {
    EntriesSplit(qs, i, qs[i]);
  }

  ghost function Total(s: State): multiset<TaskId> {
    Entries(s.queues) + Entries(s.moving)
  }

  /** Without stray wakeups: a task has an entry, and just one, exactly while it is blocked. */
  ghost predicate Exact(s: State) {
    && |s.targets| == |s.moving|
    && (forall t :: t in Total(s) ==> t < |s.waiters|)
    && (forall t :: 0 <= t < |s.waiters| ==> Total(s)[t] == if s.waiters[t].state == Blocked then 1 else 0)
    && (forall t :: 0 <= t < |s.waiters| && s.waiters[t].state == Blocked ==> s.waiters[t].home.Some?)
  }

  lemma TakeTotal(s: State, s': State, q: QueueId, i: nat)
    requires TakeStep(s, s', q, i)
    ensures Total(s) == Total(s') + multiset{s.queues[q][i]}
  {
    var was := s.queues[q];
    EntriesSplit(s.queues, q, was[..i] + was[i + 1..]);
    assert was == was[..i] + [was[i]] + was[i + 1..];
  }

  lemma DrainTotal(s: State, s': State, e: Event)
    requires e.Drain? && Step(s, s', e) && |s.targets| == |s.moving|
    ensures Total(s') == Total(s) && s'.waiters == s.waiters && |s'.targets| == |s'.moving|
  {
    var was := s.queues[e.q];
    var n := if e.count < |was| then e.count else |was|;
    EntriesSplit(s.queues, e.q, was[n..]);
    EntriesConcat(s.moving, [was[..n]]);
    EntriesOne(was[..n]);
    Cut(was, n);
  }

  lemma DeliverTotal(s: State, s': State, i: nat)
    requires Step(s, s', Deliver(i))
    ensures Total(s') == Total(s) && s'.waiters == s.waiters && |s'.targets| == |s'.moving|
  {
    var q := s.targets[i];
    EntriesSplit(s.queues, q, s.queues[q] + s.moving[i]);
    EntriesSplit(s.moving, i, s.moving[i]);
  }

  lemma FinishTotal(s: State, s': State, t: TaskId)
    requires Step(s, s', Finish(t)) && t !in Total(s)
    ensures Total(s') == Total(s)
  {
    if s.waiters[t].inQueue {
      var q := s.waiters[t].home.value;
      EntriesSplit(s.queues, q, Without(s.queues[q], t));
      WithoutExact(s.queues[q], t);
    }
  }

  lemma BlockExact(s: State, s': State, t: TaskId, q: QueueId)
    requires Exact(s) && Step(s, s', Block(t, q))
    ensures Exact(s')
  {
    EntriesSplit(s.queues, q, s.queues[q] + [t]);
    assert Total(s') == Total(s) + multiset{t};
  }

  lemma TakeExact(s: State, s': State, q: QueueId, i: nat)
    requires Exact(s) && TakeStep(s, s', q, i)
    ensures Exact(s') && s.waiters[s.queues[q][i]].state == Blocked
  {
    var t := s.queues[q][i];
    TakeTotal(s, s', q, i);
    assert Total(s)[t] == 1;
    forall u | u in Total(s') ensures u < |s'.waiters| {
      assert u in Total(s);
    }
  }

  /** A step that changes no entry and no task's being blocked. */
  lemma SameExact(s: State, s': State, t: TaskId)
    requires Exact(s) && Total(s') == Total(s) && |s'.targets| == |s'.moving|
    requires |s'.waiters| == |s.waiters|
    requires forall u :: 0 <= u < |s.waiters| && u != t ==> s'.waiters[u] == s.waiters[u]
    requires t < |s.waiters| ==> s.waiters[t].state != Blocked && s'.waiters[t].state != Blocked
    ensures Exact(s')
  {
  }

  lemma ExactKeeps(s: State, s': State, e: Event)
    requires Exact(s) && Step(s, s', e) && !e.Stray?
    ensures Exact(s')
  {
    match e
    case Block(t, q) => BlockExact(s, s', t, q);
    case NotifyOne(q) => TakeExact(s, s', q, 0);
    case NotifyTask(q, i) => TakeExact(s, s', q, i);
    case Drain(_, _, _) =>
      DrainTotal(s, s', e);
      SameExact(s, s', |s.waiters|);
    case Deliver(i) =>
      DeliverTotal(s, s', i);
      SameExact(s, s', |s.waiters|);
    case Resume(t) => SameExact(s, s', t);
    case Finish(t) =>
      FinishTotal(s, s', t);
      SameExact(s, s', t);
  }

  /** Without requeueing and without blocking again: an entry is in the queue its task waits
      on, once, and marked. */
  ghost predicate AtHome(s: State) {
    && s.moving == [] && s.targets == []
    && (forall q, i {:trigger s.queues[q][i]} :: 0 <= q < |s.queues| && 0 <= i < |s.queues[q]| ==>
          var t := s.queues[q][i];
          t < |s.waiters| && s.waiters[t].home == Some(q) && s.waiters[t].inQueue)
    && (forall q :: 0 <= q < |s.queues| ==> NoTwice(s.queues[q]))
  }

  predicate NoTwice(q: seq<TaskId>) {
    forall i, j :: 0 <= i < j < |q| ==> q[i] != q[j]
  }

  lemma {:induction false} WithoutNoTwice(q: seq<TaskId>, t: TaskId)
    requires NoTwice(q)
    ensures NoTwice(Without(q, t))
  {
    if q == [] {
    } else {
      var rest := Without(q[1..], t);
      assert NoTwice(q[1..]);
      WithoutNoTwice(q[1..], t);
      forall i | 0 <= i < |rest| ensures rest[i] != q[0] {
        WithoutMember(q[1..], t, rest[i]);
        assert rest[i] in q[1..];
      }
    }
  }

  lemma AtHomeKeeps(s: State, s': State, e: Event)
    requires AtHome(s) && Step(s, s', e) && Allowed(s, e, Config(true, false, false))
    ensures AtHome(s')
  {
    match e
    case Block(t, q) =>
    case NotifyOne(q) => TakeAtHome(s, s', q, 0);
    case NotifyTask(q, i) => TakeAtHome(s, s', q, i);
    case Stray(t) =>
    case Resume(t) =>
    case Deliver(_) => assert false;
    case Finish(t) => FinishAtHome(s, s', t);
  }

  lemma TakeAtHome(s: State, s': State, q: QueueId, i: nat)
    requires AtHome(s) && TakeStep(s, s', q, i)
    ensures AtHome(s')
  {
    var was := s.queues[q];
    assert NoTwice(was);
    forall p, j {:trigger s'.queues[p][j]} | 0 <= p < |s'.queues| && 0 <= j < |s'.queues[p]|
      ensures s'.queues[p][j] in s.queues[p] && (p == q ==> s'.queues[p][j] != was[i])
    {
      if p == q {
        assert s'.queues[p][j] == was[if j < i then j else j + 1];
      }
    }
    assert NoTwice(was[..i] + was[i + 1..]);
  }

  lemma FinishAtHome(s: State, s': State, t: TaskId)
    requires AtHome(s) && Step(s, s', Finish(t))
    ensures AtHome(s')
  {
    var q := s.waiters[t].home.value;
    WithoutNoTwice(s.queues[q], t);
    forall p, i {:trigger s'.queues[p][i]} | 0 <= p < |s'.queues| && 0 <= i < |s'.queues[p]|
      ensures s'.queues[p][i] in s.queues[p] && s'.queues[p][i] != t
    {
      if p == q && s.waiters[t].inQueue {
        WithoutMember(s.queues[q], t, s'.queues[p][i]);
      }
    }
  }

  lemma {:induction false} NoEntries(qs: seq<seq<TaskId>>)
    requires forall i :: 0 <= i < |qs| ==> qs[i] == []
    ensures Entries(qs) == multiset{}
  {
    if qs == [] {
    } else {
      NoEntries(qs[1..]);
    }
  }

  lemma {:induction false} RunExact(states: seq<State>, events: seq<Event>, tasks: nat, queues: nat,
                                    config: Config, k: nat)
    requires Run(states, events, tasks, queues, config) && !config.strays && k <= |events|
    ensures Exact(states[k])
  {
    if k == 0 {
      NoEntries(states[0].queues);
    } else {
      RunExact(states, events, tasks, queues, config, k - 1);
      assert StepAt(states, events, config, k - 1);
      ExactKeeps(states[k - 1], states[k], events[k - 1]);
    }
  }

  lemma {:induction false} RunAtHome(states: seq<State>, events: seq<Event>, tasks: nat, queues: nat,
                                     config: Config, k: nat)
    requires Run(states, events, tasks, queues, config) && !config.requeues && !config.loops && k <= |events|
    ensures AtHome(states[k])
  {
    if k == 0 {
    } else {
      RunAtHome(states, events, tasks, queues, config, k - 1);
      assert StepAt(states, events, config, k - 1);
      AtHomeKeeps(states[k - 1], states[k], events[k - 1]);
    }
  }

  /** EVERY NOTIFICATION WAKES: without stray wakeups, whatever is requeued, a task that a
      notification takes out of a queue was blocked and becomes ready. */
  lemma EveryNotificationWakes(s: State, s': State, q: QueueId, i: nat, tasks: nat, queues: nat, config: Config)
    requires Reachable(s, tasks, queues, config) && !config.strays && TakeStep(s, s', q, i)
    ensures s.waiters[s.queues[q][i]].state == Blocked && s'.waiters[s.queues[q][i]].state == Ready
  {
    var states, events :| Run(states, events, tasks, queues, config) && states[|events|] == s;
    RunExact(states, events, tasks, queues, config, |events|);
    TakeExact(s, s', q, i);
  }

  /** A notification, and what it is for: the first task of a queue, or the one at index `i`. */
  predicate Notifies(e: Event, q: QueueId, i: nat) {
    (e == NotifyOne(q) && i == 0) || e == NotifyTask(q, i)
  }

  /** WHAT A NOTIFICATION DOES: it takes that task out, clears its mark, wakes it if it is blocked,
      and touches nothing else. A queue with a task in it can always be notified. */
  lemma NotificationTakes(s: State, e: Event, q: QueueId, i: nat)
    requires Notifies(e, q, i)
    ensures forall s' {:trigger Step(s, s', e)} :: Step(s, s', e) ==>
              && q < |s.queues| == |s'.queues| && i < |s.queues[q]|
              && s'.queues[q] == s.queues[q][..i] + s.queues[q][i + 1..]
              && (forall p :: 0 <= p < |s.queues| && p != q ==> s'.queues[p] == s.queues[p])
              && |s'.waiters| == |s.waiters| && s'.moving == s.moving && s'.targets == s.targets
              && var t := s.queues[q][i];
                 && t < |s.waiters| && !s'.waiters[t].inQueue && s'.waiters[t].home == s.waiters[t].home
                 && s'.waiters[t].state == (if s.waiters[t].state == Blocked then Ready else s.waiters[t].state)
                 && forall u :: 0 <= u < |s.waiters| && u != t ==> s'.waiters[u] == s.waiters[u]
    ensures (exists s' {:trigger Step(s, s', e)} :: Step(s, s', e)) <==>
            && q < |s.queues| && i < |s.queues[q]| && s.queues[q][i] < |s.waiters|
            && s.queues[q][i] !in s.queues[q][..i]
  {
    if && q < |s.queues| && i < |s.queues[q]| && s.queues[q][i] < |s.waiters|
       && s.queues[q][i] !in s.queues[q][..i]
    {
      var t := s.queues[q][i];
      assert Step(s, SetWaiter(SetQueue(s, q, s.queues[q][..i] + s.queues[q][i + 1..]), t,
                               Wake(s.waiters[t]).(inQueue := false)), e);
    }
  }

  /** WHAT REQUEUEING DOES: a drain and its delivery move the first tasks, in order and as many as
      asked for, to the back of the target, which may be the queue itself, and change no task. */
  lemma RequeueMoves(s: State, s1: State, s2: State, q: QueueId, count: nat, target: QueueId)
    requires |s.moving| == |s.targets|
    requires Step(s, s1, Drain(q, count, target)) && Step(s1, s2, Deliver(|s.moving|))
    ensures q < |s.queues| == |s2.queues| && target < |s.queues|
    ensures var n := if count < |s.queues[q]| then count else |s.queues[q]|;
            if target == q then s2.queues == s.queues[q := s.queues[q][n..] + s.queues[q][..n]]
            else s2.queues == s.queues[q := s.queues[q][n..]][target := s.queues[target] + s.queues[q][..n]]
    ensures s2.waiters == s.waiters && s2.moving == s.moving && s2.targets == s.targets
  {
  }

  /** The first task of a queue is not blocked, but one behind it is: a `notify_one` would
      report success and wake nobody. */
  ghost predicate Swallows(s: State) {
    exists q: QueueId, i: nat ::
      && q < |s.queues| && 0 < i < |s.queues[q]|
      && s.queues[q][0] < |s.waiters| && s.waiters[s.queues[q][0]].state != Blocked
      && s.queues[q][i] < |s.waiters| && s.waiters[s.queues[q][i]].state == Blocked
  }

  /** A queue has an entry of a task whose wait is over. */
  ghost predicate Outlives(s: State) {
    exists q: QueueId, i: nat ::
      && q < |s.queues| && i < |s.queues[q]|
      && s.queues[q][i] < |s.waiters| && s.waiters[s.queues[q][i]].home == None
  }

  ghost predicate CanSwallow(tasks: nat, queues: nat, config: Config) {
    exists s :: Reachable(s, tasks, queues, config) && Swallows(s)
  }

  ghost predicate CanOutlive(tasks: nat, queues: nat, config: Config) {
    exists s :: Reachable(s, tasks, queues, config) && Outlives(s)
  }

  lemma ReachStep(s: State, s': State, e: Event, tasks: nat, queues: nat, config: Config)
    requires Reachable(s, tasks, queues, config) && Step(s, s', e) && Allowed(s, e, config)
    ensures Reachable(s', tasks, queues, config)
  {
    var states, events :| Run(states, events, tasks, queues, config) && states[|events|] == s;
    var states', events' := states + [s'], events + [e];
    forall k | 0 <= k < |events'| ensures StepAt(states', events', config, k) {
      assert k < |events| ==> StepAt(states, events, config, k);
    }
    assert Run(states', events', tasks, queues, config) && states'[|events'|] == s';
  }

  lemma StartReachable(tasks: nat, queues: nat, config: Config)
    ensures Reachable(Start(tasks, queues), tasks, queues, config)
  {
    assert Run([Start(tasks, queues)], [], tasks, queues, config);
  }

  /** Task `t` has blocked on queue 0, and stands last in it. */
  lemma Blocks(s: State, t: TaskId, tasks: nat, queues: nat, config: Config) returns (s': State)
    requires Reachable(s, tasks, queues, config) && t < |s.waiters| && 0 < |s.queues| && s.waiters[t].state == Running
    requires s.waiters[t].home == None || (s.waiters[t].home == Some(0) && config.loops)
    ensures Reachable(s', tasks, queues, config)
    ensures s' == SetWaiter(SetQueue(s, 0, s.queues[0] + [t]), t, Waiter(Blocked, true, Some(0)))
  {
    s' := SetWaiter(SetQueue(s, 0, s.queues[0] + [t]), t, Waiter(Blocked, true, Some(0)));
    ReachStep(s, s', Block(t, 0), tasks, queues, config);
  }

  /** A stray wakeup, and the task runs again. */
  lemma Strays(s: State, t: TaskId, tasks: nat, queues: nat, config: Config) returns (s': State)
    requires Reachable(s, tasks, queues, config) && config.strays && t < |s.waiters| && s.waiters[t].state == Blocked
    ensures Reachable(s', tasks, queues, config) && s' == SetWaiter(s, t, s.waiters[t].(state := Running))
  {
    var s1 := SetWaiter(s, t, Wake(s.waiters[t]));
    ReachStep(s, s1, Stray(t), tasks, queues, config);
    s' := SetWaiter(s, t, s.waiters[t].(state := Running));
    assert s' == SetWaiter(s1, t, s1.waiters[t].(state := Running));
    ReachStep(s1, s', Resume(t), tasks, queues, config);
  }

  lemma CanSwallowWithStrays(tasks: nat, queues: nat, config: Config)
    requires 2 <= tasks && 1 <= queues && config.strays
    ensures CanSwallow(tasks, queues, config)
  {
    StartReachable(tasks, queues, config);
    var s := Blocks(Start(tasks, queues), 0, tasks, queues, config);
    s := Blocks(s, 1, tasks, queues, config);
    s := Strays(s, 0, tasks, queues, config);
    assert s.queues[0][0] == 0 && s.queues[0][1] == 1;
    assert Swallows(s);
  }

  /** SWALLOWED NOTIFICATIONS: a notification can be lost on a task that is not blocked, with
      a blocked one behind it, if and only if wakeups come from elsewhere than the queues. */
  lemma SwallowsExactlyWithStrays(tasks: nat, queues: nat, config: Config)
    requires 2 <= tasks && 1 <= queues
    ensures CanSwallow(tasks, queues, config) <==> config.strays
  {
    if config.strays {
      CanSwallowWithStrays(tasks, queues, config);
    } else if CanSwallow(tasks, queues, config) {
      var s :| Reachable(s, tasks, queues, config) && Swallows(s);
      var q: QueueId, i: nat :| && q < |s.queues| && 0 < i < |s.queues[q]|
                                && s.queues[q][0] < |s.waiters| && s.waiters[s.queues[q][0]].state != Blocked
                                && s.queues[q][i] < |s.waiters| && s.waiters[s.queues[q][i]].state == Blocked;
      QueuedIsBlocked(s, q, 0, tasks, queues, config);
      assert false;
    }
  }

  lemma QueuedIsBlocked(s: State, q: QueueId, i: nat, tasks: nat, queues: nat, config: Config)
    requires Reachable(s, tasks, queues, config) && !config.strays && q < |s.queues| && i < |s.queues[q]|
    ensures s.queues[q][i] < |s.waiters| && s.waiters[s.queues[q][i]].state == Blocked
    ensures s.waiters[s.queues[q][i]].home.Some?
  {
    var states, events :| Run(states, events, tasks, queues, config) && states[|events|] == s;
    RunExact(states, events, tasks, queues, config, |events|);
    EntryOf(s.queues, q, s.queues[q][i]);
    assert s.queues[q][i] in Total(s);
  }

  /** A blocked task is drained, woken by something else, and done with its wait. */
  lemma DoneWhileMoving(tasks: nat, queues: nat, config: Config) returns (s': State)
    requires 1 <= tasks && 1 <= queues && config.strays && config.requeues
    ensures Reachable(s', tasks, queues, config) && 0 < |s'.queues| && 0 < |s'.waiters|
    ensures s'.queues[0] == [] && s'.moving == [[0]] && s'.targets == [0]
    ensures s'.waiters[0] == Waiter(Running, false, None)
  {
    StartReachable(tasks, queues, config);
    var s := Blocks(Start(tasks, queues), 0, tasks, queues, config);
    var s1 := SetQueue(s, 0, []).(moving := [[0]], targets := [0]);
    assert s.queues[0] == [0] && s.queues[0][1..] == [] && s.queues[0][..1] == [0];
    ReachStep(s, s1, Drain(0, 1, 0), tasks, queues, config);
    var s2 := Strays(s1, 0, tasks, queues, config);
    s' := SetWaiter(s2, 0, Waiter(Running, false, None));
    assert s' == SetWaiter(SetQueue(s2, 0, Without(s2.queues[0], 0)), 0, Waiter(Running, false, None));
    ReachStep(s2, s', Finish(0), tasks, queues, config);
  }

  /** Then it arrives at the target queue. */
  lemma OutlivesByRequeue(tasks: nat, queues: nat, config: Config)
    requires 1 <= tasks && 1 <= queues && config.strays && config.requeues
    ensures CanOutlive(tasks, queues, config)
  {
    var s := DoneWhileMoving(tasks, queues, config);
    var s' := SetQueue(s, 0, [0]).(moving := [], targets := []);
    assert s.queues[0] + s.moving[0] == [0];
    ReachStep(s, s', Deliver(0), tasks, queues, config);
    assert s'.queues[0][0] == 0;
    assert Outlives(s');
  }

  /** Woken by something else, the task blocks again with its old entry in place; one
      notification later its mark is gone and the second entry stays. */
  lemma OutlivesByLoop(tasks: nat, queues: nat, config: Config)
    requires 1 <= tasks && 1 <= queues && config.strays && config.loops
    ensures CanOutlive(tasks, queues, config)
  {
    StartReachable(tasks, queues, config);
    var s := Blocks(Start(tasks, queues), 0, tasks, queues, config);
    s := Strays(s, 0, tasks, queues, config);
    s := Blocks(s, 0, tasks, queues, config);
    assert s.queues[0] == [0, 0] && s.queues[0][..0] + s.queues[0][1..] == [0];
    var s1 := SetWaiter(SetQueue(s, 0, [0]), 0, Waiter(Ready, false, Some(0)));
    ReachStep(s, s1, NotifyOne(0), tasks, queues, config);
    var s2 := SetWaiter(s1, 0, Waiter(Running, false, Some(0)));
    ReachStep(s1, s2, Resume(0), tasks, queues, config);
    var s3 := SetWaiter(s2, 0, Waiter(Running, false, None));
    ReachStep(s2, s3, Finish(0), tasks, queues, config);
    assert s3.queues[0][0] == 0;
    assert Outlives(s3);
  }

  /** NO TRACE LEFT: an entry can outlive the wait it was made for if and only if there are
      stray wakeups, and either tasks are moved between queues or waits block again in a loop. */
  lemma OutlivesExactly(tasks: nat, queues: nat, config: Config)
    requires 1 <= tasks && 1 <= queues
    ensures CanOutlive(tasks, queues, config) <==> config.strays && (config.requeues || config.loops)
  {
    if config.strays && config.requeues {
      OutlivesByRequeue(tasks, queues, config);
    } else if config.strays && config.loops {
      OutlivesByLoop(tasks, queues, config);
    } else if CanOutlive(tasks, queues, config) {
      var s :| Reachable(s, tasks, queues, config) && Outlives(s);
      var q: QueueId, i: nat :| && q < |s.queues| && i < |s.queues[q]|
                                && s.queues[q][i] < |s.waiters| && s.waiters[s.queues[q][i]].home == None;
      if config.strays {
        var states, events :| Run(states, events, tasks, queues, config) && states[|events|] == s;
        RunAtHome(states, events, tasks, queues, config, |events|);
      } else {
        QueuedIsBlocked(s, q, i, tasks, queues, config);
      }
      assert false;
    }
  }
}
