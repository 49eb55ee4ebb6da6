/** The completely fair scheduler: weights, virtual runtimes, and the effect of every
    operation on the ready queue and the tasks. */
module CfsModel {
  import opened Wrappers
  import opened TaskTypes

  /** A ready task is filed under its virtual runtime and its id. */
  type Key = (int, int)

  const NICE2WEIGHT_POS: seq<int> :=
    [1024, 820, 655, 526, 423, 335, 272, 215, 172, 137, 110, 87, 70, 56, 45, 36, 29, 23, 18, 15]

  const NICE2WEIGHT_NEG: seq<int> :=
    [1024, 1277, 1586, 1991, 2501, 3121, 3906, 4904, 6100, 7620, 9548, 11916, 14949, 18705, 23254, 29154, 36291, 46273,
     56483, 71755, 88761]

  predicate InRange(nice: int) {
    -20 <= nice <= 19
  }

  type Nice = n: int | -20 <= n <= 19

  datatype Task = Task(initVruntime: int, delta: int, nice: Nice, id: int)

  const NEW_TASK := Task(0, 0, 0, 0)

  function Weight(nice: Nice): (w: int)
    ensures 15 <= w
  {
    var n: int := nice;
    if n >= 0 then NICE2WEIGHT_POS[n] else NICE2WEIGHT_NEG[-n]
  }

  /** Division that truncates toward zero. */
  function Quot(a: int, b: int): int
    requires 0 < b
  {
    if a >= 0 then a / b else -(-a / b)
  }

  function Vruntime(t: Task): int {
    if t.nice == 0 then t.initVruntime + t.delta
    else t.initVruntime + Quot(t.delta * 1024, Weight(t.nice))
  }

  function Renice(t: Task, nice: Nice): Task {
    Task(Vruntime(t), 0, nice, t.id)
  }

  /** One scheduler: `tasks` holds the fields of every task, queued here or not. */
  datatype Cfs = Cfs(cap: nat, ready: map<Key, TaskId>, minVruntime: Option<int>, idPool: int, tasks: seq<Task>)

  predicate KeyLe(a: Key, b: Key) {
    a.0 < b.0 || (a.0 == b.0 && a.1 <= b.1)
  }

  ghost predicate IsLeast(ready: map<Key, TaskId>, k: Key) {
    k in ready && forall j :: j in ready ==> KeyLe(k, j)
  }

  lemma {:induction false} LeastExists(ready: map<Key, TaskId>)
    requires ready != map[]
    ensures exists k :: IsLeast(ready, k)
    decreases |ready|
  {
    var a :| a in ready;
    var rest := ready - {a};
    if rest == map[] {
      forall j | j in ready ensures j == a {
        assert j in rest || j == a;
      }
      assert IsLeast(ready, a);
    } else {
      LeastExists(rest);
      var b :| IsLeast(rest, b);
      var k := if KeyLe(a, b) then a else b;
      forall j | j in ready ensures KeyLe(k, j) {
        assert j in rest || j == a;
      }
      assert IsLeast(ready, k);
    }
  }

  ghost function Least(ready: map<Key, TaskId>): (k: Key)
    requires ready != map[]
    ensures IsLeast(ready, k)
  {
    LeastExists(ready);
    var k :| IsLeast(ready, k);
    k
  }

  /** An insertion into a full queue is lost: its failure is not looked at. */
  function Enqueue(s: Cfs, k: Key, t: TaskId): Cfs {
    if k !in s.ready && |s.ready| == s.cap then s else s.(ready := s.ready[k := t])
  }

  ghost function AddTask(s: Cfs, t: TaskId): Cfs
    requires t < |s.tasks|
  {
    var v := if s.minVruntime.None? then 0 else s.minVruntime.value;
    var task := s.tasks[t].(initVruntime := v, id := s.idPool);
    var s1 := Enqueue(s.(idPool := s.idPool + 1, tasks := s.tasks[t := task]), (v, s.idPool), t);
    s1.(minVruntime := if s1.ready == map[] then None else Some(Least(s1.ready).0))
  }

  ghost function PickNext(s: Cfs): (Option<TaskId>, Cfs) {
    if s.ready == map[] then (None, s) else
      var k := Least(s.ready);
      (Some(s.ready[k]), s.(ready := s.ready - {k}))
  }

  function PutPrev(s: Cfs, t: TaskId): Cfs
    requires t < |s.tasks|
  {
    var task := s.tasks[t].(id := s.idPool);
    Enqueue(s.(idPool := s.idPool + 1, tasks := s.tasks[t := task]), (Vruntime(task), s.idPool), t)
  }

  /** Whether to reschedule, and the new state. */
  function Tick(s: Cfs, t: TaskId): (bool, Cfs)
    requires t < |s.tasks|
  {
    var task := s.tasks[t].(delta := s.tasks[t].delta + 1);
    (s.ready != map[] && (s.minVruntime.None? || Vruntime(task) > s.minVruntime.value),
     s.(tasks := s.tasks[t := task]))
  }

  function SetPriority(s: Cfs, t: TaskId, prio: int): (bool, Cfs)
    requires t < |s.tasks|
  {
    if InRange(prio) then (true, s.(tasks := s.tasks[t := Renice(s.tasks[t], prio)])) else (false, s)
  }

  ghost predicate Queued(s: Cfs, t: TaskId) {
    exists k :: k in s.ready && s.ready[k] == t
  }

  /** A ready key is its task's virtual runtime and id. */
  predicate Filed(s: Cfs, k: Key)
    requires k in s.ready
  {
    && s.ready[k] < |s.tasks|
    && k == (Vruntime(s.tasks[s.ready[k]]), s.tasks[s.ready[k]].id)
  }

  /** Every ready key is up to date; ids are unique and have been handed out. */
  ghost predicate Agreement(s: Cfs) {
    && (s.minVruntime == None || s.minVruntime == Some(0))
    && |s.ready| <= s.cap
    && (forall t :: 0 <= t < |s.tasks| ==> 0 <= s.tasks[t].initVruntime && 0 <= s.tasks[t].delta)
    && (forall k :: k in s.ready ==> Filed(s, k) && k.1 < s.idPool)
    && UniqueIds(s.ready)
  }

  ghost predicate UniqueIds(ready: map<Key, TaskId>) {
    forall j, k :: j in ready && k in ready && j.1 == k.1 ==> j == k
  }

  lemma NewIdUnique(ready: map<Key, TaskId>, k: Key, t: TaskId)
    requires UniqueIds(ready) && forall j :: j in ready ==> j.1 < k.1
    ensures UniqueIds(ready[k := t])
  {
  }

  lemma VruntimeNonNegative(t: Task)
    requires 0 <= t.initVruntime && 0 <= t.delta
    ensures t.initVruntime <= Vruntime(t)
  {
    assert 0 <= t.delta * 1024;
  }

  /** Changing the nice value does not change the virtual runtime. */
  lemma ReniceKeepsVruntime(t: Task, nice: Nice)
    ensures Vruntime(Renice(t, nice)) == Vruntime(t)
  {
  }

  /** The choices of a run. `Elsewhere`: another CPU works on a task that is not queued here. */
  datatype Action =
    | Add(t: TaskId)
    | Pick
    | Put(t: TaskId)
    | Ticked(t: TaskId)
    | Prio(t: TaskId, prio: int)
    | Elsewhere(t: TaskId, task: Task)

  /** `add_task` is for new tasks, which have not run; only a running task is ticked; the
      live tasks fit the queue. */
  ghost predicate Step(s: Cfs, s': Cfs, a: Action) {
    match a
    case Add(t) =>
      t < |s.tasks| && !Queued(s, t) && s.tasks[t].delta == 0 && |s.ready| < s.cap && s' == AddTask(s, t)
    case Pick => s' == PickNext(s).1
    case Put(t) => t < |s.tasks| && !Queued(s, t) && |s.ready| < s.cap && s' == PutPrev(s, t)
    case Ticked(t) => t < |s.tasks| && !Queued(s, t) && s' == Tick(s, t).1
    case Prio(t, prio) => t < |s.tasks| && s' == SetPriority(s, t, prio).1
    case Elsewhere(t, task) =>
      && t < |s.tasks| && !Queued(s, t) && 0 <= task.initVruntime && 0 <= task.delta
      && s' == s.(tasks := s.tasks[t := task])
  }

  ghost predicate Run(states: seq<Cfs>, actions: seq<Action>) {
    && |states| == |actions| + 1
    && states[0].ready == map[] && states[0].minVruntime == None && states[0].idPool == 0
    && (forall t :: 0 <= t < |states[0].tasks| ==> states[0].tasks[t] == NEW_TASK)
    && forall k {:trigger actions[k]} :: 0 <= k < |actions| ==> Step(states[k], states[k + 1], actions[k])
  }

  /** Changing a task that is not queued disturbs no key. */
  lemma UnqueuedChange(s: Cfs, t: TaskId, task: Task)
    requires Agreement(s) && t < |s.tasks| && !Queued(s, t)
    requires 0 <= task.initVruntime && 0 <= task.delta
    ensures Agreement(s.(tasks := s.tasks[t := task]))
  {
    var s' := s.(tasks := s.tasks[t := task]);
    forall k | k in s'.ready ensures Filed(s', k) && k.1 < s'.idPool {
      assert Filed(s, k);
    }
  }

  /** A new key with the next id, for a task whose fields agree with it. */
  lemma NewKeyAgrees(s: Cfs, t: TaskId, k: Key, min: Option<int>)
    requires Agreement(s) && t < |s.tasks| && |s.ready| < s.cap
    requires k == (Vruntime(s.tasks[t]), s.tasks[t].id) && k.1 == s.idPool
    requires min == None || min == Some(0)
    ensures k !in s.ready
    ensures Agreement(s.(idPool := s.idPool + 1, minVruntime := min, ready := s.ready[k := t]))
  {
    var s' := s.(idPool := s.idPool + 1, minVruntime := min, ready := s.ready[k := t]);
    NewIdUnique(s.ready, k, t);
    forall j | j in s'.ready ensures Filed(s', j) && j.1 < s'.idPool {
      if j != k {
        assert Filed(s, j);
      }
    }
  }

  /** Filing a task that is not queued under its virtual runtime and a new id. */
  lemma EnqueueAgrees(s: Cfs, t: TaskId, task: Task, min: Option<int>)
    requires Agreement(s) && t < |s.tasks| && !Queued(s, t) && |s.ready| < s.cap
    requires 0 <= task.initVruntime && 0 <= task.delta && task.id == s.idPool
    requires min == None || min == Some(0)
    ensures var k := (Vruntime(task), s.idPool);
            && k !in s.ready
            && Agreement(s.(idPool := s.idPool + 1, minVruntime := min, tasks := s.tasks[t := task],
                            ready := s.ready[k := t]))
  {
    UnqueuedChange(s, t, task);
    NewKeyAgrees(s.(tasks := s.tasks[t := task]), t, (Vruntime(task), s.idPool), min);
  }

  lemma KeysNonNegative(s: Cfs, k: Key)
    requires Agreement(s) && k in s.ready
    ensures 0 <= k.0
  {
    assert Filed(s, k);
    VruntimeNonNegative(s.tasks[s.ready[k]]);
  }

  /** Task `t` filed at 0, and 0 recorded as the minimum. */
  function AddedAtZero(s: Cfs, t: TaskId): Cfs
    requires t < |s.tasks|
  {
    s.(idPool := s.idPool + 1, minVruntime := Some(0),
       tasks := s.tasks[t := s.tasks[t].(initVruntime := 0, id := s.idPool)],
       ready := s.ready[(0, s.idPool) := t])
  }

  /** The effect of `add_task` while the recorded minimum is 0 or missing. */
  lemma AddEntersAtZero(s: Cfs, t: TaskId)
    requires Agreement(s) && t < |s.tasks| && |s.ready| < s.cap
    ensures AddTask(s, t) == AddedAtZero(s, t) && (0, s.idPool) !in s.ready
  {
    forall k | k in s.ready ensures 0 <= k.0 && k != (0, s.idPool) {
      KeysNonNegative(s, k);
    }
    var ready := s.ready[(0, s.idPool) := t];
    assert (0, s.idPool) in ready;
    var k := Least(ready);
    assert KeyLe(k, (0, s.idPool));
    assert k in s.ready || k == (0, s.idPool);
  }

  lemma NotRunYet(t: Task)
    requires t.delta == 0
    ensures Vruntime(t) == t.initVruntime
  {
  }

  /** For a task that has not run, its place at 0 agrees with its virtual runtime. */
  lemma AddedAgrees(s: Cfs, t: TaskId)
    requires Agreement(s) && t < |s.tasks| && !Queued(s, t) && |s.ready| < s.cap
    requires s.tasks[t].delta == 0
    ensures Agreement(AddedAtZero(s, t))
  {
    var task := s.tasks[t].(initVruntime := 0, id := s.idPool);
    NotRunYet(task);
    EnqueueAgrees(s, t, task, Some(0));
  }

  /** Taking a key out disturbs no other. */
  lemma RemovalAgrees(s: Cfs, k: Key)
    requires Agreement(s)
    ensures Agreement(s.(ready := s.ready - {k}))
  {
    var rest := s.ready - {k};
    FewerIdsUnique(s.ready, rest);
    RemovalShrinks(s.ready, k);
    forall j | j in rest ensures Filed(s.(ready := rest), j) {
      assert Filed(s, j);
    }
  }

  lemma RemovalShrinks(ready: map<Key, TaskId>, k: Key)
    ensures |ready - {k}| == |ready| - if k in ready then 1 else 0
  {
    var rest := ready - {k};
    if k in ready {
      assert ready == rest[k := ready[k]];
    } else {
      assert ready == rest;
    }
  }

  lemma FewerIdsUnique(ready: map<Key, TaskId>, rest: map<Key, TaskId>)
    requires UniqueIds(ready) && forall j :: j in rest ==> j in ready
    ensures UniqueIds(rest)
  {
  }

  lemma PickAgrees(s: Cfs)
    requires Agreement(s)
    ensures Agreement(PickNext(s).1)
  {
    if s.ready != map[] {
      RemovalAgrees(s, Least(s.ready));
    }
  }

  lemma PriorityAgrees(s: Cfs, t: TaskId, prio: int)
    requires Agreement(s) && t < |s.tasks|
    ensures Agreement(SetPriority(s, t, prio).1)
  {
    if InRange(prio) {
      VruntimeNonNegative(s.tasks[t]);
      ReniceKeepsVruntime(s.tasks[t], prio);
      SameRuntime(s, t, Renice(s.tasks[t], prio));
    }
  }

  /** Changing a task, queued or not, without touching its virtual runtime or its id. */
  lemma SameRuntime(s: Cfs, t: TaskId, task: Task)
    requires Agreement(s) && t < |s.tasks| && 0 <= task.initVruntime && 0 <= task.delta
    requires Vruntime(task) == Vruntime(s.tasks[t]) && task.id == s.tasks[t].id
    ensures Agreement(s.(tasks := s.tasks[t := task]))
  {
    var s' := s.(tasks := s.tasks[t := task]);
    forall k | k in s'.ready ensures Filed(s', k) && k.1 < s'.idPool {
      assert Filed(s, k);
    }
  }

  lemma PutAgrees(s: Cfs, t: TaskId)
    requires Agreement(s) && t < |s.tasks| && !Queued(s, t) && |s.ready| < s.cap
    ensures Agreement(PutPrev(s, t))
  {
    EnqueueAgrees(s, t, s.tasks[t].(id := s.idPool), s.minVruntime);
  }

  lemma TickAgrees(s: Cfs, t: TaskId)
    requires Agreement(s) && t < |s.tasks| && !Queued(s, t)
    ensures Agreement(Tick(s, t).1)
  {
    UnqueuedChange(s, t, s.tasks[t].(delta := s.tasks[t].delta + 1));
  }

  lemma StepAgrees(s: Cfs, s': Cfs, a: Action)
    requires Agreement(s) && Step(s, s', a)
    ensures Agreement(s')
  {
    match a
    case Add(t) =>
      AddEntersAtZero(s, t);
      AddedAgrees(s, t);
    case Pick => PickAgrees(s);
    case Put(t) => PutAgrees(s, t);
    case Ticked(t) => TickAgrees(s, t);
    case Prio(t, prio) => PriorityAgrees(s, t, prio);
    case Elsewhere(t, task) => UnqueuedChange(s, t, task);
  }

  /** Index agreement over every run; the recorded minimum is 0 once a task was added. */
  lemma {:induction false} IndexAgreement(states: seq<Cfs>, actions: seq<Action>, n: nat)
    requires Run(states, actions) && n <= |actions|
    ensures Agreement(states[n])
  {
    if n == 0 {
    } else {
      IndexAgreement(states, actions, n - 1);
      StepAgrees(states[n - 1], states[n], actions[n - 1]);
    }
  }

  /** The recorded minimum is a lower bound for every task, ready, running or blocked. */
  lemma MinimumIsBound(s: Cfs, t: TaskId)
    requires Agreement(s) && s.minVruntime.Some? && t < |s.tasks|
    ensures s.minVruntime.value <= Vruntime(s.tasks[t])
  {
    VruntimeNonNegative(s.tasks[t]);
  }

  /** The task picked has the least virtual runtime, and is the first of those filed: ids
      are handed out in the order of filing. */
  lemma PickIsLeast(s: Cfs, t: TaskId, u: TaskId)
    requires Agreement(s) && PickNext(s).0 == Some(t) && Queued(s, u)
    ensures t < |s.tasks| && u < |s.tasks| && Queued(s, t) && !Queued(PickNext(s).1, t)
    ensures var a, b := s.tasks[t], s.tasks[u];
            Vruntime(a) < Vruntime(b) || (Vruntime(a) == Vruntime(b) && a.id <= b.id)
  {
    var k := Least(s.ready);
    var j :| j in s.ready && s.ready[j] == u;
    assert Filed(s, k) && Filed(s, j) && KeyLe(k, j);
    forall i | i in s.ready - {k} ensures s.ready[i] != t {
      assert Filed(s, i);
    }
  }

  /** A task put back comes after every queued task with its virtual runtime. */
  lemma PutIsLast(s: Cfs, t: TaskId, u: TaskId)
    requires Agreement(s) && t < |s.tasks| && !Queued(s, t) && Queued(s, u)
    ensures u < |s.tasks| && PutPrev(s, t).tasks[u] == s.tasks[u]
    ensures PutPrev(s, t).tasks[u].id < PutPrev(s, t).tasks[t].id
  {
    var j :| j in s.ready && s.ready[j] == u;
    assert Filed(s, j);
  }

  /** A task put back is queued exactly when there was room for it. */
  lemma PutQueues(s: Cfs, t: TaskId)
    requires Agreement(s) && t < |s.tasks| && !Queued(s, t)
    ensures Queued(PutPrev(s, t), t) <==> |s.ready| < s.cap
  {
    var s' := PutPrev(s, t);
    var k := (Vruntime(s.tasks[t]), s.idPool);
    assert k !in s.ready;
    if |s.ready| < s.cap {
      assert k in s'.ready && s'.ready[k] == t;
    }
  }

  /** Putting a task back moves no other task into or out of the queue. */
  lemma PutLeavesOthers(s: Cfs, t: TaskId, u: TaskId)
    requires Agreement(s) && t < |s.tasks| && !Queued(s, t) && u != t
    ensures Queued(PutPrev(s, t), u) <==> Queued(s, u)
  {
    var s', k := PutPrev(s, t), (Vruntime(s.tasks[t]), s.idPool);
    assert k !in s.ready;
    KeysKept(s.ready, s'.ready, k, t, u);
  }

  lemma KeysKept(ready: map<Key, TaskId>, ready': map<Key, TaskId>, k: Key, t: TaskId, u: TaskId)
    requires k !in ready && (ready' == ready || ready' == ready[k := t]) && u != t
    ensures (exists j :: j in ready' && ready'[j] == u) <==> (exists j :: j in ready && ready[j] == u)
  {
    if j :| j in ready && ready[j] == u {
      assert j in ready' && ready'[j] == u;
    }
    if j :| j in ready' && ready'[j] == u {
      assert j in ready && ready[j] == u;
    }
  }

  /** A task added is queued exactly when there was room for it, and no other task moves. */
  lemma AddQueues(s: Cfs, t: TaskId, u: TaskId)
    requires Agreement(s) && t < |s.tasks| && !Queued(s, t)
    ensures Queued(AddTask(s, t), t) <==> |s.ready| < s.cap
    ensures u != t ==> (Queued(AddTask(s, t), u) <==> Queued(s, u))
  {
    var s', k := AddTask(s, t), (0, s.idPool);
    assert k !in s.ready;
    if |s.ready| < s.cap {
      assert k in s'.ready && s'.ready[k] == t;
    }
    if u != t {
      KeysKept(s.ready, s'.ready, k, t, u);
    }
  }

  /** A pick takes out exactly the task that it answers with, and answers nothing exactly when
      the queue is empty. */
  lemma PickTakes(s: Cfs, u: TaskId)
    requires Agreement(s)
    ensures PickNext(s).0.None? <==> s.ready == map[]
    ensures Queued(PickNext(s).1, u) <==> Queued(s, u) && PickNext(s).0 != Some(u)
  {
    if s.ready != map[] {
      var k := Least(s.ready);
      var rest := s.ready - {k};
      assert Filed(s, k);
      if j :| j in s.ready && s.ready[j] == u && s.ready[k] != u {
        assert j in rest && rest[j] == u;
      }
      if j :| j in rest && rest[j] == u {
        assert Filed(s, j) && j in s.ready && s.ready[j] == u;
      }
    }
  }

  /** A tick asks for a reschedule exactly when some task waits and the running one, with this
      tick, is past 0; until then nothing queued can be behind it. */
  lemma TickAsksExactly(s: Cfs, t: TaskId)
    requires Agreement(s) && t < |s.tasks| && !Queued(s, t) && s.minVruntime.Some?
    ensures var (again, s') := Tick(s, t);
            && (again <==> (exists u: TaskId :: Queued(s, u)) && 0 < Vruntime(s'.tasks[t]))
            && (!again ==> forall u: TaskId :: Queued(s', u) ==>
                  u < |s'.tasks| && Vruntime(s'.tasks[t]) <= Vruntime(s'.tasks[u]))
  {
    var (again, s') := Tick(s, t);
    if s.ready != map[] {
      var k :| k in s.ready;
      assert Queued(s, s.ready[k]);
    }
    VruntimeNonNegative(s'.tasks[t]);
    forall u: TaskId | !again && Queued(s', u)
      ensures u < |s'.tasks| && Vruntime(s'.tasks[t]) <= Vruntime(s'.tasks[u])
    {
      var k :| k in s.ready && s.ready[k] == u;
      assert Filed(s, k);
      VruntimeNonNegative(s.tasks[u]);
    }
  }

  /** A PRIORITY CHANGE is accepted exactly for nice values from -20 to 19. It then sets the nice
      value and keeps the virtual runtime; refused, it changes nothing. */
  lemma PriorityExact(s: Cfs, t: TaskId, prio: int)
    requires t < |s.tasks|
    ensures var (ok, s') := SetPriority(s, t, prio);
            && (ok <==> -20 <= prio <= 19)
            && (!ok ==> s' == s)
            && s'.ready == s.ready && s'.minVruntime == s.minVruntime && |s'.tasks| == |s.tasks|
            && (forall u :: 0 <= u < |s.tasks| && u != t ==> s'.tasks[u] == s.tasks[u])
            && (ok ==> s'.tasks[t].nice == prio && s'.tasks[t].id == s.tasks[t].id
                       && Vruntime(s'.tasks[t]) == Vruntime(s.tasks[t]))
  {
    if InRange(prio) {
      ReniceKeepsVruntime(s.tasks[t], prio);
    }
  }

  lemma ZeroRuntime(t: Task)
    requires t.initVruntime == 0
    ensures Vruntime(t) == 0 <==> Quot(t.delta * 1024, Weight(t.nice)) == 0
  {
    assert t.nice == 0 ==> Weight(t.nice) == 1024;
  }

  /** What `add_task` demands of its caller: its key is the task's virtual runtime exactly
      for a task whose past running time weighs nothing. */
  lemma AddFilesExactly(s: Cfs, t: TaskId)
    requires Agreement(s) && t < |s.tasks| && !Queued(s, t) && |s.ready| < s.cap
    ensures (forall k :: k in AddTask(s, t).ready ==> Filed(AddTask(s, t), k)) <==>
            Quot(s.tasks[t].delta * 1024, Weight(s.tasks[t].nice)) == 0
  {
    var task := s.tasks[t].(initVruntime := 0, id := s.idPool);
    var k := (0, s.idPool);
    var s' := AddTask(s, t);
    assert k !in s.ready && s'.ready == s.ready[k := t];
    UnqueuedChange(s, t, task);
    var s1 := s.(tasks := s.tasks[t := task]);
    forall j | j in s'.ready && j != k ensures Filed(s', j) {
      assert Filed(s1, j);
    }
    ZeroRuntime(task);
    assert k in s'.ready && (Filed(s', k) <==> Vruntime(task) == 0);
  }
}
