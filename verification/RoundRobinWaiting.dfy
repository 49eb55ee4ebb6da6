/** How long a queued task waits for its turn under round robin. */
module RoundRobinWaiting {
  import opened TaskTypes
  import opened RoundRobinModel

  /** No task is queued twice, and a queued task has a slice left, at most a full one. */
  ghost predicate QueueOk(s: RR, idle: TaskId) {
    && 1 <= s.full
    && idle < |s.slices| && idle !in s.queue
    && (forall i, j :: 0 <= i < j < |s.queue| ==> s.queue[i] != s.queue[j])
    && (forall t :: t in s.queue ==> t < |s.slices| && 1 <= s.slices[t])
    && (forall t :: 0 <= t < |s.slices| ==> s.slices[t] <= s.full)
  }

  ghost predicate Ok(x: Cpu) {
    && QueueOk(x.rr, x.idle)
    && x.current < |x.rr.slices| && x.current !in x.rr.queue
    && (x.current != x.idle ==> 1 <= x.rr.slices[x.current])
  }

  /** The tasks queued before `t`. */
  function Before(q: seq<TaskId>, t: TaskId): seq<TaskId> {
    if q == [] || q[0] == t then [] else [q[0]] + Before(q[1..], t)
  }

  function AtLeast(a: int, low: int): int {
    if a < low then low else a
  }

  /** What may happen while a task waits. `front`: tasks woken with a slice left jump the
      queue. `elsewhere`: the slices of tasks that are not queued here change, as when another
      CPU runs them, or puts them back with a full slice. */
  datatype Rules = Rules(front: bool, elsewhere: bool)

  predicate Allowed(e: Event, rules: Rules) {
    && (e.Wake? && e.preempt ==> rules.front)
    && (e.Elsewhere? ==> rules.elsewhere)
  }

  /** Both are allowed, a slice is longer than a tick, and there are two tasks to take turns
      before a third one. */
  predicate Starving(cap: nat, full: int, tasks: nat, rules: Rules) {
    rules.front && rules.elsewhere && 2 <= full && 4 <= cap && 4 <= tasks
  }

  predicate MayStarve(x: Cpu, rules: Rules) {
    Starving(x.rr.cap, x.rr.full, |x.rr.slices|, rules)
  }

  /** The ticks that a task with slice `slice`, neither queued nor running, may come to take. */
  function OutsideCredit(full: int, slice: int, rules: Rules): int {
    if !rules.front then 0 else if rules.elsewhere then full else AtLeast(slice, 0)
  }

  /** How many ticks task `u` may take before `t` runs. */
  function Credit(x: Cpu, t: TaskId, rules: Rules, u: TaskId): int
    requires u < |x.rr.slices|
  {
    if u == x.current then AtLeast(x.rr.slices[u], 1)
    else if u in Before(x.rr.queue, t) then x.rr.slices[u]
    else if Outside(x, u) then OutsideCredit(x.rr.full, x.rr.slices[u], rules)
    else 0
  }

  /** The credits of tasks 0 to n - 1. */
  function Credits(x: Cpu, t: TaskId, rules: Rules, n: nat): int
    requires n <= |x.rr.slices|
  {
    if n == 0 then 0 else Credits(x, t, rules, n - 1) + Credit(x, t, rules, n - 1)
  }

  function Wait(x: Cpu, t: TaskId, rules: Rules): int {
    Credits(x, t, rules, |x.rr.slices|)
  }

  lemma {:induction false} BeforeHas(q: seq<TaskId>, t: TaskId, u: TaskId)
    ensures u in Before(q, t) ==> u in q && u != t
  {
    if q == [] || q[0] == t {
    } else {
      BeforeHas(q[1..], t, u);
    }
  }

  lemma {:induction false} BeforeAppend(q: seq<TaskId>, t: TaskId, u: TaskId)
    requires t in q
    ensures Before(q + [u], t) == Before(q, t)
  {
    assert (q + [u])[0] == q[0];
    if q[0] == t {
    } else {
      assert (q + [u])[1..] == q[1..] + [u];
      BeforeAppend(q[1..], t, u);
    }
  }

  lemma SwitchOk(s: RR, idle: TaskId)
    requires QueueOk(s, idle)
    ensures Ok(Switch(s, idle)) && Switch(s, idle).rr.slices == s.slices
  {
    if s.queue != [] {
      assert s.queue[0] in s.queue;
      assert forall t :: t in s.queue[1..] ==> t in s.queue;
    }
  }

  lemma PutOk(s: RR, t: TaskId, preempt: bool, idle: TaskId)
    requires QueueOk(s, idle) && t < |s.slices| && t !in s.queue && t != idle
    ensures QueueOk(PutPrev(s, t, preempt), idle)
  {
  }

  lemma StepOk(x: Cpu, x': Cpu, e: Event)
    requires Ok(x) && Step(x, x', e)
    ensures Ok(x') && |x'.rr.slices| == |x.rr.slices| && x'.rr.cap == x.rr.cap && x'.rr.full == x.rr.full
  {
    match e
    case Ticked =>
      var (again, s) := Tick(x.rr, x.current);
      if again {
        RequeueOk(x.(rr := s), true);
      }
    case Preempt => RequeueOk(x, true);
    case Yield => RequeueOk(x, false);
    case Leave => SwitchOk(x.rr, x.idle);
    case Spawn(t) =>
    case Wake(t, preempt) => PutOk(x.rr, t, preempt, x.idle);
    case Elsewhere(t, slice) =>
  }

  lemma RequeueOk(x: Cpu, preempt: bool)
    requires QueueOk(x.rr, x.idle) && x.current < |x.rr.slices| && x.current !in x.rr.queue
    ensures Ok(Requeue(x, preempt)) && |Requeue(x, preempt).rr.slices| == |x.rr.slices|
  {
    if x.current == x.idle {
      SwitchOk(x.rr, x.idle);
    } else {
      PutOk(x.rr, x.current, preempt, x.idle);
      SwitchOk(PutPrev(x.rr, x.current, preempt), x.idle);
    }
  }

  /** `Credit` while no task runs. */
  function QueueCredit(s: RR, idle: TaskId, t: TaskId, rules: Rules, u: TaskId): int
    requires u < |s.slices|
  {
    if u in Before(s.queue, t) then s.slices[u]
    else if u !in s.queue && u != idle then OutsideCredit(s.full, s.slices[u], rules)
    else 0
  }

  /** The next task brings its credit along. */
  lemma SwitchCredit(s: RR, idle: TaskId, t: TaskId, rules: Rules, u: TaskId)
    requires QueueOk(s, idle) && u < |s.slices| && t in s.queue && Switch(s, idle).current != t
    ensures t in Switch(s, idle).rr.queue && Switch(s, idle).rr.slices == s.slices
    ensures Credit(Switch(s, idle), t, rules, u) <= QueueCredit(s, idle, t, rules, u)
  {
    var rest := s.queue[1..];
    assert s.queue == [s.queue[0]] + rest;
    BeforeHas(rest, t, u);
    assert s.queue[0] in s.queue;
  }

  /** Giving up the CPU costs the others no credit. */
  lemma StopCredit(x: Cpu, t: TaskId, rules: Rules, u: TaskId)
    requires Ok(x) && u < |x.rr.slices| && u != x.current
    ensures QueueCredit(x.rr, x.idle, t, rules, u) <= Credit(x, t, rules, u)
  {
    BeforeHas(x.rr.queue, t, x.current);
    BeforeHas(x.rr.queue, t, u);
  }

  /** Going to the back leaves no credit, going to the front what is left of the slice. */
  lemma PutCredit(s: RR, idle: TaskId, c: TaskId, preempt: bool, t: TaskId, rules: Rules, u: TaskId)
    requires QueueOk(s, idle) && u < |s.slices| && t in s.queue
    requires c < |s.slices| && c !in s.queue && c != idle && |s.queue| < s.cap - 1
    ensures var s' := PutPrev(s, c, preempt);
            && t in s'.queue
            && (u != c ==> QueueCredit(s', idle, t, rules, u) == QueueCredit(s, idle, t, rules, u))
            && QueueCredit(s', idle, t, rules, c) == if s.slices[c] > 0 && preempt then s.slices[c] else 0
  {
    BeforeHas(s.queue, t, c);
    if s.slices[c] > 0 && preempt {
      assert ([c] + s.queue)[1..] == s.queue;
    } else {
      BeforeAppend(s.queue, t, c);
    }
  }

  lemma RequeueCredit(x: Cpu, preempt: bool, t: TaskId, rules: Rules, u: TaskId)
    requires QueueOk(x.rr, x.idle) && x.current < |x.rr.slices| && x.current !in x.rr.queue
    requires |x.rr.queue| < x.rr.cap - 1 && u < |x.rr.slices|
    requires t in x.rr.queue && Requeue(x, preempt).current != t
    ensures t in Requeue(x, preempt).rr.queue && |Requeue(x, preempt).rr.slices| == |x.rr.slices|
    ensures u != x.current ==> Credit(Requeue(x, preempt), t, rules, u) <= QueueCredit(x.rr, x.idle, t, rules, u)
    ensures Credit(Requeue(x, preempt), t, rules, x.current) <=
            if preempt && x.current != x.idle && x.rr.slices[x.current] > 0 then x.rr.slices[x.current] else 0
  {
    var c := x.current;
    BeforeHas(x.rr.queue, t, c);
    if c == x.idle {
      SwitchCredit(x.rr, x.idle, t, rules, u);
      SwitchCredit(x.rr, x.idle, t, rules, c);
    } else {
      var s := PutPrev(x.rr, c, preempt);
      PutOk(x.rr, c, preempt, x.idle);
      PutCredit(x.rr, x.idle, c, preempt, t, rules, u);
      SwitchCredit(s, x.idle, t, rules, u);
      SwitchCredit(s, x.idle, t, rules, c);
    }
  }

  /** A tick uses up a credit. */
  lemma TickCredit(x: Cpu, x': Cpu, t: TaskId, rules: Rules, u: TaskId)
    requires Ok(x) && Step(x, x', Ticked) && u < |x.rr.slices|
    requires t in x.rr.queue && x'.current != t
    ensures t in x'.rr.queue && |x'.rr.slices| == |x.rr.slices|
    ensures Credit(x', t, rules, u) <= Credit(x, t, rules, u) - if u == x.current then 1 else 0
  {
    var (again, s) := Tick(x.rr, x.current);
    BeforeHas(x.rr.queue, t, x.current);
    if again {
      RequeueCredit(x.(rr := s), true, t, rules, u);
      if u != x.current {
        StopCredit(x, t, rules, u);
      }
    }
  }

  /** A task that leaves while another than `t` is next takes no more credit with it than it
      had, if tasks that take turns cannot starve `t`. */
  lemma LeaveCredit(x: Cpu, x': Cpu, t: TaskId, rules: Rules)
    requires Ok(x) && Step(x, x', Leave) && !MayStarve(x, rules)
    requires t in x.rr.queue && x'.current != t
    ensures t in x'.rr.queue && |x'.rr.slices| == |x.rr.slices|
    ensures Credit(x', t, rules, x.current) <= Credit(x, t, rules, x.current)
  {
    SwitchCredit(x.rr, x.idle, t, rules, x.current);
    BeforeHas(x.rr.queue, t, x.current);
    var i :| 0 < i < |x.rr.queue| && x.rr.queue[i] == t;
    assert 4 <= x.rr.cap;
    assert x.rr.queue[0] in x.rr.queue;
    assert 4 <= |x.rr.slices|;
  }

  /** No other event adds credit. */
  lemma EventCredit(x: Cpu, x': Cpu, e: Event, t: TaskId, rules: Rules, u: TaskId)
    requires Ok(x) && Step(x, x', e) && Allowed(e, rules) && !MayStarve(x, rules) && !e.Ticked? && u < |x.rr.slices|
    requires t in x.rr.queue && x'.current != t
    ensures t in x'.rr.queue && |x'.rr.slices| == |x.rr.slices|
    ensures Credit(x', t, rules, u) <= Credit(x, t, rules, u)
  {
    match e
    case Preempt =>
      RequeueCredit(x, true, t, rules, u);
      if u != x.current {
        StopCredit(x, t, rules, u);
      }
    case Yield =>
      RequeueCredit(x, false, t, rules, u);
      if u != x.current {
        StopCredit(x, t, rules, u);
      }
    case Leave =>
      if u == x.current {
        LeaveCredit(x, x', t, rules);
      } else {
        SwitchCredit(x.rr, x.idle, t, rules, u);
        StopCredit(x, t, rules, u);
      }
    case Spawn(w) =>
      BeforeAppend(x.rr.queue, t, w);
      BeforeHas(x.rr.queue, t, w);
    case Wake(w, preempt) =>
      PutCredit(x.rr, x.idle, w, preempt, t, rules, u);
      BeforeHas(x.rr.queue, t, u);
    case Elsewhere(w, slice) =>
      BeforeHas(x.rr.queue, t, w);
  }

  lemma {:induction false} EventCredits(x: Cpu, x': Cpu, e: Event, t: TaskId, rules: Rules, n: nat)
    requires Ok(x) && Step(x, x', e) && Allowed(e, rules) && !MayStarve(x, rules)
    requires t in x.rr.queue && x'.current != t
    requires n <= |x.rr.slices| == |x'.rr.slices|
    ensures t in x'.rr.queue
    ensures Credits(x', t, rules, n) <= Credits(x, t, rules, n) - if e.Ticked? && x.current < n then 1 else 0
  {
    if n == 0 {
      StepKeepsTask(x, x', e, t, rules);
    } else {
      EventCredits(x, x', e, t, rules, n - 1);
      if e.Ticked? {
        TickCredit(x, x', t, rules, n - 1);
      } else {
        EventCredit(x, x', e, t, rules, n - 1);
      }
    }
  }

  lemma StepKeepsTask(x: Cpu, x': Cpu, e: Event, t: TaskId, rules: Rules)
    requires Ok(x) && Step(x, x', e) && Allowed(e, rules) && !MayStarve(x, rules)
    requires t in x.rr.queue && x'.current != t
    ensures t in x'.rr.queue
  {
    if e.Ticked? {
      TickCredit(x, x', t, rules, x.current);
    } else {
      EventCredit(x, x', e, t, rules, x.current);
    }
  }

  lemma WaitingStep(x: Cpu, x': Cpu, e: Event, t: TaskId, rules: Rules)
    requires Ok(x) && Step(x, x', e) && Allowed(e, rules) && !MayStarve(x, rules) && t in x.rr.queue && x'.current != t
    ensures Ok(x') && (MayStarve(x', rules) <==> MayStarve(x, rules))
    ensures |x'.rr.slices| == |x.rr.slices| && t in x'.rr.queue
    ensures Wait(x', t, rules) <= Wait(x, t, rules) - if e.Ticked? then 1 else 0
  {
    StepOk(x, x', e);
    EventCredits(x, x', e, t, rules, |x.rr.slices|);
  }

  ghost predicate StepAt(cpus: seq<Cpu>, events: seq<Event>, k: nat) {
    k < |events| < |cpus| && Step(cpus[k], cpus[k + 1], events[k])
  }

  /** Where every run starts: nothing queued, the idle task running, all slices full. */
  ghost predicate IsStart(x: Cpu) {
    && 1 <= x.rr.full && x.rr.queue == [] && x.current == x.idle < |x.rr.slices|
    && forall t :: 0 <= t < |x.rr.slices| ==> x.rr.slices[t] == x.rr.full
  }

  ghost predicate Run(cpus: seq<Cpu>, events: seq<Event>) {
    && |cpus| == |events| + 1
    && IsStart(cpus[0])
    && forall k :: 0 <= k < |events| ==> StepAt(cpus, events, k)
  }

  /** The events from point `i` on are allowed. */
  predicate AllowedFrom(events: seq<Event>, i: nat, rules: Rules) {
    forall k :: i <= k < |events| ==> Allowed(events[k], rules)
  }

  lemma {:induction false} RunOk(cpus: seq<Cpu>, events: seq<Event>, n: nat)
    requires Run(cpus, events) && n <= |events|
    ensures Ok(cpus[n]) && cpus[n].rr.cap == cpus[0].rr.cap && cpus[n].rr.full == cpus[0].rr.full
    ensures |cpus[n].rr.slices| == |cpus[0].rr.slices|
  {
    if n == 0 {
    } else {
      RunOk(cpus, events, n - 1);
      assert StepAt(cpus, events, n - 1);
      StepOk(cpus[n - 1], cpus[n], events[n - 1]);
    }
  }

  /** Over a run every queued slice stays between one tick and a full slice. */
  lemma SlicesStay(cpus: seq<Cpu>, events: seq<Event>, n: nat, t: TaskId)
    requires Run(cpus, events) && n <= |events| && t in cpus[n].rr.queue
    ensures t < |cpus[n].rr.slices| && 1 <= cpus[n].rr.slices[t] <= cpus[n].rr.full
  {
    RunOk(cpus, events, n);
  }

  /** The ticks from point `i` up to point `n`. */
  function Ticks(events: seq<Event>, i: nat, n: nat): nat
    requires i <= n <= |events|
    decreases n
  {
    if n == i then 0 else Ticks(events, i, n - 1) + if events[n - 1].Ticked? then 1 else 0
  }

  /** While a task waits, every tick uses up one of the credits ahead of it. */
  lemma {:induction false} Waiting(cpus: seq<Cpu>, events: seq<Event>, rules: Rules, i: nat, n: nat, t: TaskId)
    requires Run(cpus, events) && i <= n <= |events| && AllowedFrom(events, i, rules) && t in cpus[i].rr.queue
    requires !MayStarve(cpus[i], rules) && forall k :: i <= k <= n ==> cpus[k].current != t
    ensures Ok(cpus[n]) && !MayStarve(cpus[n], rules) && |cpus[n].rr.slices| == |cpus[i].rr.slices|
    ensures t in cpus[n].rr.queue
    ensures Ticks(events, i, n) + Wait(cpus[n], t, rules) <= Wait(cpus[i], t, rules)
    decreases n
  {
    RunOk(cpus, events, n);
    if i == n {
    } else {
      RunOk(cpus, events, n - 1);
      Waiting(cpus, events, rules, i, n - 1, t);
      assert StepAt(cpus, events, n - 1);
      WaitingStep(cpus[n - 1], cpus[n], events[n - 1], t, rules);
    }
  }

  /** The running task alone has credit, so a wait is never used up before the turn comes. */
  lemma {:induction false} CreditsPositive(x: Cpu, t: TaskId, rules: Rules, n: nat)
    requires Ok(x) && n <= |x.rr.slices|
    ensures Credits(x, t, rules, n) >= if x.current < n then 1 else 0
  {
    if n == 0 {
    } else {
      CreditsPositive(x, t, rules, n - 1);
      BeforeHas(x.rr.queue, t, n - 1);
    }
  }

  /** The credits of at most one full slice for each task of `q`. */
  function Slices(q: seq<TaskId>, full: int, n: nat): int {
    if n == 0 then 0 else Slices(q, full, n - 1) + if n - 1 in q then full else 0
  }

  lemma {:induction false} SlicesOfOne(q: seq<TaskId>, a: TaskId, full: int, n: nat)
    requires 0 <= full
    ensures Slices([a] + q, full, n) <= Slices(q, full, n) + if a < n then full else 0
  {
    if n == 0 {
    } else {
      SlicesOfOne(q, a, full, n - 1);
    }
  }

  lemma {:induction false} SlicesAtMost(q: seq<TaskId>, full: int, n: nat)
    requires 0 <= full
    ensures Slices(q, full, n) <= |q| * full
  {
    if q == [] {
      NoSlices(full, n);
    } else {
      SlicesAtMost(q[1..], full, n);
      SlicesOfOne(q[1..], q[0], full, n);
      assert [q[0]] + q[1..] == q;
      assert |q| * full == |q[1..]| * full + full;
    }
  }

  lemma {:induction false} NoSlices(full: int, n: nat)
    ensures Slices([], full, n) == 0
  {
    if n == 0 {
    } else {
      NoSlices(full, n - 1);
    }
  }

  /** Woken tasks join at the back. */
  const BACK := Rules(false, true)

  lemma {:induction false} BackCredits(x: Cpu, t: TaskId, n: nat)
    requires Ok(x) && n <= |x.rr.slices|
    ensures Credits(x, t, BACK, n) <=
            Slices(Before(x.rr.queue, t), x.rr.full, n)
              + if x.current < n then AtLeast(x.rr.slices[x.current], 1) else 0
  {
    if n == 0 {
    } else {
      BackCredits(x, t, n - 1);
      BeforeHas(x.rr.queue, t, x.current);
    }
  }

  lemma {:induction false} AllCredits(x: Cpu, t: TaskId, rules: Rules, n: nat)
    requires Ok(x) && n <= |x.rr.slices| && t in x.rr.queue
    ensures Credits(x, t, rules, n) <=
            (n - (if t < n then 1 else 0) - (if x.current < n then 1 else 0)) * x.rr.full
              + if x.current < n then AtLeast(x.rr.slices[x.current], 1) else 0
  {
    if n == 0 {
    } else {
      AllCredits(x, t, rules, n - 1);
      BeforeHas(x.rr.queue, t, t);
      var m := n - 1 - (if t < n - 1 then 1 else 0) - (if x.current < n - 1 then 1 else 0);
      assert (m + 1) * x.rr.full == m * x.rr.full + x.rr.full;
    }
  }

  lemma AllTotal(x: Cpu, t: TaskId, rules: Rules)
    requires Ok(x) && t in x.rr.queue
    ensures Wait(x, t, rules) <= AtLeast(x.rr.slices[x.current], 1) + (|x.rr.slices| - 2) * x.rr.full
  {
    AllCredits(x, t, rules, |x.rr.slices|);
    assert t < |x.rr.slices| && t != x.current;
  }

  lemma {:induction false} BeforeLength(q: seq<TaskId>, t: TaskId, k: nat)
    requires k < |q| && q[k] == t && forall i, j :: 0 <= i < j < |q| ==> q[i] != q[j]
    ensures |Before(q, t)| == k
  {
    if k == 0 {
    } else {
      BeforeLength(q[1..], t, k - 1);
    }
  }

  /** A task runs before the ticks are over that others may take before it. */
  lemma ServedInTime(cpus: seq<Cpu>, events: seq<Event>, rules: Rules, i: nat, t: TaskId)
    requires Run(cpus, events) && i <= |events| && AllowedFrom(events, i, rules) && t in cpus[i].rr.queue
    requires !MayStarve(cpus[i], rules) && Ticks(events, i, |events|) >= Wait(cpus[i], t, rules)
    ensures exists m :: i < m <= |events| && cpus[m].current == t
  {
    RunOk(cpus, events, i);
    if forall m :: i < m <= |events| ==> cpus[m].current != t {
      Waiting(cpus, events, rules, i, |events|, t);
      CreditsPositive(cpus[|events|], t, rules, |cpus[i].rr.slices|);
      assert false;
    }
  }

  lemma BackTotal(x: Cpu, t: TaskId, k: nat)
    requires Ok(x) && k < |x.rr.queue| && x.rr.queue[k] == t
    ensures Wait(x, t, BACK) <= AtLeast(x.rr.slices[x.current], 1) + k * x.rr.full
  {
    BackCredits(x, t, |x.rr.slices|);
    BeforeLength(x.rr.queue, t, k);
    SlicesAtMost(Before(x.rr.queue, t), x.rr.full, |x.rr.slices|);
  }

  /** BOUNDED WAITING: at any point of any run, the task at queue index `k` runs before the
      running task's slice and `k` full slices are over, if from there on woken tasks join at
      the back. */
  lemma BoundedWaiting(cpus: seq<Cpu>, events: seq<Event>, i: nat, t: TaskId, k: nat)
    requires Run(cpus, events) && i <= |events| && AllowedFrom(events, i, BACK)
    requires k < |cpus[i].rr.queue| && cpus[i].rr.queue[k] == t && cpus[i].current < |cpus[i].rr.slices|
    requires Ticks(events, i, |events|) >= AtLeast(cpus[i].rr.slices[cpus[i].current], 1) + k * cpus[i].rr.full
    ensures exists m :: i < m <= |events| && cpus[m].current == t
  {
    RunOk(cpus, events, i);
    BackTotal(cpus[i], t, k);
    ServedInTime(cpus, events, BACK, i, t);
  }

  /** A queued task runs before every other task has used up one full slice, unless tasks
      can take turns before it. */
  lemma BoundedWaitingWithJumps(cpus: seq<Cpu>, events: seq<Event>, rules: Rules, i: nat, t: TaskId)
    requires Run(cpus, events) && i <= |events| && AllowedFrom(events, i, rules) && !MayStarve(cpus[i], rules)
    requires t in cpus[i].rr.queue && cpus[i].current < |cpus[i].rr.slices|
    requires Ticks(events, i, |events|) >=
             AtLeast(cpus[i].rr.slices[cpus[i].current], 1) + (|cpus[i].rr.slices| - 2) * cpus[i].rr.full
    ensures exists m :: i < m <= |events| && cpus[m].current == t
  {
    RunOk(cpus, events, i);
    AllTotal(cpus[i], t, rules);
    ServedInTime(cpus, events, rules, i, t);
  }

  /** Task 1 is queued, task `c` runs and task `o` is elsewhere, all with full slices. */
  function Turn(cap: nat, full: int, tasks: nat, c: TaskId): Cpu {
    Cpu(RR(cap, full, [1], seq(tasks, _ => full)), c, 0)
  }

  lemma Extend(cpus: seq<Cpu>, events: seq<Event>, x: Cpu, e: Event)
    requires Run(cpus, events) && Step(cpus[|events|], x, e)
    ensures Run(cpus + [x], events + [e])
  {
    var cpus', events' := cpus + [x], events + [e];
    forall k | 0 <= k < |events'| ensures StepAt(cpus', events', k) {
      if k < |events| {
        assert StepAt(cpus, events, k);
      }
    }
  }

  /** Task 2 gets the CPU, and task 1 queues behind it. */
  lemma FirstTurn(cap: nat, full: int, tasks: nat) returns (cpus: seq<Cpu>, events: seq<Event>)
    requires 2 <= full && 4 <= cap && 4 <= tasks
    ensures Run(cpus, events) && |events| == 3 && cpus[3] == Turn(cap, full, tasks, 2)
    ensures cpus[0].rr.cap == cap && cpus[0].rr.full == full && |cpus[0].rr.slices| == tasks
    ensures forall k :: 0 <= k < |events| ==> Allowed(events[k], Rules(true, true))
  {
    var slices := seq(tasks, _ => full);
    var x0 := Cpu(RR(cap, full, [], slices), 0, 0);
    var x1 := x0.(rr := x0.rr.(queue := [2]));
    var x2 := Cpu(RR(cap, full, [], slices), 2, 0);
    cpus, events := [x0], [];
    Extend(cpus, events, x1, Spawn(2));
    Extend([x0, x1], [Spawn(2)], x2, Yield);
    Extend([x0, x1, x2], [Spawn(2), Yield], Turn(cap, full, tasks, 2), Spawn(1));
    cpus, events := [x0, x1, x2, Turn(cap, full, tasks, 2)], [Spawn(2), Yield, Spawn(1)];
  }

  lemma {:induction false} TicksPrefix(events: seq<Event>, more: seq<Event>, i: nat, n: nat)
    requires i <= n <= |events| && events <= more
    ensures Ticks(more, i, n) == Ticks(events, i, n)
    decreases n
  {
    if i == n {
    } else {
      TicksPrefix(events, more, i, n - 1);
    }
  }

  /** Task `c` ticks, task `o` jumps the queue, `c` leaves, and comes by a full slice
      elsewhere: `o` is now where `c` was. */
  lemma NextTurn(was: seq<Cpu>, before: seq<Event>, cap: nat, full: int, tasks: nat, c: TaskId, o: TaskId)
    returns (cpus: seq<Cpu>, events: seq<Event>)
    requires 2 <= full && 4 <= cap && 4 <= tasks && 2 <= c <= 3 && o == 5 - c
    requires Run(was, before) && was[|before|] == Turn(cap, full, tasks, c)
    ensures Run(cpus, events) && was <= cpus && before <= events && |events| == |before| + 4
    ensures cpus[|events|] == Turn(cap, full, tasks, o)
    ensures events[|before|..] == [Ticked, Wake(o, true), Leave, Elsewhere(c, full)]
    ensures forall m :: |before| <= m <= |events| ==> cpus[m].current != 1
  {
    var x, rest := Turn(cap, full, tasks, c), seq(tasks, _ => full);
    var x1 := x.(rr := x.rr.(slices := rest[c := full - 1]));
    var x2 := x1.(rr := x1.rr.(queue := [o, 1]));
    var x3 := Cpu(x1.rr, o, 0);
    var x4 := Turn(cap, full, tasks, o);
    Extend(was, before, x1, Ticked);
    assert x2.rr.queue == [o] + x1.rr.queue;
    Extend(was + [x1], before + [Ticked], x2, Wake(o, true));
    assert x2.rr.queue[1..] == [1];
    Extend(was + [x1] + [x2], before + [Ticked] + [Wake(o, true)], x3, Leave);
    assert rest[c := full - 1][c := full] == rest;
    cpus, events := was + [x1] + [x2] + [x3], before + [Ticked] + [Wake(o, true)] + [Leave];
    Extend(cpus, events, x4, Elsewhere(c, full));
    cpus, events := cpus + [x4], events + [Elsewhere(c, full)];
  }

  /** STARVATION: with jumps and full slices from elsewhere, a queued task can wait for any
      number of ticks. */
  lemma {:induction false} Starvation(cap: nat, full: int, tasks: nat, n: nat)
    returns (cpus: seq<Cpu>, events: seq<Event>, c: TaskId)
    requires 2 <= full && 4 <= cap && 4 <= tasks
    ensures Run(cpus, events) && AllowedFrom(events, 0, Rules(true, true)) && 3 <= |events|
    ensures cpus[0].rr.cap == cap && cpus[0].rr.full == full && |cpus[0].rr.slices| == tasks
    ensures 2 <= c <= 3 && cpus[3].rr.queue == [1] && cpus[|events|] == Turn(cap, full, tasks, c)
    ensures Ticks(events, 3, |events|) == n
    ensures forall m :: 3 <= m <= |events| ==> cpus[m].current != 1
  {
    if n == 0 {
      cpus, events := FirstTurn(cap, full, tasks);
      c := 2;
    } else {
      var was, before, o := Starvation(cap, full, tasks, n - 1);
      c := 5 - o;
      cpus, events := NextTurn(was, before, cap, full, tasks, o, c);
      MoreTicks(before, events, o, c, full);
      forall k | 0 <= k < |events| ensures Allowed(events[k], Rules(true, true)) {
        assert k < |before| ==> events[k] == before[k];
      }
    }
  }

  lemma MoreTicks(before: seq<Event>, events: seq<Event>, c: TaskId, o: TaskId, full: int)
    requires 3 <= |before| && before <= events && |events| == |before| + 4
    requires events[|before|..] == [Ticked, Wake(o, true), Leave, Elsewhere(c, full)]
    ensures Ticks(events, 3, |events|) == Ticks(before, 3, |before|) + 1
  {
    var n := |before|;
    TicksPrefix(before, events, 3, n);
    assert forall k :: 0 <= k < 4 ==> events[n + k] == events[n..][k];
    assert Ticks(events, 3, n + 1) == Ticks(events, 3, n) + 1;
    assert Ticks(events, 3, n + 2) == Ticks(events, 3, n + 1);
    assert Ticks(events, 3, n + 3) == Ticks(events, 3, n + 2);
  }

  /** A run, on a CPU of this size, in which task `t` is queued at point `i`. */
  ghost predicate Waits(cpus: seq<Cpu>, events: seq<Event>, cap: nat, full: int, tasks: nat, rules: Rules,
                        i: nat, t: TaskId) {
    && Run(cpus, events) && i <= |events| && AllowedFrom(events, i, rules) && t in cpus[i].rr.queue
    && cpus[0].rr.cap == cap && cpus[0].rr.full == full && |cpus[0].rr.slices| == tasks
  }

  /** No queued task waits for `b` ticks. */
  ghost predicate WaitsAtMost(b: nat, cap: nat, full: int, tasks: nat, rules: Rules) {
    forall cpus: seq<Cpu>, events: seq<Event>, i: nat, t: TaskId ::
      Waits(cpus, events, cap, full, tasks, rules, i, t) && Ticks(events, i, |events|) >= b ==>
        exists m :: i < m <= |events| && cpus[m].current == t
  }

  /** EXACTLY WHEN WAITING IS BOUNDED: on CPUs of one size there is a bound for all runs if and
      only if tasks cannot take turns before a queued one. */
  lemma WaitingExact(cap: nat, full: int, tasks: nat, rules: Rules)
    ensures (exists b: nat :: WaitsAtMost(b, cap, full, tasks, rules)) <==> !Starving(cap, full, tasks, rules)
  {
    if Starving(cap, full, tasks, rules) {
      forall b: nat ensures !WaitsAtMost(b, cap, full, tasks, rules) {
        var cpus, events, c := Starvation(cap, full, tasks, b);
        assert Waits(cpus, events, cap, full, tasks, rules, 3, 1);
      }
    } else {
      var b := if full < 1 then 0 else tasks * full;
      forall cpus: seq<Cpu>, events: seq<Event>, i: nat, t: TaskId
        | Waits(cpus, events, cap, full, tasks, rules, i, t) && Ticks(events, i, |events|) >= b
        ensures exists m :: i < m <= |events| && cpus[m].current == t
      {
        RunOk(cpus, events, i);
        assert (tasks - 2) * full + full <= tasks * full;
        BoundedWaitingWithJumps(cpus, events, rules, i, t);
      }
      assert WaitsAtMost(b, cap, full, tasks, rules);
    }
  }
}
