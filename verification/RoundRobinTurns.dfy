/** What a turn is worth under round robin: a task sent to the back gets a full slice, and uses
    up all of it, tick by tick, before it is sent there again. */
module RoundRobinTurns {
  import opened Wrappers
  import opened TaskTypes
  import opened RoundRobinModel
  import opened RoundRobinWaiting

  /** Task `c` has gone from the CPU to the back of the queue, and the first runs. */
  predicate Rotated(x: Cpu, x': Cpu, c: TaskId) {
    [x'.current] + x'.rr.queue == x.rr.queue + [c]
  }

  /** The same task runs on, and the same tasks wait. */
  predicate RunsOn(x: Cpu, x': Cpu) {
    x'.current == x.current && x'.rr.queue == x.rr.queue
  }

  /** Only the slice of task `t` may have changed, and to `slice`. */
  predicate SliceSet(x: Cpu, x': Cpu, t: TaskId, slice: int) {
    t < |x.rr.slices| && x'.rr.slices == x.rr.slices[t := slice]
  }

  lemma RotateQueue(s: RR, idle: TaskId, c: TaskId)
    requires |s.queue| < s.cap - 1 && c < |s.slices|
    ensures var x' := Switch(PushBack(s, c), idle);
            [x'.current] + x'.rr.queue == s.queue + [c] && x'.rr.slices == s.slices
  {
    var q := s.queue + [c];
    assert [q[0]] + q[1..] == q;
  }

  lemma FrontAgain(s: RR, idle: TaskId, c: TaskId)
    requires |s.queue| < s.cap - 1 && c < |s.slices|
    ensures Switch(PushFront(s, c), idle) == Cpu(s, c, idle)
  {
    var q := [c] + s.queue;
    assert q[1..] == s.queue;
  }

  /** THE END OF A TURN: a tick takes one from the slice, and sends the task to the back, with
      a full slice, exactly if there was no more than that one left. */
  lemma TickTurn(x: Cpu, x': Cpu)
    requires Ok(x) && Step(x, x', Ticked) && x.current != x.idle
    ensures x.rr.slices[x.current] > 1 ==>
              RunsOn(x, x') && SliceSet(x, x', x.current, x.rr.slices[x.current] - 1)
    ensures x.rr.slices[x.current] <= 1 ==>
              Rotated(x, x', x.current) && SliceSet(x, x', x.current, x.rr.full)
  {
    var (again, s) := Tick(x.rr, x.current);
    if again {
      RotateQueue(s.(slices := s.slices[x.current := s.full]), x.idle, x.current);
    }
  }

  /** A tick takes the CPU from a task, the idle task included, only when no more than that tick
      was left of the slice; until then the tick asks for nothing. */
  lemma TickSwitches(x: Cpu, x': Cpu)
    requires Ok(x) && Step(x, x', Ticked)
    ensures x'.current != x.current ==> x.rr.slices[x.current] <= 1
    ensures Tick(x.rr, x.current).0 <==> Tick(x.rr, x.current).1.slices[x.current] <= 0
  {
    if x.current != x.idle {
      TickTurn(x, x');
    }
  }

  /** A task that yields goes to the back with a full slice. */
  lemma YieldTurn(x: Cpu, x': Cpu)
    requires Ok(x) && Step(x, x', Yield) && x.current != x.idle
    ensures Rotated(x, x', x.current) && SliceSet(x, x', x.current, x.rr.full)
  {
    RotateQueue(x.rr.(slices := x.rr.slices[x.current := x.rr.full]), x.idle, x.current);
  }

  /** A preempted task has something of its slice left, and so runs on. */
  lemma PreemptTurn(x: Cpu, x': Cpu)
    requires Ok(x) && Step(x, x', Preempt) && x.current != x.idle
    ensures RunsOn(x, x') && x'.rr.slices == x.rr.slices
  {
    FrontAgain(x.rr, x.idle, x.current);
  }

  /** The idle task is never queued; it gives way to whatever is. */
  lemma IdleTurn(x: Cpu, x': Cpu, e: Event)
    requires Ok(x) && Step(x, x', e) && e in {Yield, Preempt} && x.current == x.idle
    ensures x'.rr.slices == x.rr.slices
    ensures if x.rr.queue == [] then RunsOn(x, x') else [x'.current] + x'.rr.queue == x.rr.queue
  {
  }

  /** A task that leaves makes way for the first one, and keeps what is left of its slice. */
  lemma LeaveTurn(x: Cpu, x': Cpu)
    requires Ok(x) && Step(x, x', Leave)
    ensures x'.rr.slices == x.rr.slices
    ensures if x.rr.queue == [] then x'.current == x.idle && x'.rr.queue == []
            else [x'.current] + x'.rr.queue == x.rr.queue
  {
  }

  /** A task woken with a slice left, for a reschedule, is next; any other task woken, or
      spawned, is last and has a full slice. */
  lemma JoinTurn(x: Cpu, x': Cpu, e: Event, t: TaskId)
    requires Ok(x) && Step(x, x', e) && (e == Spawn(t) || (e.Wake? && e.t == t))
    ensures x'.current == x.current && t < |x.rr.slices|
    ensures if e.Wake? && e.preempt && x.rr.slices[t] > 0 then
              x'.rr.queue == [t] + x.rr.queue && x'.rr.slices == x.rr.slices
            else
              x'.rr.queue == x.rr.queue + [t] && SliceSet(x, x', t, x.rr.full)
  {
    if e.Spawn? {
      assert x.rr.slices[t := x.rr.full] == x.rr.slices;
    }
  }

  /** Task `t` is not the idle task, and runs or waits here. */
  predicate Present(x: Cpu, t: TaskId) {
    t != x.idle && t < |x.rr.slices| && (t == x.current || t in x.rr.queue)
  }

  /** Task `t` gives up the CPU of its own accord. */
  predicate GivesUp(x: Cpu, e: Event, t: TaskId) {
    (e.Yield? || e.Leave?) && x.current == t
  }

  predicate TicksTask(x: Cpu, e: Event, t: TaskId) {
    e.Ticked? && x.current == t
  }

  function Next(slice: int, full: int): int {
    if slice <= 1 then full else slice - 1
  }

  lemma InTurn(q: seq<TaskId>, c: TaskId, d: TaskId, q': seq<TaskId>, t: TaskId)
    requires [d] + q' == q + [c]
    ensures t == d || t in q' <==> t in q || t == c
  {
    assert (t == d || t in q') == (t in [d] + q');
    assert (t in q || t == c) == (t in q + [c]);
  }

  lemma FirstInTurn(q: seq<TaskId>, d: TaskId, q': seq<TaskId>, t: TaskId)
    requires [d] + q' == q
    ensures t == d || t in q' <==> t in q
  {
    assert (t == d || t in q') == (t in [d] + q');
  }

  /** As long as it does not give up the CPU, a task's slice changes by its own ticks only. */
  lemma SliceStep(x: Cpu, x': Cpu, e: Event, t: TaskId)
    requires Ok(x) && Step(x, x', e) && Present(x, t) && !GivesUp(x, e, t)
    ensures Present(x', t) && x'.idle == x.idle
    ensures x'.rr.slices[t] ==
            if TicksTask(x, e, t) then Next(x.rr.slices[t], x.rr.full) else x.rr.slices[t]
  {
    match e
    case Ticked =>
      if x.current == x.idle {
        IdleTick(x, x', t);
      } else {
        TickTurn(x, x');
        if x.rr.slices[x.current] <= 1 {
          InTurn(x.rr.queue, x.current, x'.current, x'.rr.queue, t);
        }
      }
    case Yield =>
      if x.current == x.idle {
        IdleTurn(x, x', e);
        StillInTurn(x, x', t);
      } else {
        YieldTurn(x, x');
        InTurn(x.rr.queue, x.current, x'.current, x'.rr.queue, t);
      }
    case Preempt =>
      if x.current == x.idle {
        IdleTurn(x, x', e);
        StillInTurn(x, x', t);
      } else {
        PreemptTurn(x, x');
      }
    case Leave =>
      LeaveTurn(x, x');
      StillInTurn(x, x', t);
    case Spawn(u) => JoinTurn(x, x', e, u);
    case Wake(u, _) => JoinTurn(x, x', e, u);
    case Elsewhere(u, slice) =>
  }

  lemma StillInTurn(x: Cpu, x': Cpu, t: TaskId)
    requires t in x.rr.queue && [x'.current] + x'.rr.queue == x.rr.queue
    ensures t == x'.current || t in x'.rr.queue
  {
    FirstInTurn(x.rr.queue, x'.current, x'.rr.queue, t);
  }

  lemma IdleTick(x: Cpu, x': Cpu, t: TaskId)
    requires Ok(x) && Step(x, x', Ticked) && x.current == x.idle && t in x.rr.queue
    ensures t == x'.current || t in x'.rr.queue
    ensures x'.idle == x.idle && SliceSet(x, x', x.idle, x.rr.slices[x.idle] - 1)
  {
    var (again, s) := Tick(x.rr, x.current);
    if again {
      FirstInTurn(s.queue, x'.current, x'.rr.queue, t);
    }
  }

  /** How many ticks task `t` takes between the points `i` and `j`. */
  function TicksOf(cpus: seq<Cpu>, events: seq<Event>, i: nat, j: nat, t: TaskId): nat
    requires i <= j <= |events| < |cpus|
    decreases j
  {
    if i == j then 0
    else TicksOf(cpus, events, i, j - 1, t) + if TicksTask(cpus[j - 1], events[j - 1], t) then 1 else 0
  }

  lemma Multiple(d: int, full: int)
    requires 1 <= full
    ensures d >= 1 ==> d * full >= full
    ensures d <= -1 ==> d * full <= -full
  {
    if d >= 1 {
      assert (d - 1) * full >= 0;
    } else if d <= -1 {
      assert (-d - 1) * full >= 0;
    }
  }

  lemma NextMod(n: nat, full: int)
    requires 1 <= full
    ensures Next(full - n % full, full) == full - (n + 1) % full
  {
    var d := (n + 1) / full - n / full;
    assert (n + 1) / full * full == d * full + n / full * full;
    assert d * full == n % full + 1 - (n + 1) % full;
    Multiple(d, full);
    assert d != 0 ==> n % full + 1 == full && (n + 1) % full == 0;
  }

  /** Task `t` does not give up the CPU of its own accord between the points `i` and `j`. */
  predicate Persists(cpus: seq<Cpu>, events: seq<Event>, i: nat, j: nat, t: TaskId) {
    i <= j <= |events| < |cpus| && forall k {:trigger events[k]} :: i <= k < j ==> !GivesUp(cpus[k], events[k], t)
  }

  /** What is left of the slice of task `t`, as the ticks from point `i` up to point `j` tell. */
  predicate Counts(cpus: seq<Cpu>, events: seq<Event>, i: nat, j: nat, t: TaskId, full: int)
    requires i <= j <= |events| < |cpus|
  {
    && Present(cpus[j], t) && cpus[j].rr.full == full && 1 <= full
    && cpus[j].rr.slices[t] == full - TicksOf(cpus, events, i, j, t) % full
  }

  lemma CountsNext(cpus: seq<Cpu>, events: seq<Event>, i: nat, j: nat, t: TaskId, full: int)
    requires Run(cpus, events) && i < j <= |events| && !GivesUp(cpus[j - 1], events[j - 1], t)
    requires Counts(cpus, events, i, j - 1, t, full)
    ensures Counts(cpus, events, i, j, t, full)
  {
    RunOk(cpus, events, j - 1);
    assert StepAt(cpus, events, j - 1);
    StepOk(cpus[j - 1], cpus[j], events[j - 1]);
    SliceStep(cpus[j - 1], cpus[j], events[j - 1], t);
    NextMod(TicksOf(cpus, events, i, j - 1, t), full);
  }

  /** THE SLICE COUNTS THE TICKS: over any stretch of a run that a task begins with a full slice
      and in which it never gives up the CPU, whatever else happens, what is left of its slice
      is a full one less its own ticks, counted modulo a full slice. */
  lemma {:induction false} SliceCounts(cpus: seq<Cpu>, events: seq<Event>, i: nat, j: nat, t: TaskId)
    requires Run(cpus, events) && Persists(cpus, events, i, j, t)
    requires Present(cpus[i], t) && cpus[i].rr.slices[t] == cpus[i].rr.full
    ensures Counts(cpus, events, i, j, t, cpus[i].rr.full)
    decreases j
  {
    if i == j {
      RunOk(cpus, events, i);
    } else {
      SliceCounts(cpus, events, i, j - 1, t);
      assert !GivesUp(cpus[j - 1], events[j - 1], t);
      CountsNext(cpus, events, i, j, t, cpus[i].rr.full);
    }
  }

  /** A TURN IS A FULL SLICE: such a task is sent to the back by every `full`-th of its ticks,
      with a full slice again, and by no other; after any other tick it runs on. */
  lemma TurnIsFullSlice(cpus: seq<Cpu>, events: seq<Event>, i: nat, k: nat, t: TaskId)
    requires Run(cpus, events) && k < |events| && Persists(cpus, events, i, k, t)
    requires Present(cpus[i], t) && cpus[i].rr.slices[t] == cpus[i].rr.full
    requires TicksTask(cpus[k], events[k], t)
    ensures 1 <= cpus[i].rr.full
    ensures if TicksOf(cpus, events, i, k + 1, t) % cpus[i].rr.full == 0 then
              Rotated(cpus[k], cpus[k + 1], t) && SliceSet(cpus[k], cpus[k + 1], t, cpus[i].rr.full)
            else RunsOn(cpus[k], cpus[k + 1])
  {
    SliceCounts(cpus, events, i, k, t);
    RunOk(cpus, events, k);
    assert StepAt(cpus, events, k);
    TickTurn(cpus[k], cpus[k + 1]);
    NextMod(TicksOf(cpus, events, i, k, t), cpus[i].rr.full);
  }
}
