/** A spinning waker is soon released: the handshake over whole runs. */
module SchedProgress {
  import opened TaskTypes
  import opened SchedMachine
  import opened SchedPlacement
  import opened SchedTheorems
  import opened SchedHandshake

  /** CPU `c` spins for task `t` in all states from `i` up to `j`. */
  ghost predicate SpinsFor(states: seq<State>, i: nat, j: nat, c: CpuId, t: TaskId) {
    && i <= j < |states|
    && forall k {:trigger states[k]} :: i <= k <= j ==>
         c < |states[k].cpus| && states[k].cpus[c].pc.WakeSpin? && states[k].cpus[c].pc.task == t
  }

  predicate Marked(s: State, t: TaskId) {
    t < |s.tasks| && s.tasks[t].onCpu
  }

  /** How many of the steps from `i` up to `j` CPU `d` takes. */
  function StepsOf(steps: seq<(CpuId, Action)>, i: nat, j: nat, d: CpuId): nat
    requires i <= j <= |steps|
    decreases j
  {
    if i == j then 0 else StepsOf(steps, i, j - 1, d) + if steps[j - 1].0 == d then 1 else 0
  }

  lemma {:induction false} AllReachable(states: seq<State>, steps: seq<(CpuId, Action)>, k: nat)
    requires Run(states, steps) && k <= |steps|
    ensures Reachable(states[k])
  {
    var prefix, taken := states[..k + 1], steps[..k];
    forall m | 0 <= m < k ensures StepAt(prefix, taken, m) {
      assert StepAt(states, steps, m);
    }
    assert Run(prefix, taken) && prefix[|taken|] == states[k];
  }

  /** No two CPUs use the same task. */
  lemma OccupiedOnce(s: State, d: CpuId, e: CpuId, t: TaskId)
    requires Reachable(s) && d < |s.cpus| && e < |s.cpus| && Occupies(s.cpus[d], t) && Occupies(s.cpus[e], t)
    ensures d == e
  {
    var p := ReachableHolds(s);
    assert CpuInv(s, p, d) && CpuInv(s, p, e);
  }

  /** While a waker has the task in hand nobody marks it. */
  lemma NobodyMarks(s: State, s': State, e: CpuId, act: Action, c: CpuId, t: TaskId)
    requires Reachable(s) && WellFormed(s) && Step(s, s', e, act)
    requires c < |s.cpus| && s.cpus[c].pc.WakeSpin? && s.cpus[c].pc.task == t
    ensures t < |s.tasks| == |s'.tasks|
    ensures !s.tasks[t].onCpu ==> !s'.tasks[t].onCpu
  {
    var p := ReachableHolds(s);
    assert CpuInv(s, p, c) && CpuInv(s, p, e);
  }

  /** One step of a run under a spinning waker: the awaited CPU comes nearer to having left
      the task if the step is its own, and stays where it is if not. */
  lemma SpinStep(s: State, s': State, e: CpuId, act: Action, c: CpuId, d: CpuId, t: TaskId)
    requires Reachable(s) && Reachable(s') && WellFormed(s) && Step(s, s', e, act)
    requires c < |s.cpus| && s.cpus[c].pc.WakeSpin? && s.cpus[c].pc.task == t
    requires c < |s'.cpus| && s'.cpus[c].pc.WakeSpin? && s'.cpus[c].pc.task == t
    requires d < |s.cpus| && Occupies(s.cpus[d], t) && Marked(s, t) && Marked(s', t)
    ensures d < |s'.cpus| && Occupies(s'.cpus[d], t)
    ensures Rank(s.cpus[d].pc) > 0 && Rank(s'.cpus[d].pc) <= Rank(s.cpus[d].pc) - if e == d then 1 else 0
  {
    var d0 := AwaitedIsLeaving(s, c);
    OccupiedOnce(s, d, d0, t);
    var d' := AwaitedIsLeaving(s', c);
    if e == d {
      AwaitedAdvances(s, s', c, d, act);
      if d' != d {
        OthersDoNotMoveIt(s, s', d', e, act);
        OccupiedOnce(s, d, d', t);
      }
    } else {
      OthersDoNotMoveIt(s, s', d, e, act);
    }
  }

  lemma RunStep(states: seq<State>, steps: seq<(CpuId, Action)>, k: nat)
    requires Run(states, steps) && k < |steps|
    ensures Reachable(states[k]) && Reachable(states[k + 1]) && StepAt(states, steps, k)
  {
    AllReachable(states, steps, k);
    AllReachable(states, steps, k + 1);
  }

  /** While the task is still marked, the awaited CPU `d` has used up its rank step by step. */
  lemma {:induction false} RankFalls(states: seq<State>, steps: seq<(CpuId, Action)>, i: nat, j: nat,
                                     c: CpuId, d: CpuId, t: TaskId)
    requires Run(states, steps) && j <= |steps| && SpinsFor(states, i, j, c, t)
    requires d < |states[i].cpus| && Occupies(states[i].cpus[d], t)
    requires forall k {:trigger states[k]} :: i <= k <= j ==> Marked(states[k], t)
    ensures d < |states[j].cpus| && Occupies(states[j].cpus[d], t)
    ensures 0 < Rank(states[j].cpus[d].pc) <= 6 - StepsOf(steps, i, j, d)
    decreases j
  {
    if i == j {
      AllReachable(states, steps, i);
      RankPositive(states[i], c, d, t);
    } else {
      RankFalls(states, steps, i, j - 1, c, d, t);
      OneStep(states, steps, j - 1, c, d, t);
    }
  }

  lemma RankPositive(s: State, c: CpuId, d: CpuId, t: TaskId)
    requires Reachable(s) && c < |s.cpus| && s.cpus[c].pc.WakeSpin? && s.cpus[c].pc.task == t && Marked(s, t)
    requires d < |s.cpus| && Occupies(s.cpus[d], t)
    ensures 0 < Rank(s.cpus[d].pc) <= 6
  {
    var d0 := AwaitedIsLeaving(s, c);
    OccupiedOnce(s, d, d0, t);
  }

  lemma OneStep(states: seq<State>, steps: seq<(CpuId, Action)>, k: nat, c: CpuId, d: CpuId, t: TaskId)
    requires Run(states, steps) && k < |steps| && SpinsFor(states, k, k + 1, c, t)
    requires d < |states[k].cpus| && Occupies(states[k].cpus[d], t)
    requires Marked(states[k], t) && Marked(states[k + 1], t)
    ensures d < |states[k + 1].cpus| && Occupies(states[k + 1].cpus[d], t)
    ensures 0 < Rank(states[k + 1].cpus[d].pc)
            <= Rank(states[k].cpus[d].pc) - if steps[k].0 == d then 1 else 0
  {
    RunStep(states, steps, k);
    SpinStep(states[k], states[k + 1], steps[k].0, steps[k].1, c, d, t);
    RankPositive(states[k + 1], c, d, t);
  }

  lemma {:induction false} StaysUnmarked(states: seq<State>, steps: seq<(CpuId, Action)>, m: nat, n: nat,
                                         c: CpuId, t: TaskId)
    requires Run(states, steps) && n <= |steps| && SpinsFor(states, m, n, c, t) && !Marked(states[m], t)
    ensures !Marked(states[n], t)
    decreases n
  {
    if m == n {
    } else {
      StaysUnmarked(states, steps, m, n - 1, c, t);
      RunStep(states, steps, n - 1);
      NobodyMarks(states[n - 1], states[n], steps[n - 1].0, steps[n - 1].1, c, t);
    }
  }

  /** THE WAIT ENDS: a waker waits, if at all, for one other CPU, and once that CPU has taken
      six steps the task is free, and stays so until the waker goes on. */
  lemma SpinIsBounded(states: seq<State>, steps: seq<(CpuId, Action)>, i: nat, c: CpuId, t: TaskId)
    returns (d: CpuId)
    requires Run(states, steps) && i <= |steps| && SpinsFor(states, i, i, c, t) && Marked(states[i], t)
    ensures d != c && d < |states[i].cpus| && Occupies(states[i].cpus[d], t)
    ensures forall j :: i <= j <= |steps| && SpinsFor(states, i, j, c, t) && StepsOf(steps, i, j, d) >= 6 ==>
              !Marked(states[j], t)
  {
    AllReachable(states, steps, i);
    d := AwaitedIsLeaving(states[i], c);
    forall j | i <= j <= |steps| && SpinsFor(states, i, j, c, t) && StepsOf(steps, i, j, d) >= 6
      ensures !Marked(states[j], t)
    {
      if k :| i <= k <= j && !Marked(states[k], t) {
        StaysUnmarked(states, steps, k, j, c, t);
      } else {
        RankFalls(states, steps, i, j, c, d, t);
      }
    }
  }
}
