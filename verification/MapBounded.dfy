/** Every operation of the ordered map ends after a bounded number of its own steps, whatever other
    threads do, and gives up only after its last round. */
module MapBounded {
  import opened Wrappers
  import opened Ordering
  import opened MapMachine

  /** The slots from `i` on. */
  function Ahead(n: nat, i: nat): nat { if i < n then n - i else 0 }

  /** The steps that one round of an insertion, or one scan of a pop, takes at most, and more. */
  function Round(n: nat): nat { 6 * n + 20 }

  function Rounds(k: int, n: nat): int { k * Round(n) }

  lemma NextRounds(k: int, n: nat)
    ensures Rounds(k, n) == Rounds(k - 1, n) + Round(n)
    ensures 0 <= k ==> 0 <= Rounds(k, n)
  {
    assert k * Round(n) == (k - 1) * Round(n) + Round(n);
    if 0 <= k {
      assert 0 <= k * Round(n);
    }
  }

  /** The rounds are counted as they should be: an insertion makes one for every slot, a pop
      sixteen. */
  predicate Counted<K, V>(pc: Pc<K, V>, n: nat) {
    match pc
    case Seek(_, retry, _) => retry < n
    case Compare(_, retry, _, _) => retry < n
    case Find(_, retry, _) => retry < n
    case Lock(job, _) => JobCounted(job, n)
    case TryLock(job, _, _) => JobCounted(job, n)
    case Check(job, _, _) => JobCounted(job, n)
    case Restore(job, _, _) => JobCounted(job, n)
    case Scan(_, retry, _, _) => retry < 16
    case Verify(_, retry, _, _, _) => retry < 16
    case Reload(_, retry, _, _, _) => retry < 16
    case Copy(_, retry, _, _, _) => retry < 16
    case Subtract(_, i) => i < n
    case _ => true
  }

  predicate JobCounted<K, V>(job: Job<K, V>, n: nat) {
    match job
    case Update(_, retry, _) => retry < n
    case Remove(_, retry) => retry < 16
    case Wipe(_) => true
  }

  /** More than the steps left to a thread before it returns. */
  function Left<K, V>(pc: Pc<K, V>, n: nat): int {
    match pc
    case Idle => 0
    case Start(_, _) => Rounds(n, n) + 1
    case Seek(_, retry, i) => Rounds(n - retry - 1, n) + n + 6 + 4 * Ahead(n, i) + 1
    case Compare(_, retry, i, _) => Rounds(n - retry - 1, n) + n + 6 + 4 * Ahead(n, i)
    case Find(_, retry, i) => Rounds(n - retry - 1, n) + Ahead(n, i) + 5
    case Write(_, _) => 3
    case Publish(_, _) => 2
    case Add => 1
    case Lock(job, i) => JobLeft(job, i, n) - 1
    case TryLock(job, i, _) => JobLeft(job, i, n) - 2
    case Check(job, i, _) => JobLeft(job, i, n) - 3
    case Restore(job, i, _) => JobLeft(job, i, n) - 4
    case Republish(_, _) => 1
    case Vacate(out, i) => if out.Popped? then 2 else 8 * Ahead(n, i) - 4
    case Subtract(out, i) => if out.Popped? then 1 else 8 * Ahead(n, i) - 5
    case Scan(_, retry, _, i) => Rounds(15 - retry, n) + 12 + 4 * Ahead(n, i)
    case Verify(_, retry, _, i, _) => Rounds(15 - retry, n) + 11 + 4 * Ahead(n, i)
    case Reload(_, retry, _, i, _) => Rounds(15 - retry, n) + 10 + 4 * Ahead(n, i)
    case Copy(_, retry, _, i, _) => Rounds(15 - retry, n) + 9 + 4 * Ahead(n, i)
    case Peeked(_) => 1
    case Sweep(i) => 8 * Ahead(n, i) + 1
  }

  function JobLeft<K, V>(job: Job<K, V>, i: nat, n: nat): int {
    match job
    case Update(_, retry, _) => Rounds(n - retry - 1, n) + n + 6 + 4 * Ahead(n, i)
    case Remove(_, retry) => Rounds(15 - retry, n) + 12
    case Wipe(_) => 8 * Ahead(n, i)
  }

  /** The thread has gone on from `pc` to `pc'`, and is nearer to its return. */
  predicate Nearer<K, V>(pc: Pc<K, V>, pc': Pc<K, V>, n: nat) {
    Counted(pc', n) && Left(pc', n) < Left(pc, n) && (!pc'.Idle? ==> 0 < Left(pc', n))
  }

  lemma StartNearer<K, V>(le: (K, K) -> bool, s: State<K, V>, s': State<K, V>, t: Tid, act: Action<K, V>)
    requires Step(le, s, s', t, act) && !s.pcs[t].Idle? && Counted(s.pcs[t], |s.slots|)
    requires s.pcs[t].Start?
    ensures t < |s'.pcs| && |s'.slots| == |s.slots| && Nearer(s.pcs[t], s'.pcs[t], |s.slots|)
  {
    NextRounds(|s.slots|, |s.slots|);
    NextRounds(|s.slots| - 1, |s.slots|);
  }

  lemma SeekNearer<K, V>(le: (K, K) -> bool, s: State<K, V>, s': State<K, V>, t: Tid, act: Action<K, V>)
    requires Step(le, s, s', t, act) && !s.pcs[t].Idle? && Counted(s.pcs[t], |s.slots|)
    requires var pc := s.pcs[t]; pc.Seek? || pc.Compare? || pc.Write? || pc.Publish? || pc.Add?
    ensures t < |s'.pcs| && |s'.slots| == |s.slots| && Nearer(s.pcs[t], s'.pcs[t], |s.slots|)
  {
    var pc := s.pcs[t];
    if pc.Seek? || pc.Compare? {
      NextRounds(|s.slots| - pc.retry - 1, |s.slots|);
    }
  }

  lemma FindNearer<K, V>(le: (K, K) -> bool, s: State<K, V>, s': State<K, V>, t: Tid, act: Action<K, V>)
    requires Step(le, s, s', t, act) && !s.pcs[t].Idle? && Counted(s.pcs[t], |s.slots|)
    requires s.pcs[t].Find?
    ensures t < |s'.pcs| && |s'.slots| == |s.slots| && Nearer(s.pcs[t], s'.pcs[t], |s.slots|)
  {
    NextRounds(|s.slots| - s.pcs[t].retry - 1, |s.slots|);
    NextRounds(|s.slots| - s.pcs[t].retry - 2, |s.slots|);
  }

  lemma ScanNearer<K, V>(le: (K, K) -> bool, s: State<K, V>, s': State<K, V>, t: Tid, act: Action<K, V>)
    requires Step(le, s, s', t, act) && !s.pcs[t].Idle? && Counted(s.pcs[t], |s.slots|)
    requires var pc := s.pcs[t]; pc.Verify? || pc.Reload? || pc.Copy?
    ensures t < |s'.pcs| && |s'.slots| == |s.slots| && Nearer(s.pcs[t], s'.pcs[t], |s.slots|)
  {
    NextRounds(15 - s.pcs[t].retry, |s.slots|);
  }

  lemma ScanNextNearer<K, V>(le: (K, K) -> bool, s: State<K, V>, s': State<K, V>, t: Tid, act: Action<K, V>)
    requires Step(le, s, s', t, act) && Counted(s.pcs[t], |s.slots|) && s.pcs[t].Scan?
    ensures t < |s'.pcs| && |s'.slots| == |s.slots| && Nearer(s.pcs[t], s'.pcs[t], |s.slots|)
  {
    NextRounds(15 - s.pcs[t].retry, |s.slots|);
  }

  lemma UpdateNearer<K, V>(le: (K, K) -> bool, s: State<K, V>, s': State<K, V>, t: Tid, act: Action<K, V>)
    requires Step(le, s, s', t, act) && !s.pcs[t].Idle? && Counted(s.pcs[t], |s.slots|)
    requires var pc := s.pcs[t]; (pc.Lock? || pc.TryLock? || pc.Check? || pc.Restore?) && pc.job.Update?
    ensures t < |s'.pcs| && |s'.slots| == |s.slots| && Nearer(s.pcs[t], s'.pcs[t], |s.slots|)
  {
    NextRounds(|s.slots| - s.pcs[t].job.retry - 1, |s.slots|);
  }

  lemma RemoveNearer<K, V>(le: (K, K) -> bool, s: State<K, V>, s': State<K, V>, t: Tid, act: Action<K, V>)
    requires Step(le, s, s', t, act) && !s.pcs[t].Idle? && Counted(s.pcs[t], |s.slots|)
    requires var pc := s.pcs[t]; (pc.Lock? || pc.TryLock? || pc.Check? || pc.Restore?) && pc.job.Remove?
    ensures t < |s'.pcs| && |s'.slots| == |s.slots| && Nearer(s.pcs[t], s'.pcs[t], |s.slots|)
  {
    NextRounds(15 - s.pcs[t].job.retry, |s.slots|);
    NextRounds(14 - s.pcs[t].job.retry, |s.slots|);
  }

  lemma WipeNearer<K, V>(le: (K, K) -> bool, s: State<K, V>, s': State<K, V>, t: Tid, act: Action<K, V>)
    requires Step(le, s, s', t, act) && !s.pcs[t].Idle? && Counted(s.pcs[t], |s.slots|)
    requires var pc := s.pcs[t]; (pc.Lock? || pc.TryLock? || pc.Check? || pc.Restore?) && pc.job.Wipe?
    ensures t < |s'.pcs| && |s'.slots| == |s.slots| && Nearer(s.pcs[t], s'.pcs[t], |s.slots|)
  {
  }

  lemma EndNearer<K, V>(le: (K, K) -> bool, s: State<K, V>, s': State<K, V>, t: Tid, act: Action<K, V>)
    requires Step(le, s, s', t, act) && !s.pcs[t].Idle? && Counted(s.pcs[t], |s.slots|)
    requires var pc := s.pcs[t]; pc.Republish? || pc.Vacate? || pc.Subtract? || pc.Peeked? || pc.Sweep?
    ensures t < |s'.pcs| && |s'.slots| == |s.slots| && Nearer(s.pcs[t], s'.pcs[t], |s.slots|)
  {
  }

  /** Every step of a thread's own brings it nearer to its return. */
  lemma OwnStep<K, V>(le: (K, K) -> bool, s: State<K, V>, s': State<K, V>, t: Tid, act: Action<K, V>)
    requires Step(le, s, s', t, act) && !s.pcs[t].Idle? && Counted(s.pcs[t], |s.slots|)
    ensures t < |s'.pcs| && |s'.slots| == |s.slots| && Nearer(s.pcs[t], s'.pcs[t], |s.slots|)
  {
    var pc := s.pcs[t];
    if pc.Start? {
      StartNearer(le, s, s', t, act);
    } else if pc.Find? {
      FindNearer(le, s, s', t, act);
    } else if pc.Seek? || pc.Compare? || pc.Write? || pc.Publish? || pc.Add? {
      SeekNearer(le, s, s', t, act);
    } else if pc.Scan? {
      ScanNextNearer(le, s, s', t, act);
    } else if pc.Verify? || pc.Reload? || pc.Copy? {
      ScanNearer(le, s, s', t, act);
    } else if pc.Republish? || pc.Vacate? || pc.Subtract? || pc.Peeked? || pc.Sweep? {
      EndNearer(le, s, s', t, act);
    } else if pc.job.Update? {
      UpdateNearer(le, s, s', t, act);
    } else if pc.job.Remove? {
      RemoveNearer(le, s, s', t, act);
    } else {
      WipeNearer(le, s, s', t, act);
    }
  }

  lemma OthersStay<K, V>(le: (K, K) -> bool, s: State<K, V>, s': State<K, V>, u: Tid, act: Action<K, V>, t: Tid)
    requires Step(le, s, s', u, act) && t < |s.pcs|
    ensures |s'.pcs| == |s.pcs| && |s'.slots| == |s.slots|
    ensures t != u ==> s'.pcs[t] == s.pcs[t]
  {
  }

  /** How many of the steps from `i` up to `j` thread `t` takes. */
  function StepsOf<K, V>(steps: seq<(Tid, Action<K, V>)>, i: nat, j: nat, t: Tid): nat
    requires i <= j <= |steps|
    decreases j
  {
    if i == j then 0 else StepsOf(steps, i, j - 1, t) + if steps[j - 1].0 == t then 1 else 0
  }

  /** How many steps an operation takes at most after its call, with `n` slots. */
  function Bound<K, V>(op: Op<K, V>, n: nat): nat {
    match op
    case Insert(_, _) => n * (6 * n + 20) + 1
    case First => 15 * (6 * n + 20) + 4 * n + 12
    case PopFirst => 15 * (6 * n + 20) + 4 * n + 12
    case Clear => 8 * n + 1
  }

  /** Thread `t` has not returned since its call, and has used up its bound step by step. */
  ghost predicate Underway<K, V>(s: State<K, V>, t: Tid, n: nat, left: int) {
    && |s.slots| == n && t < |s.pcs| && !s.pcs[t].Idle?
    && Counted(s.pcs[t], n) && 0 < Left(s.pcs[t], n) <= left
  }

  lemma CallStarts<K, V>(le: (K, K) -> bool, s: State<K, V>, s': State<K, V>, t: Tid, op: Op<K, V>)
    requires Step(le, s, s', t, Invoke(op)) && s.pcs[t].Idle?
    ensures Underway(s', t, |s.slots|, Bound(op, |s.slots|))
  {
    NextRounds(|s.slots|, |s.slots|);
    NextRounds(15, |s.slots|);
  }

  lemma UnderwayStep<K, V>(le: (K, K) -> bool, s: State<K, V>, s': State<K, V>, u: Tid, act: Action<K, V>,
                           t: Tid, n: nat, left: int)
    requires Step(le, s, s', u, act) && Underway(s, t, n, left)
    ensures t < |s'.pcs|
    ensures !s'.pcs[t].Idle? ==> Underway(s', t, n, left - if u == t then 1 else 0)
  {
    if u == t {
      OwnStep(le, s, s', t, act);
    } else {
      OthersStay(le, s, s', u, act, t);
    }
  }

  /** Thread `t` is idle at some point after `i`, up to `j`. */
  ghost predicate Returns<K, V>(states: seq<State<K, V>>, i: nat, j: nat, t: Tid) {
    exists k: nat :: i < k <= j && k < |states| && t < |states[k].pcs| && states[k].pcs[t].Idle?
  }

  lemma {:induction false} BoundUsedUp<K, V>(le: (K, K) -> bool, states: seq<State<K, V>>,
                                             steps: seq<(Tid, Action<K, V>)>, i: nat, j: nat, t: Tid, n: nat, left: int)
    requires Run(le, states, steps) && i < j <= |steps| && Underway(states[i + 1], t, n, left)
    ensures Returns(states, i, j, t) || Underway(states[j], t, n, left - StepsOf(steps, i + 1, j, t))
    decreases j
  {
    if j == i + 1 {
    } else {
      BoundUsedUp(le, states, steps, i, j - 1, t, n, left);
      if Returns(states, i, j - 1, t) {
        var k: nat :| i < k <= j - 1 && k < |states| && t < |states[k].pcs| && states[k].pcs[t].Idle?;
        assert i < k <= j;
      } else {
        assert StepAt(le, states, steps, j - 1);
        UnderwayStep(le, states[j - 1], states[j], steps[j - 1].0, steps[j - 1].1, t, n,
                     left - StepsOf(steps, i + 1, j - 1, t));
        assert states[j].pcs[t].Idle? ==> Returns(states, i, j, t);
      }
    }
  }

  /** BOUNDED: an operation has returned by the time its thread has taken that many steps after
      the call, whatever other threads do in between. */
  lemma EveryOperationEnds<K, V>(le: (K, K) -> bool, states: seq<State<K, V>>, steps: seq<(Tid, Action<K, V>)>,
                                 i: nat, j: nat, t: Tid, op: Op<K, V>)
    requires Run(le, states, steps) && i < j <= |steps| && steps[i] == (t, Invoke(op))
    requires t < |states[i].pcs| && states[i].pcs[t].Idle?
    requires StepsOf(steps, i + 1, j, t) >= Bound(op, |states[i].slots|)
    ensures Returns(states, i, j, t)
  {
    assert StepAt(le, states, steps, i);
    CallStarts(le, states[i], states[i + 1], t, op);
    BoundUsedUp(le, states, steps, i, j, t, |states[i].slots|, Bound(op, |states[i].slots|));
  }

  /** The round that a thread is in. */
  function RoundOf<K, V>(pc: Pc<K, V>): Option<nat> {
    match pc
    case Seek(_, retry, _) => Some(retry)
    case Compare(_, retry, _, _) => Some(retry)
    case Find(_, retry, _) => Some(retry)
    case Lock(job, _) => RoundOfJob(job)
    case TryLock(job, _, _) => RoundOfJob(job)
    case Check(job, _, _) => RoundOfJob(job)
    case Restore(job, _, _) => RoundOfJob(job)
    case Scan(_, retry, _, _) => Some(retry)
    case Verify(_, retry, _, _, _) => Some(retry)
    case Reload(_, retry, _, _, _) => Some(retry)
    case Copy(_, retry, _, _, _) => Some(retry)
    case _ => None
  }

  function RoundOfJob<K, V>(job: Job<K, V>): Option<nat> {
    match job
    case Update(_, retry, _) => Some(retry)
    case Remove(_, retry) => Some(retry)
    case Wipe(_) => None
  }

  /** A step into this place begins a search of all slots. */
  predicate BeginsRound<K, V>(pc: Pc<K, V>) { (pc.Scan? || pc.Seek?) && pc.i == 0 }

  /** How many searches thread `t` begins between the points `i` and `j`. */
  function Searches<K, V>(states: seq<State<K, V>>, steps: seq<(Tid, Action<K, V>)>, i: nat, j: nat, t: Tid): nat
    requires i <= j <= |steps| < |states|
    decreases j
  {
    if i == j then 0
    else
      Searches(states, steps, i, j - 1, t)
        + if steps[j - 1].0 == t && t < |states[j].pcs| && BeginsRound(states[j].pcs[t]) then 1 else 0
  }

  lemma RoundStep<K, V>(le: (K, K) -> bool, s: State<K, V>, s': State<K, V>, t: Tid, act: Action<K, V>)
    requires Step(le, s, s', t, act)
    ensures t < |s'.pcs|
    ensures RoundOf(s'.pcs[t]).Some? && !BeginsRound(s'.pcs[t]) ==> RoundOf(s'.pcs[t]) == RoundOf(s.pcs[t])
    ensures BeginsRound(s'.pcs[t]) ==>
              RoundOf(s'.pcs[t]) == Some(if RoundOf(s.pcs[t]).Some? then RoundOf(s.pcs[t]).value + 1 else 0)
    ensures BeginsRound(s'.pcs[t]) && RoundOf(s.pcs[t]).None? ==> s.pcs[t].Idle? || s.pcs[t].Start?
  {
  }

  /** At every place of an operation its round is the number of searches since the call, less one,
      and it has begun none before it is in a round. */
  ghost predicate RoundCounts<K, V>(s: State<K, V>, t: Tid, searches: nat) {
    && t < |s.pcs|
    && (RoundOf(s.pcs[t]).Some? ==> searches == RoundOf(s.pcs[t]).value + 1)
    && (s.pcs[t].Start? ==> searches == 0)
  }

  lemma {:induction false} RoundsCounted<K, V>(le: (K, K) -> bool, states: seq<State<K, V>>,
                                               steps: seq<(Tid, Action<K, V>)>, i: nat, j: nat, t: Tid)
    requires Run(le, states, steps) && i < j <= |steps| && steps[i].0 == t
    requires t < |states[i].pcs| && states[i].pcs[t].Idle? && !Returns(states, i, j, t)
    ensures RoundCounts(states[j], t, Searches(states, steps, i, j, t))
    ensures t < |states[j].pcs| && !states[j].pcs[t].Idle? && Counted(states[j].pcs[t], |states[j].slots|)
    decreases j
  {
    assert StepAt(le, states, steps, j - 1);
    if j == i + 1 {
      RoundStep(le, states[i], states[j], t, steps[i].1);
      assert Searches(states, steps, i, i, t) == 0;
    } else {
      assert forall k: nat :: i < k <= j - 1 && k < |states| && t < |states[k].pcs| ==> !states[k].pcs[t].Idle?;
      RoundsCounted(le, states, steps, i, j - 1, t);
      if steps[j - 1].0 == t {
        RoundStep(le, states[j - 1], states[j], t, steps[j - 1].1);
        OwnStep(le, states[j - 1], states[j], t, steps[j - 1].1);
      } else {
        OthersStay(le, states[j - 1], states[j], steps[j - 1].0, steps[j - 1].1, t);
      }
    }
  }

  /** LAST ROUNDS: a pop that gives up although it had a candidate has searched the slots sixteen
      times since its call, and an insertion that gives up on a map with slots has done so once
      for every slot. */
  lemma GivesUpLast<K, V>(le: (K, K) -> bool, states: seq<State<K, V>>, steps: seq<(Tid, Action<K, V>)>,
                          i: nat, j: nat, t: Tid)
    requires Run(le, states, steps) && i < j < |steps| && steps[i].0 == t && steps[j].0 == t
    requires t < |states[i].pcs| && states[i].pcs[t].Idle? && !Returns(states, i, j, t)
    requires t < |states[j].pcs| && t < |states[j + 1].pcs| && states[j + 1].pcs[t].Idle?
    ensures var pc := states[j].pcs[t];
            && ((pc.Lock? || pc.TryLock? || pc.Restore?) ==> Searches(states, steps, i, j, t) == 16)
            && (pc.Find? ==> Searches(states, steps, i, j, t) == |states[j].slots|)
  {
    RoundsCounted(le, states, steps, i, j, t);
    assert StepAt(le, states, steps, j);
    LastStep(le, states[j], states[j + 1], t, steps[j].1);
  }

  lemma LastStep<K, V>(le: (K, K) -> bool, s: State<K, V>, s': State<K, V>, t: Tid, act: Action<K, V>)
    requires Step(le, s, s', t, act) && Counted(s.pcs[t], |s.slots|) && t < |s'.pcs| && s'.pcs[t].Idle?
    ensures s.pcs[t].Lock? || s.pcs[t].TryLock? || s.pcs[t].Restore? ==> RoundOf(s.pcs[t]) == Some(15)
    ensures s.pcs[t].Find? ==> s.pcs[t].retry + 1 == |s.slots|
  {
  }
}
