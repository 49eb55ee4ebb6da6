/** What a pop returns is least among all entries that were there throughout. */
module MapMinimality {
  import opened Wrappers
  import opened Ordering
  import opened MapMachine
  import opened MapConservation
  import opened MapEffects

  /** For each thread the slots whose word has been valid and unchanged ever since the
      thread began its current scan. */
  type Stable = seq<set<nat>>

  function ValidSlots<K, V>(slots: seq<Slot<K, V>>): set<nat> {
    set i: nat | i < |slots| && slots[i].word.state == VALID
  }

  /** A step into this place begins a scan. */
  predicate Begins<K, V>(pc: Pc<K, V>) { pc.Scan? && pc.i == 0 }

  function NextStable<K, V>(s: State<K, V>, s': State<K, V>, t: Tid, stable: Stable): Stable {
    seq(|s'.pcs|, u requires 0 <= u < |s'.pcs| =>
      if u == t && Begins(s'.pcs[u]) then ValidSlots(s'.slots)
      else if u >= |stable| then {}
      else set i | i in stable[u] && i < |s.slots| && i < |s'.slots| && s'.slots[i].word == s.slots[i].word)
  }

  /** Some candidate carries this key. */
  ghost predicate Has<K, V>(cs: seq<Candidate<K, V>>, key: K) {
    exists k :: 0 <= k < |cs| && cs[k].key == key
  }

  ghost predicate StableSlot<K, V>(slots: seq<Slot<K, V>>, j: nat) {
    j < |slots| && slots[j].word.state == VALID && slots[j].entry.Some?
  }

  /** The scan has the keys of the stable slots below `i` among its candidates. */
  ghost predicate Covers<K, V>(slots: seq<Slot<K, V>>, stable: set<nat>, cs: seq<Candidate<K, V>>, i: nat)
  {
    forall j :: j in stable && j < i ==> StableSlot(slots, j) && Has(cs, slots[j].entry.value.key)
  }

  /** The key is least among those of the stable slots. */
  ghost predicate LeastOf<K, V>(le: (K, K) -> bool, slots: seq<Slot<K, V>>, stable: set<nat>, key: K)
  {
    forall j :: j in stable ==> StableSlot(slots, j) && le(key, slots[j].entry.value.key)
  }

  ghost predicate PcInv<K, V>(le: (K, K) -> bool, slots: seq<Slot<K, V>>, stable: set<nat>, pc: Pc<K, V>) {
    && (forall j :: j in stable ==> StableSlot(slots, j))
    && match pc
       case Scan(_, _, cs, i) => Covers(slots, stable, cs, i)
       case Verify(_, _, cs, i, seen) =>
         Covers(slots, stable, cs, i) && (i in stable ==> slots[i].word == Word(VALID, seen))
       case Reload(_, _, cs, i, seen) =>
         Covers(slots, stable, cs, i) && (i in stable ==> slots[i].word == Word(VALID, seen))
       case Copy(_, _, cs, i, seen) =>
         Covers(slots, stable, cs, i) && (i in stable ==> slots[i].word == Word(VALID, seen))
       case Lock(job, _) => job.Remove? ==> LeastOf(le, slots, stable, job.cand.key)
       case TryLock(job, _, _) => job.Remove? ==> LeastOf(le, slots, stable, job.cand.key)
       case Check(job, _, _) => job.Remove? ==> LeastOf(le, slots, stable, job.cand.key)
       case Peeked(c) => LeastOf(le, slots, stable, c.key)
       case _ => true
  }

  ghost predicate MinInv<K, V>(le: (K, K) -> bool, s: State<K, V>, stable: Stable) {
    |stable| == |s.pcs| && forall u :: 0 <= u < |s.pcs| ==> PcInv(le, s.slots, stable[u], s.pcs[u])
  }

  /** A slot whose word is valid before and after a step keeps its entry. */
  lemma EntryStays<K, V>(le: (K, K) -> bool, s: State<K, V>, s': State<K, V>, t: Tid, act: Action<K, V>,
                         log: Log<K, V>, j: nat)
    requires Inv(s, log) && Step(le, s, s', t, act) && j < |s.slots| == |s'.slots|
    requires s.slots[j].word.state == VALID && s'.slots[j].word == s.slots[j].word
    ensures s'.slots[j] == s.slots[j]
  {
    Effects(le, s, s', t, act, log);
  }

  /** The invariant of a thread survives what is no longer stable being dropped. */
  lemma Weaken<K, V>(le: (K, K) -> bool, slots: seq<Slot<K, V>>, slots': seq<Slot<K, V>>,
                     stable: set<nat>, stable': set<nat>, pc: Pc<K, V>)
    requires PcInv(le, slots, stable, pc) && stable' <= stable && |slots'| == |slots|
    requires forall j :: j in stable' && j < |slots| ==> slots'[j] == slots[j]
    ensures PcInv(le, slots', stable', pc)
  {
    forall j | j in stable' ensures StableSlot(slots', j) {
      assert StableSlot(slots, j);
    }
  }

  lemma {:induction false} LeastCovers<K(!new), V>(le: (K, K) -> bool, slots: seq<Slot<K, V>>, stable: set<nat>,
                                                   cs: seq<Candidate<K, V>>, i: nat)
    requires TotalOrder(le) && cs != [] && i >= |slots|
    requires forall j :: j in stable ==> StableSlot(slots, j)
    requires Covers(slots, stable, cs, i)
    ensures LeastOf(le, slots, stable, cs[MinIndex(le, cs)].key)
  {
    forall j | j in stable ensures StableSlot(slots, j) && le(cs[MinIndex(le, cs)].key, slots[j].entry.value.key) {
      assert StableSlot(slots, j);
      var k :| 0 <= k < |cs| && cs[k].key == slots[j].entry.value.key;
      MinIndexLeast(le, cs, k);
    }
  }

  /** The scanning thread's own steps. */
  lemma ScanOwn<K(!new), V>(le: (K, K) -> bool, s: State<K, V>, s': State<K, V>, t: Tid, act: Action<K, V>,
                            log: Log<K, V>, stable: set<nat>)
    requires TotalOrder(le) && Inv(s, log) && t < |s.pcs| == |s'.pcs| && ScanStep(le, s, s', t, act)
    requires PcInv(le, s.slots, stable, s.pcs[t])
    ensures s'.slots == s.slots && PcInv(le, s.slots, stable, s'.pcs[t])
  {
    match s.pcs[t]
    case Scan(_, _, cs, i) =>
      if i >= |s.slots| && cs != [] {
        LeastCovers(le, s.slots, stable, cs, i);
      }
    case Verify(_, _, _, i, _) => assert SlotInv(s.slots[i], i, log);
    case Reload(_, _, _, i, _) => assert SlotInv(s.slots[i], i, log);
    case Copy(_, _, cs, i, _) =>
      assert SlotInv(s.slots[i], i, log);
      var cs' := s'.pcs[t].cands;
      forall j | j in stable && j < i + 1 ensures Has(cs', s.slots[j].entry.value.key) {
        if j == i {
          assert cs'[|cs|].key == s.slots[j].entry.value.key;
        } else {
          var k :| 0 <= k < |cs| && cs[k].key == s.slots[j].entry.value.key;
          assert cs'[k].key == s.slots[j].entry.value.key;
        }
      }
  }

  /** The other steps of a thread carry its least key along, or begin a new scan. */
  lemma OtherOwn<K, V>(le: (K, K) -> bool, s: State<K, V>, s': State<K, V>, t: Tid, act: Action<K, V>,
                       slots: seq<Slot<K, V>>, stable: set<nat>)
    requires Step(le, s, s', t, act) && t < |s'.pcs| && PcInv(le, slots, stable, s.pcs[t])
    requires var pc := s.pcs[t]; !(pc.Scan? || pc.Verify? || pc.Reload? || pc.Copy?)
    ensures Begins(s'.pcs[t]) || PcInv(le, slots, stable, s'.pcs[t])
  {
  }

  /** Every step keeps the invariant. */
  lemma MinKeeps<K(!new), V>(le: (K, K) -> bool, s: State<K, V>, s': State<K, V>, t: Tid, act: Action<K, V>,
                             log: Log<K, V>, stable: Stable)
    requires TotalOrder(le) && Inv(s, log) && MinInv(le, s, stable) && Step(le, s, s', t, act)
    ensures |s'.slots| == |s.slots| && |s'.pcs| == |stable|
    ensures MinInv(le, s', NextStable(s, s', t, stable))
  {
    Effects(le, s, s', t, act, log);
    StepKeeps(le, s, s', t, act, log);
    var stable' := NextStable(s, s', t, stable);
    forall u | 0 <= u < |s'.pcs| ensures PcInv(le, s'.slots, stable'[u], s'.pcs[u]) {
      assert PcInv(le, s.slots, stable[u], s.pcs[u]);
      if u == t && Begins(s'.pcs[u]) {
        BeginCovers(le, s', Record(s, t, log), s'.pcs[u]);
      } else {
        Dropped(le, s, s', t, act, log, stable, u);
        if u == t {
          OwnMin(le, s, s', t, act, log, stable[t], stable'[t]);
        } else {
          Weaken(le, s.slots, s'.slots, stable[u], stable'[u], s.pcs[u]);
        }
      }
    }
  }

  lemma BeginCovers<K, V>(le: (K, K) -> bool, s: State<K, V>, log: Log<K, V>, pc: Pc<K, V>)
    requires Inv(s, log) && Begins(pc)
    ensures PcInv(le, s.slots, ValidSlots(s.slots), pc)
  {
    forall j | j in ValidSlots(s.slots) ensures StableSlot(s.slots, j) {
      assert SlotInv(s.slots[j], j, log);
    }
  }

  /** What stays stable has kept its whole slot. */
  lemma Dropped<K, V>(le: (K, K) -> bool, s: State<K, V>, s': State<K, V>, t: Tid, act: Action<K, V>,
                      log: Log<K, V>, stable: Stable, u: Tid)
    requires Inv(s, log) && MinInv(le, s, stable) && Step(le, s, s', t, act)
    requires |s'.slots| == |s.slots| && |s'.pcs| == |s.pcs| && u < |s.pcs| && !(u == t && Begins(s'.pcs[u]))
    ensures NextStable(s, s', t, stable)[u] <= stable[u]
    ensures forall j :: j in NextStable(s, s', t, stable)[u] && j < |s.slots| ==> s'.slots[j] == s.slots[j]
  {
    assert PcInv(le, s.slots, stable[u], s.pcs[u]);
    forall j | j in NextStable(s, s', t, stable)[u] ensures j < |s.slots| ==> s'.slots[j] == s.slots[j] {
      assert StableSlot(s.slots, j);
      EntryStays(le, s, s', t, act, log, j);
    }
  }

  lemma OwnMin<K(!new), V>(le: (K, K) -> bool, s: State<K, V>, s': State<K, V>, t: Tid, act: Action<K, V>,
                           log: Log<K, V>, stable: set<nat>, stable': set<nat>)
    requires TotalOrder(le) && Inv(s, log) && Step(le, s, s', t, act) && t < |s'.pcs| && |s'.slots| == |s.slots|
    requires PcInv(le, s.slots, stable, s.pcs[t]) && !Begins(s'.pcs[t])
    requires stable' <= stable && forall j :: j in stable' && j < |s.slots| ==> s'.slots[j] == s.slots[j]
    ensures PcInv(le, s'.slots, stable', s'.pcs[t])
  {
    var pc := s.pcs[t];
    if pc.Scan? || pc.Verify? || pc.Reload? || pc.Copy? {
      ScanOwn(le, s, s', t, act, log, stable);
      Weaken(le, s.slots, s'.slots, stable, stable', s'.pcs[t]);
    } else {
      OtherOwn(le, s, s', t, act, s.slots, stable);
      Weaken(le, s.slots, s'.slots, stable, stable', s'.pcs[t]);
    }
  }

  /** The stable slots of all threads after `k` steps of a run. */
  function StableAt<K, V>(states: seq<State<K, V>>, steps: seq<(Tid, Action<K, V>)>, k: nat): Stable
    requires k <= |steps| < |states|
  {
    if k == 0 then seq(|states[0].pcs|, _ => {})
    else NextStable(states[k - 1], states[k], steps[k - 1].0, StableAt(states, steps, k - 1))
  }

  lemma {:induction false} MinThroughout<K(!new), V>(le: (K, K) -> bool, states: seq<State<K, V>>,
                                                     steps: seq<(Tid, Action<K, V>)>, k: nat)
    requires TotalOrder(le) && Run(le, states, steps) && k <= |steps|
    ensures MinInv(le, states[k], StableAt(states, steps, k))
  {
    if k == 0 {
    } else {
      MinThroughout(le, states, steps, k - 1);
      HistoryHolds(le, states, steps, k - 1);
      HistoryStep(le, states, steps, k - 1);
      MinKeeps(le, states[k - 1], states[k], steps[k - 1].0, steps[k - 1].1,
               History(states, steps, k - 1), StableAt(states, steps, k - 1));
    }
  }

  /** A pop that passes its check answers with the key of its candidate. */
  lemma CheckedKey<K, V>(s: State<K, V>, s': State<K, V>, t: Tid, job: Job<K, V>, i: nat, locked: nat)
    requires t < |s.pcs| && s.pcs[t] == Check(job, i, locked) && CheckStep(s, s', t, job, i, locked)
    ensures t < |s'.pcs|
    ensures s'.pcs[t].Vacate? && s'.pcs[t].out.Popped? ==> job.Remove? && s'.pcs[t].out.key == job.cand.key
  {
  }

  /** In the step from `s` to `s'` thread `t` settles on a key, as a pop leaving its
      check under the lock or as a peek. */
  ghost predicate SettlesOn<K, V>(s: State<K, V>, s': State<K, V>, t: Tid, key: K) {
    && t < |s.pcs| && t < |s'.pcs|
    && (|| (s.pcs[t].Check? && s'.pcs[t].Vacate? && s'.pcs[t].out.Popped? && s'.pcs[t].out.key == key)
        || (s.pcs[t].Peeked? && s.pcs[t].cand.key == key))
  }

  lemma SettledIsLeast<K, V>(le: (K, K) -> bool, s: State<K, V>, s': State<K, V>, t: Tid, act: Action<K, V>,
                             stable: set<nat>, key: K)
    requires Step(le, s, s', t, act) && PcInv(le, s.slots, stable, s.pcs[t]) && SettlesOn(s, s', t, key)
    ensures LeastOf(le, s.slots, stable, key)
  {
    if s.pcs[t].Check? {
      CheckedKey(s, s', t, s.pcs[t].job, s.pcs[t].i, s.pcs[t].locked);
    }
  }

  /** MINIMALITY: the key a pop leaves its check with is at most the key of every entry
      whose slot has stayed valid with the same version since the scan began, whatever
      other threads did meanwhile; and so for a peek. */
  lemma PopIsLeast<K(!new), V>(le: (K, K) -> bool, states: seq<State<K, V>>, steps: seq<(Tid, Action<K, V>)>, k: nat,
                     key: K)
    requires TotalOrder(le) && Run(le, states, steps) && k < |steps|
    requires SettlesOn(states[k], states[k + 1], steps[k].0, key)
    ensures steps[k].0 < |StableAt(states, steps, k)|
    ensures LeastOf(le, states[k].slots, StableAt(states, steps, k)[steps[k].0], key)
  {
    var s, t, stable := states[k], steps[k].0, StableAt(states, steps, k);
    MinThroughout(le, states, steps, k);
    assert PcInv(le, s.slots, stable[t], s.pcs[t]);
    assert StepAt(le, states, steps, k);
    SettledIsLeast(le, s, states[k + 1], t, steps[k].1, stable[t], key);
  }

  /** Slot `j` shows a valid word in state `b` and the same word in all states up to `k`. */
  ghost predicate Throughout<K, V>(states: seq<State<K, V>>, b: nat, k: nat, j: nat) {
    && b <= k < |states|
    && j < |states[b].slots| && states[b].slots[j].word.state == VALID
    && forall m {:trigger states[m]} :: b <= m <= k ==>
         j < |states[m].slots| && states[m].slots[j].word == states[b].slots[j].word
  }

  /** Thread `t` began a scan with the step into state `b` and none since, up to state `k`. */
  ghost predicate ScanBegan<K, V>(states: seq<State<K, V>>, steps: seq<(Tid, Action<K, V>)>, t: Tid, b: nat, k: nat) {
    && 0 < b <= k <= |steps| && |states| == |steps| + 1
    && (forall m {:trigger states[m]} :: b <= m <= k ==> t < |states[m].pcs|)
    && steps[b - 1].0 == t && Begins(states[b].pcs[t])
    && forall m {:trigger states[m]} :: b < m <= k && steps[m - 1].0 == t ==> !Begins(states[m].pcs[t])
  }

  lemma {:induction false} ThroughoutIsStable<K, V>(states: seq<State<K, V>>, steps: seq<(Tid, Action<K, V>)>,
                                                    t: Tid, b: nat, k: nat, j: nat)
    requires k <= |steps| < |states| && ScanBegan(states, steps, t, b, k) && Throughout(states, b, k, j)
    ensures |StableAt(states, steps, k)| == |states[k].pcs|
    ensures j in StableAt(states, steps, k)[t]
  {
    assert states[k].slots[j].word == states[b].slots[j].word;
    if k == b {
    } else {
      ThroughoutIsStable(states, steps, t, b, k - 1, j);
      assert states[k - 1].slots[j].word == states[b].slots[j].word;
    }
  }

  /** The candidate that a scan has ended with, until the thread is done with it. */
  function CandOf<K, V>(pc: Pc<K, V>): Option<Candidate<K, V>> {
    match pc
    case Lock(job, _) => if job.Remove? then Some(job.cand) else None
    case TryLock(job, _, _) => if job.Remove? then Some(job.cand) else None
    case Check(job, _, _) => if job.Remove? then Some(job.cand) else None
    case Peeked(c) => Some(c)
    case _ => None
  }

  predicate Scanning<K, V>(pc: Pc<K, V>) {
    pc.Scan? || pc.Verify? || pc.Reload? || pc.Copy? || CandOf(pc).Some?
  }

  /** Thread `t` has one candidate in hand from state `l` up to state `k`. */
  ghost predicate HeldFrom<K, V>(states: seq<State<K, V>>, t: Tid, l: nat, k: nat) {
    && l <= k < |states|
    && forall m {:trigger states[m]} :: l <= m <= k ==>
         && t < |states[m].pcs| && t < |states[k].pcs|
         && CandOf(states[m].pcs[t]).Some? && CandOf(states[m].pcs[t]) == CandOf(states[k].pcs[t])
  }

  /** The candidate of state `k` was chosen with the step into state `l`, which ended a scan. */
  ghost predicate ChosenAt<K, V>(states: seq<State<K, V>>, steps: seq<(Tid, Action<K, V>)>, t: Tid, l: nat, k: nat) {
    && HeldFrom(states, t, l, k) && 0 < l <= |steps| && steps[l - 1].0 == t
    && t < |states[l - 1].pcs| && states[l - 1].pcs[t].Scan?
  }

  /** The delete lock of the check in state `k` was taken with the step into state `l + 1`. */
  ghost predicate LockedAt<K, V>(states: seq<State<K, V>>, steps: seq<(Tid, Action<K, V>)>, t: Tid, l: nat, k: nat) {
    && HeldFrom(states, t, l, k) && l < k && l < |steps| && steps[l].0 == t && states[l].pcs[t].TryLock?
    && forall m {:trigger states[m]} :: l < m <= k ==> states[m].pcs[t].Check?
  }

  lemma StepScans<K, V>(le: (K, K) -> bool, s: State<K, V>, s': State<K, V>, t: Tid, act: Action<K, V>)
    requires Step(le, s, s', t, act) && t < |s'.pcs|
    ensures CandOf(s'.pcs[t]).Some? ==> s.pcs[t].Scan? || CandOf(s.pcs[t]) == CandOf(s'.pcs[t])
    ensures Scanning(s'.pcs[t]) ==> Begins(s'.pcs[t]) || Scanning(s.pcs[t])
    ensures s'.pcs[t].Check? ==> s.pcs[t].TryLock?
  {
  }

  /** Every candidate was chosen at the end of a scan. */
  lemma {:induction false} WasChosen<K, V>(le: (K, K) -> bool, states: seq<State<K, V>>,
                                           steps: seq<(Tid, Action<K, V>)>, k: nat, t: Tid) returns (l: nat)
    requires Run(le, states, steps) && k <= |steps| && t < |states[k].pcs| && CandOf(states[k].pcs[t]).Some?
    ensures ChosenAt(states, steps, t, l, k)
  {
    if k == 0 {
    } else {
      OneThreadSteps(le, states, steps, k - 1);
      if steps[k - 1].0 == t {
        assert StepAt(le, states, steps, k - 1);
        StepScans(le, states[k - 1], states[k], t, steps[k - 1].1);
      }
      if steps[k - 1].0 == t && states[k - 1].pcs[t].Scan? {
        l := k;
      } else {
        l := WasChosen(le, states, steps, k - 1, t);
      }
    }
  }

  lemma ScanGoesOn<K, V>(states: seq<State<K, V>>, steps: seq<(Tid, Action<K, V>)>, t: Tid, b: nat, k: nat)
    requires ScanBegan(states, steps, t, b, k) && k < |steps| && t < |states[k + 1].pcs|
    requires !(steps[k].0 == t && Begins(states[k + 1].pcs[t]))
    ensures ScanBegan(states, steps, t, b, k + 1)
  {
  }

  /** Every scan began somewhere. */
  lemma {:induction false} HasBegun<K, V>(le: (K, K) -> bool, states: seq<State<K, V>>,
                                          steps: seq<(Tid, Action<K, V>)>, k: nat, t: Tid) returns (b: nat)
    requires Run(le, states, steps) && k <= |steps| && t < |states[k].pcs| && Scanning(states[k].pcs[t])
    ensures ScanBegan(states, steps, t, b, k)
  {
    if k == 0 {
    } else {
      OneThreadSteps(le, states, steps, k - 1);
      if steps[k - 1].0 == t {
        assert StepAt(le, states, steps, k - 1);
        StepScans(le, states[k - 1], states[k], t, steps[k - 1].1);
      }
      if steps[k - 1].0 == t && Begins(states[k].pcs[t]) {
        b := k;
      } else {
        b := HasBegun(le, states, steps, k - 1, t);
        ScanGoesOn(states, steps, t, b, k - 1);
      }
    }
  }

  /** The delete lock of every check was taken somewhere. */
  lemma {:induction false} WasLocked<K, V>(le: (K, K) -> bool, states: seq<State<K, V>>,
                                           steps: seq<(Tid, Action<K, V>)>, k: nat, t: Tid) returns (l: nat)
    requires Run(le, states, steps) && k <= |steps| && t < |states[k].pcs|
    requires states[k].pcs[t].Check? && CandOf(states[k].pcs[t]).Some?
    ensures LockedAt(states, steps, t, l, k)
  {
    if k == 0 {
    } else {
      OneThreadSteps(le, states, steps, k - 1);
      if steps[k - 1].0 == t {
        assert StepAt(le, states, steps, k - 1);
        StepScans(le, states[k - 1], states[k], t, steps[k - 1].1);
        l := k - 1;
      } else {
        l := WasLocked(le, states, steps, k - 1, t);
      }
    }
  }

  lemma OneThreadSteps<K, V>(le: (K, K) -> bool, states: seq<State<K, V>>, steps: seq<(Tid, Action<K, V>)>, k: nat)
    requires Run(le, states, steps) && k < |steps|
    ensures Step(le, states[k], states[k + 1], steps[k].0, steps[k].1)
    ensures |states[k + 1].pcs| == |states[k].pcs|
    ensures forall u :: 0 <= u < |states[k].pcs| && u != steps[k].0 ==> states[k + 1].pcs[u] == states[k].pcs[u]
  {
    HistoryHolds(le, states, steps, k);
    HistoryStep(le, states, steps, k);
    Effects(le, states[k], states[k + 1], steps[k].0, steps[k].1, History(states, steps, k));
  }

  /** A candidate chosen after the last scan began keeps that scan. */
  lemma ScanBefore<K, V>(states: seq<State<K, V>>, steps: seq<(Tid, Action<K, V>)>, t: Tid, b: nat, l: nat, k: nat)
    requires ScanBegan(states, steps, t, b, k) && HeldFrom(states, t, l, k)
    ensures b <= l && ScanBegan(states, steps, t, b, l)
  {
  }

  /** MINIMALITY: whatever other threads did, the key a pop or a peek settles on is at most
      that of every entry whose slot was valid, with one version, from the start of the
      winning scan to any point `l` at which the candidate was already in hand: to the choice,
      to the delete lock, or to the check under it. */
  lemma LeastSince<K(!new), V>(le: (K, K) -> bool, states: seq<State<K, V>>, steps: seq<(Tid, Action<K, V>)>,
                               b: nat, l: nat, k: nat, key: K, j: nat)
    requires TotalOrder(le) && Run(le, states, steps) && k < |steps|
    requires SettlesOn(states[k], states[k + 1], steps[k].0, key)
    requires ScanBegan(states, steps, steps[k].0, b, k) && HeldFrom(states, steps[k].0, l, k)
    requires Throughout(states, b, l, j)
    ensures states[l].slots[j].entry.Some? && le(key, states[l].slots[j].entry.value.key)
  {
    var t := steps[k].0;
    ScanBefore(states, steps, t, b, l, k);
    MinThroughout(le, states, steps, l);
    ThroughoutIsStable(states, steps, t, b, l, j);
    var stable := StableAt(states, steps, l)[t];
    assert PcInv(le, states[l].slots, stable, states[l].pcs[t]);
    assert CandOf(states[l].pcs[t]) == CandOf(states[k].pcs[t]);
    SettledKey(le, states, steps, k, key);
    assert LeastOf(le, states[l].slots, stable, key);
  }

  lemma SettledKey<K, V>(le: (K, K) -> bool, states: seq<State<K, V>>, steps: seq<(Tid, Action<K, V>)>, k: nat, key: K)
    requires Run(le, states, steps) && k < |steps| && SettlesOn(states[k], states[k + 1], steps[k].0, key)
    requires CandOf(states[k].pcs[steps[k].0]).Some?
    ensures CandOf(states[k].pcs[steps[k].0]).value.key == key
  {
    var s, t := states[k], steps[k].0;
    assert StepAt(le, states, steps, k);
    if s.pcs[t].Check? {
      CheckedKey(s, states[k + 1], t, s.pcs[t].job, s.pcs[t].i, s.pcs[t].locked);
    }
  }

  /** What a pop or a peek settles on is a candidate, chosen at the end of a scan. */
  lemma SettlesOnCandidate<K, V>(le: (K, K) -> bool, states: seq<State<K, V>>, steps: seq<(Tid, Action<K, V>)>,
                                 k: nat, key: K)
    requires Run(le, states, steps) && k < |steps| && SettlesOn(states[k], states[k + 1], steps[k].0, key)
    ensures CandOf(states[k].pcs[steps[k].0]).Some?
  {
    var s, t := states[k], steps[k].0;
    assert StepAt(le, states, steps, k);
    if s.pcs[t].Check? {
      CheckedKey(s, states[k + 1], t, s.pcs[t].job, s.pcs[t].i, s.pcs[t].locked);
    }
  }

  /** Every pop and every peek has its winning scan and the choice that ended it, and is
      least among the entries that stayed valid, with one version, between those two. */
  lemma PopIsLeastOfScan<K(!new), V>(le: (K, K) -> bool, states: seq<State<K, V>>, steps: seq<(Tid, Action<K, V>)>,
                                     k: nat, key: K) returns (b: nat, l: nat)
    requires TotalOrder(le) && Run(le, states, steps) && k < |steps|
    requires SettlesOn(states[k], states[k + 1], steps[k].0, key)
    ensures ScanBegan(states, steps, steps[k].0, b, k) && ChosenAt(states, steps, steps[k].0, l, k) && b <= l
    ensures forall j: nat :: Throughout(states, b, l, j) ==>
              states[l].slots[j].entry.Some? && le(key, states[l].slots[j].entry.value.key)
  {
    SettlesOnCandidate(le, states, steps, k, key);
    b := HasBegun(le, states, steps, k, steps[k].0);
    l := WasChosen(le, states, steps, k, steps[k].0);
    ScanBefore(states, steps, steps[k].0, b, l, k);
    forall j: nat | Throughout(states, b, l, j)
      ensures states[l].slots[j].entry.Some? && le(key, states[l].slots[j].entry.value.key)
    {
      LeastSince(le, states, steps, b, l, k, key, j);
    }
  }

  /** Every pop has taken a delete lock, and is least among the entries that stayed valid,
      with one version, from the start of its winning scan to that lock. */
  lemma PopIsLeastAtLock<K(!new), V>(le: (K, K) -> bool, states: seq<State<K, V>>, steps: seq<(Tid, Action<K, V>)>,
                                     k: nat, key: K) returns (b: nat, l: nat)
    requires TotalOrder(le) && Run(le, states, steps) && k < |steps|
    requires SettlesOn(states[k], states[k + 1], steps[k].0, key) && states[k].pcs[steps[k].0].Check?
    ensures ScanBegan(states, steps, steps[k].0, b, k) && LockedAt(states, steps, steps[k].0, l, k) && b <= l
    ensures forall j: nat :: Throughout(states, b, l, j) ==>
              states[l].slots[j].entry.Some? && le(key, states[l].slots[j].entry.value.key)
  {
    SettlesOnCandidate(le, states, steps, k, key);
    b := HasBegun(le, states, steps, k, steps[k].0);
    l := WasLocked(le, states, steps, k, steps[k].0);
    ScanBefore(states, steps, steps[k].0, b, l, k);
    forall j: nat | Throughout(states, b, l, j)
      ensures states[l].slots[j].entry.Some? && le(key, states[l].slots[j].entry.value.key)
    {
      LeastSince(le, states, steps, b, l, k, key, j);
    }
  }

  /** In particular an entry that stayed so up to the check is not smaller than what is
      popped. */
  lemma PopIsLeastThroughout<K(!new), V>(le: (K, K) -> bool, states: seq<State<K, V>>,
                                         steps: seq<(Tid, Action<K, V>)>, b: nat, k: nat, key: K, j: nat)
    requires TotalOrder(le) && Run(le, states, steps) && k < |steps|
    requires SettlesOn(states[k], states[k + 1], steps[k].0, key)
    requires ScanBegan(states, steps, steps[k].0, b, k) && Throughout(states, b, k, j)
    ensures states[k].slots[j].entry.Some? && le(key, states[k].slots[j].entry.value.key)
  {
    PopIsLeast(le, states, steps, k, key);
    ThroughoutIsStable(states, steps, steps[k].0, b, k, j);
  }

  /** The scan that ends in the step from state `k` has found no candidate. */
  ghost predicate FindsNothing<K, V>(states: seq<State<K, V>>, steps: seq<(Tid, Action<K, V>)>, k: nat) {
    && k < |steps| && |states| == |steps| + 1 && steps[k].0 < |states[k].pcs| && steps[k].0 < |states[k + 1].pcs|
    && states[k].pcs[steps[k].0].Scan? && states[k + 1].pcs[steps[k].0].Idle?
  }

  /** A scan that is over and has no candidate has passed no stable slot. */
  lemma NoneCovered<K, V>(slots: seq<Slot<K, V>>, stable: set<nat>, cs: seq<Candidate<K, V>>, i: nat)
    requires Covers(slots, stable, cs, i) && cs == [] && |slots| <= i
    requires forall j :: j in stable ==> StableSlot(slots, j)
    ensures stable == {}
  {
    if j :| j in stable {
      assert false;
    }
  }

  /** EMPTY ANSWERS: when the scan of a pop or a peek finds nothing, no slot has stayed valid,
      with one version, through that scan. */
  lemma NothingThroughout<K(!new), V>(le: (K, K) -> bool, states: seq<State<K, V>>, steps: seq<(Tid, Action<K, V>)>,
                                      k: nat) returns (b: nat)
    requires TotalOrder(le) && Run(le, states, steps) && FindsNothing(states, steps, k)
    ensures ScanBegan(states, steps, steps[k].0, b, k)
    ensures forall j: nat :: !Throughout(states, b, k, j)
  {
    var t := steps[k].0;
    b := HasBegun(le, states, steps, k, t);
    MinThroughout(le, states, steps, k);
    assert StepAt(le, states, steps, k);
    assert PcInv(le, states[k].slots, StableAt(states, steps, k)[t], states[k].pcs[t]);
    NoneCovered(states[k].slots, StableAt(states, steps, k)[t], states[k].pcs[t].cands, states[k].pcs[t].i);
    forall j: nat ensures !Throughout(states, b, k, j) {
      if Throughout(states, b, k, j) {
        ThroughoutIsStable(states, steps, t, b, k, j);
        assert false;
      }
    }
  }
}
