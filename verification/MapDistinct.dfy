/** Entries with pairwise distinct keys: each is in exactly one slot, or was handed out by
    exactly one pop. */
module MapDistinct {
  import opened Wrappers
  import opened MapMachine
  import opened MapConservation
  import opened MapEffects
  import opened MapVersions
  import SlotTable

  /** The step from state `k` takes the entry with insert version `v` out of the map. */
  predicate EndsAt<K(==), V>(states: seq<State<K, V>>, steps: seq<(Tid, Action<K, V>)>, k: nat, v: nat, fate: Fate) {
    && k < |steps| < |states| && steps[k].0 < |states[k].pcs|
    && var s, t := states[k], steps[k].0;
       match s.pcs[t]
       case Vacate(out, i) => Carries(s, i, v) && fate == if out.Popped? then PoppedBy(t) else WipedBy(t)
       case Check(job, i, locked) =>
         && Carries(s, i, v) && fate == ReplacedBy(t)
         && job.Update? && Passes(job, s.slots[i].entry.value, locked)
       case _ => false
  }

  lemma FateStep<K, V>(le: (K, K) -> bool, states: seq<State<K, V>>, steps: seq<(Tid, Action<K, V>)>, k: nat, v: nat)
    requires Run(le, states, steps) && k < |steps|
    requires v in History(states, steps, k + 1).gone && v !in History(states, steps, k).gone
    ensures EndsAt(states, steps, k, v, History(states, steps, k + 1).gone[v])
  {
    var s, t, log := states[k], steps[k].0, History(states, steps, k);
    HistoryHolds(le, states, steps, k);
    HistoryStep(le, states, steps, k);
    StepKeeps(le, s, states[k + 1], t, steps[k].1, log);
    assert ThreadInv(s, log, t);
  }

  lemma FateKept<K, V>(le: (K, K) -> bool, states: seq<State<K, V>>, steps: seq<(Tid, Action<K, V>)>, k: nat, v: nat)
    requires Run(le, states, steps) && k < |steps| && v in History(states, steps, k).gone
    ensures v in History(states, steps, k + 1).gone
    ensures History(states, steps, k + 1).gone[v] == History(states, steps, k).gone[v]
  {
    HistoryHolds(le, states, steps, k);
    HistoryStep(le, states, steps, k);
    FateOnce(le, states[k], states[k + 1], steps[k].0, steps[k].1, History(states, steps, k));
  }

  /** The new fates of one step are of its making. */
  ghost predicate Explained<K, V>(states: seq<State<K, V>>, steps: seq<(Tid, Action<K, V>)>, k: nat,
                                  log: Log<K, V>, log': Log<K, V>) {
    forall v :: v in log'.gone ==>
      if v in log.gone then log'.gone[v] == log.gone[v] else EndsAt(states, steps, k, v, log'.gone[v])
  }

  lemma StepExplained<K, V>(le: (K, K) -> bool, states: seq<State<K, V>>, steps: seq<(Tid, Action<K, V>)>, k: nat)
    requires Run(le, states, steps) && k < |steps|
    ensures Explained(states, steps, k, History(states, steps, k), History(states, steps, k + 1))
  {
    var log, log' := History(states, steps, k), History(states, steps, k + 1);
    forall v | v in log'.gone
      ensures if v in log.gone then log'.gone[v] == log.gone[v] else EndsAt(states, steps, k, v, log'.gone[v])
    {
      if v in log.gone {
        FateKept(le, states, steps, k, v);
      } else {
        FateStep(le, states, steps, k, v);
      }
    }
  }

  lemma {:induction false} CauseAmong<K, V>(states: seq<State<K, V>>, steps: seq<(Tid, Action<K, V>)>,
                                            logs: seq<Log<K, V>>, k: nat, v: nat) returns (m: nat)
    requires k < |logs| && logs[0].gone == map[] && v in logs[k].gone
    requires forall i {:trigger logs[i]} :: 0 < i < |logs| ==> Explained(states, steps, i - 1, logs[i - 1], logs[i])
    ensures m < k && EndsAt(states, steps, m, v, logs[k].gone[v])
  {
    if k == 0 {
    } else {
      assert Explained(states, steps, k - 1, logs[k - 1], logs[k]);
      if v in logs[k - 1].gone {
        m := CauseAmong(states, steps, logs, k - 1, v);
      } else {
        m := k - 1;
      }
    }
  }

  /** Every fate has the step that caused it. */
  lemma FateHasCause<K, V>(le: (K, K) -> bool, states: seq<State<K, V>>, steps: seq<(Tid, Action<K, V>)>,
                           k: nat, v: nat) returns (m: nat)
    requires Run(le, states, steps) && k <= |steps| && v in History(states, steps, k).gone
    ensures m < k && EndsAt(states, steps, m, v, History(states, steps, k).gone[v])
  {
    var logs := Histories(states, steps);
    AllExplained(le, states, steps);
    assert logs[k] == History(states, steps, k);
    m := CauseAmong(states, steps, logs, k, v);
  }

  lemma AllExplained<K, V>(le: (K, K) -> bool, states: seq<State<K, V>>, steps: seq<(Tid, Action<K, V>)>)
    requires Run(le, states, steps)
    ensures var logs := Histories(states, steps);
            && logs[0].gone == map[]
            && forall i {:trigger logs[i]} :: 0 < i < |logs| ==> Explained(states, steps, i - 1, logs[i - 1], logs[i])
  {
    var logs := Histories(states, steps);
    assert logs[0] == History(states, steps, 0);
    forall i {:trigger logs[i]} | 0 < i < |logs| ensures Explained(states, steps, i - 1, logs[i - 1], logs[i]) {
      StepExplained(le, states, steps, i - 1);
    }
  }

  /** The step invokes an insertion. */
  predicate Inserts<K, V>(act: Action<K, V>) { act.Invoke? && act.op.Insert? }

  /** No two insertions of the run are invoked with the same key. */
  ghost predicate DistinctInserts<K, V>(steps: seq<(Tid, Action<K, V>)>) {
    forall m, n :: 0 <= m < n < |steps| && Inserts(steps[m].1) && Inserts(steps[n].1) ==>
      steps[m].1.op.key != steps[n].1.op.key
  }

  ghost function UsedKeys<K, V>(steps: seq<(Tid, Action<K, V>)>, k: nat): set<K>
    requires k <= |steps|
  {
    if k == 0 then {}
    else UsedKeys(steps, k - 1) + if Inserts(steps[k - 1].1) then {steps[k - 1].1.op.key} else {}
  }

  lemma {:induction false} NewKeyUnused<K, V>(steps: seq<(Tid, Action<K, V>)>, n: nat, k: nat)
    requires DistinctInserts(steps) && k <= n < |steps| && Inserts(steps[n].1)
    ensures steps[n].1.op.key !in UsedKeys(steps, k)
  {
    if k == 0 {
    } else {
      NewKeyUnused(steps, n, k - 1);
    }
  }

  /** The key of the insertion that a thread is carrying out and has not published yet. */
  function OwnKey<K, V>(pc: Pc<K, V>): Option<K> {
    if pc.Start? then Some(pc.key)
    else if Pending(pc).Some? then Some(Pending(pc).value.key)
    else None
  }

  /** All keys on their way and all keys ever published differ, and were invoked. */
  ghost predicate KeysInv<K, V>(pcs: seq<Pc<K, V>>, published: map<nat, Entry<K, V>>, used: set<K>) {
    && (forall t :: 0 <= t < |pcs| && OwnKey(pcs[t]).Some? ==> OwnKey(pcs[t]).value in used)
    && (forall v :: v in published ==> published[v].key in used)
    && (forall t, u :: 0 <= t < u < |pcs| && OwnKey(pcs[t]).Some? ==> OwnKey(pcs[t]) != OwnKey(pcs[u]))
    && (forall t, v :: 0 <= t < |pcs| && v in published ==> OwnKey(pcs[t]) != Some(published[v].key))
    && (forall v, w :: v in published && w in published && v != w ==> published[v].key != published[w].key)
  }

  /** A thread that keeps its key, or drops it, disturbs nothing. */
  lemma SameKeys<K, V>(pcs: seq<Pc<K, V>>, pcs': seq<Pc<K, V>>, published: map<nat, Entry<K, V>>, used: set<K>, t: Tid)
    requires KeysInv(pcs, published, used) && t < |pcs| == |pcs'| && pcs' == pcs[t := pcs'[t]]
    requires OwnKey(pcs'[t]) == OwnKey(pcs[t]) || OwnKey(pcs'[t]) == None
    ensures KeysInv(pcs', published, used)
  {
  }

  lemma InvokedKey<K, V>(pcs: seq<Pc<K, V>>, pcs': seq<Pc<K, V>>, published: map<nat, Entry<K, V>>, used: set<K>,
                         t: Tid, key: K)
    requires KeysInv(pcs, published, used) && t < |pcs| == |pcs'| && pcs' == pcs[t := pcs'[t]]
    requires OwnKey(pcs'[t]) == Some(key) && key !in used
    ensures KeysInv(pcs', published, used + {key})
  {
  }

  lemma PublishedKey<K, V>(pcs: seq<Pc<K, V>>, pcs': seq<Pc<K, V>>, published: map<nat, Entry<K, V>>, used: set<K>,
                           t: Tid, v: nat, e: Entry<K, V>)
    requires KeysInv(pcs, published, used) && t < |pcs| == |pcs'| && pcs' == pcs[t := pcs'[t]]
    requires OwnKey(pcs[t]) == Some(e.key) && OwnKey(pcs'[t]) == None && v !in published
    ensures KeysInv(pcs', published[v := e], used)
  {
  }

  /** With distinct keys an insertion never finds its key, so nothing is replaced. */
  lemma NothingToReplace<K, V>(s: State<K, V>, log: Log<K, V>, used: set<K>, t: Tid)
    requires Inv(s, log) && GuardInv(s, log) && KeysInv(s.pcs, log.published, used)
    requires t < |s.pcs| && s.pcs[t].Check? && s.pcs[t].job.Update?
    ensures var pc := s.pcs[t];
            pc.i < |s.slots| && s.slots[pc.i].entry.Some? && !Passes(pc.job, s.slots[pc.i].entry.value, pc.locked)
  {
    var pc := s.pcs[t];
    assert ThreadInv(s, log, t) && SeenInv(s, log, pc) && SlotInv(s.slots[pc.i], pc.i, log);
    var e := s.slots[pc.i].entry.value;
    assert e == log.published[e.insertVersion];
    assert OwnKey(pc) == Some(pc.job.ins.key);
  }

  /** What a step does to the key its thread carries. */
  lemma KeyMoves<K, V>(le: (K, K) -> bool, s: State<K, V>, s': State<K, V>, t: Tid, act: Action<K, V>)
    requires Step(le, s, s', t, act) && t < |s'.pcs| && !s'.pcs[t].Republish?
    ensures Inserts(act) ==> OwnKey(s'.pcs[t]) == Some(act.op.key) && s.pcs[t].Idle?
    ensures !Inserts(act) ==> OwnKey(s'.pcs[t]) == OwnKey(s.pcs[t]) || OwnKey(s'.pcs[t]) == None
    ensures s.pcs[t].Publish? ==> OwnKey(s'.pcs[t]) == None && OwnKey(s.pcs[t]) == Some(s.pcs[t].ins.key)
  {
  }

  lemma PublishedMoves<K, V>(le: (K, K) -> bool, s: State<K, V>, s': State<K, V>, t: Tid, act: Action<K, V>,
                             log: Log<K, V>)
    requires Inv(s, log) && Step(le, s, s', t, act) && t < |s'.pcs| && !s'.pcs[t].Republish?
    ensures RecordReady(s, t) && |s'.pcs| == |s.pcs| && s'.pcs == s.pcs[t := s'.pcs[t]]
    ensures if s.pcs[t].Publish? then
              && s.pcs[t].ins.version !in log.published
              && Record(s, t, log).published == log.published[s.pcs[t].ins.version := EntryOf(s.pcs[t].ins)]
            else Record(s, t, log).published == log.published
  {
    assert ThreadInv(s, log, t);
    assert RecordReady(s, t);
    Effects(le, s, s', t, act, log);
    if s.pcs[t].Check? {
      ReplacesOrNot(s, s', t, s.pcs[t].job, s.pcs[t].i, s.pcs[t].locked);
    }
  }

  /** A check that passes for an update goes on to republish. */
  lemma ReplacesOrNot<K, V>(s: State<K, V>, s': State<K, V>, t: Tid, job: Job<K, V>, i: nat, locked: nat)
    requires t < |s.pcs| && i < |s.slots| && s.slots[i].entry.Some? && CheckStep(s, s', t, job, i, locked)
    ensures t < |s'.pcs|
    ensures s'.pcs[t].Republish? <==> job.Update? && Passes(job, s.slots[i].entry.value, locked)
  {
  }

  lemma KeysKeep<K, V>(le: (K, K) -> bool, s: State<K, V>, s': State<K, V>, t: Tid, act: Action<K, V>,
                       log: Log<K, V>, used: set<K>)
    requires Inv(s, log) && GuardInv(s, log) && KeysInv(s.pcs, log.published, used) && Step(le, s, s', t, act)
    requires Inserts(act) ==> act.op.key !in used
    ensures RecordReady(s, t)
    ensures KeysInv(s'.pcs, Record(s, t, log).published, used + if Inserts(act) then {act.op.key} else {})
  {
    if s.pcs[t].Check? && s.pcs[t].job.Update? {
      NothingToReplace(s, log, used, t);
    }
    KeyMoves(le, s, s', t, act);
    PublishedMoves(le, s, s', t, act, log);
    if Inserts(act) {
      InvokedKey(s.pcs, s'.pcs, log.published, used, t, act.op.key);
    } else if s.pcs[t].Publish? {
      PublishedKey(s.pcs, s'.pcs, log.published, used, t, s.pcs[t].ins.version, EntryOf(s.pcs[t].ins));
    } else {
      SameKeys(s.pcs, s'.pcs, log.published, used, t);
    }
  }

  ghost predicate KeysAt<K, V>(states: seq<State<K, V>>, steps: seq<(Tid, Action<K, V>)>, k: nat)
    requires k <= |steps| < |states|
  {
    KeysInv(states[k].pcs, History(states, steps, k).published, UsedKeys(steps, k))
  }

  /** Distinct keys stay distinct through every run with fewer than 2^32 insertions. */
  lemma {:induction false} KeysThroughout<K, V>(le: (K, K) -> bool, states: seq<State<K, V>>,
                                                steps: seq<(Tid, Action<K, V>)>, k: nat)
    requires Run(le, states, steps) && DistinctInserts(steps) && k <= |steps| && states[k].nextVersion <= VERSIONS
    ensures KeysAt(states, steps, k)
  {
    if k == 0 {
    } else {
      VersionsBelow(le, states, steps, k - 1, k);
      KeysThroughout(le, states, steps, k - 1);
      KeysAfter(le, states, steps, k - 1);
    }
  }

  lemma KeysAfter<K, V>(le: (K, K) -> bool, states: seq<State<K, V>>, steps: seq<(Tid, Action<K, V>)>, k: nat)
    requires Run(le, states, steps) && DistinctInserts(steps) && k < |steps| && states[k].nextVersion <= VERSIONS
    requires KeysAt(states, steps, k)
    ensures KeysAt(states, steps, k + 1)
  {
    GuardThroughout(le, states, steps, k);
    if Inserts(steps[k].1) {
      NewKeyUnused(steps, k, k);
    }
    HistoryHolds(le, states, steps, k);
    HistoryStep(le, states, steps, k);
    KeysKeep(le, states[k], states[k + 1], steps[k].0, steps[k].1, History(states, steps, k), UsedKeys(steps, k));
  }

  /** So no entry is ever replaced. */
  lemma NeverReplaced<K, V>(le: (K, K) -> bool, states: seq<State<K, V>>, steps: seq<(Tid, Action<K, V>)>,
                            k: nat, v: nat, fate: Fate)
    requires Run(le, states, steps) && DistinctInserts(steps) && EndsAt(states, steps, k, v, fate)
    requires states[k].nextVersion <= VERSIONS
    ensures !fate.ReplacedBy?
  {
    if states[k].pcs[steps[k].0].Check? {
      KeysThroughout(le, states, steps, k);
      GuardThroughout(le, states, steps, k);
      HistoryHolds(le, states, steps, k);
      NothingToReplace(states[k], History(states, steps, k), UsedKeys(steps, k), steps[k].0);
      assert false;
    }
  }

  lemma EndsFresh<K, V>(le: (K, K) -> bool, states: seq<State<K, V>>, steps: seq<(Tid, Action<K, V>)>,
                        k: nat, v: nat, fate: Fate)
    requires Run(le, states, steps) && EndsAt(states, steps, k, v, fate)
    ensures var logs := Histories(states, steps);
            k < |steps| && v !in logs[k].gone && v in logs[k + 1].gone
  {
    var s, log := states[k], History(states, steps, k);
    HistoryHolds(le, states, steps, k);
    HistoryStep(le, states, steps, k);
    StepKeeps(le, s, states[k + 1], steps[k].0, steps[k].1, log);
    var i := s.pcs[steps[k].0].i;
    assert SlotInv(s.slots[i], i, log);
  }

  /** An entry leaves the map in one step only, whatever takes it. */
  lemma LeavesOnce<K, V>(le: (K, K) -> bool, states: seq<State<K, V>>, steps: seq<(Tid, Action<K, V>)>,
                         k: nat, m: nat, v: nat, f: Fate, g: Fate)
    requires Run(le, states, steps) && EndsAt(states, steps, k, v, f) && EndsAt(states, steps, m, v, g)
    ensures k == m && f == g
  {
    EndsFresh(le, states, steps, k, v, f);
    EndsFresh(le, states, steps, m, v, g);
    FatesAreFinal(le, states, steps);
    EndsOnce(Histories(states, steps), k, m, v);
  }

  /** Insertion `ins` is published in the step from state `m`. */
  predicate PublishesAt<K(==), V(==)>(states: seq<State<K, V>>, steps: seq<(Tid, Action<K, V>)>, m: nat,
                                      ins: Ins<K, V>) {
    && m < |steps| < |states| && steps[m].0 < |states[m].pcs|
    && states[m].pcs[steps[m].0].Publish? && states[m].pcs[steps[m].0].ins == ins
  }

  /** A step forgets no published entry. */
  ghost predicate Remembers<K, V>(log: Log<K, V>, log': Log<K, V>) {
    forall v :: v in log.published ==> v in log'.published && log'.published[v] == log.published[v]
  }

  lemma AllRemember<K, V>(le: (K, K) -> bool, states: seq<State<K, V>>, steps: seq<(Tid, Action<K, V>)>)
    requires Run(le, states, steps)
    ensures var logs := Histories(states, steps);
            forall i {:trigger logs[i]} :: 0 < i < |logs| ==> Remembers(logs[i - 1], logs[i])
  {
    var logs := Histories(states, steps);
    forall i {:trigger logs[i]} | 0 < i < |logs| ensures Remembers(logs[i - 1], logs[i]) {
      StepRemembers(le, states, steps, i - 1);
    }
  }

  lemma StepRemembers<K, V>(le: (K, K) -> bool, states: seq<State<K, V>>, steps: seq<(Tid, Action<K, V>)>, k: nat)
    requires Run(le, states, steps) && k < |steps|
    ensures var logs := Histories(states, steps); Remembers(logs[k], logs[k + 1])
  {
    HistoryHolds(le, states, steps, k);
    HistoryStep(le, states, steps, k);
    FateOnce(le, states[k], states[k + 1], steps[k].0, steps[k].1, History(states, steps, k));
  }

  lemma {:induction false} RememberedSince<K, V>(logs: seq<Log<K, V>>, m: nat, k: nat, v: nat)
    requires forall i {:trigger logs[i]} :: 0 < i < |logs| ==> Remembers(logs[i - 1], logs[i])
    requires m <= k < |logs| && v in logs[m].published
    ensures v in logs[k].published && logs[k].published[v] == logs[m].published[v]
  {
    if m == k {
    } else {
      RememberedSince(logs, m, k - 1, v);
      assert Remembers(logs[k - 1], logs[k]);
    }
  }

  lemma PublishesFresh<K, V>(le: (K, K) -> bool, states: seq<State<K, V>>, steps: seq<(Tid, Action<K, V>)>,
                             m: nat, ins: Ins<K, V>)
    requires Run(le, states, steps) && PublishesAt(states, steps, m, ins)
    ensures var logs := Histories(states, steps);
            && m + 1 < |logs| && ins.version !in logs[m].gone
            && ins.version in logs[m + 1].published && logs[m + 1].published[ins.version] == EntryOf(ins)
  {
    var s, log := states[m], History(states, steps, m);
    HistoryHolds(le, states, steps, m);
    HistoryStep(le, states, steps, m);
    StepKeeps(le, s, states[m + 1], steps[m].0, steps[m].1, log);
    assert ThreadInv(s, log, steps[m].0);
  }

  lemma StaysPublished<K, V>(le: (K, K) -> bool, states: seq<State<K, V>>, steps: seq<(Tid, Action<K, V>)>,
                             m: nat, k: nat, ins: Ins<K, V>)
    requires Run(le, states, steps) && PublishesAt(states, steps, m, ins) && m < k <= |steps|
    ensures var log := History(states, steps, k);
            ins.version in log.published && log.published[ins.version] == EntryOf(ins)
  {
    PublishesFresh(le, states, steps, m, ins);
    AllRemember(le, states, steps);
    RememberedSince(Histories(states, steps), m + 1, k, ins.version);
  }

  /** The entry of `ins` is in slot `i` and in no other. */
  ghost predicate OnlyIn<K, V>(s: State<K, V>, i: nat, ins: Ins<K, V>) {
    && Carries(s, i, ins.version) && s.slots[i].entry == Some(EntryOf(ins))
    && forall j: nat :: Carries(s, j, ins.version) ==> j == i
  }

  /** The step from state `n` empties the slot of the entry of `ins`, for a pop, which answers
      with its key and value, or for a clear. */
  ghost predicate TakesAt<K, V>(states: seq<State<K, V>>, steps: seq<(Tid, Action<K, V>)>, n: nat, ins: Ins<K, V>) {
    && n < |steps| < |states| && steps[n].0 < |states[n].pcs|
    && var pc := states[n].pcs[steps[n].0];
       && pc.Vacate? && Carries(states[n], pc.i, ins.version)
       && (pc.out == Popped(ins.key, ins.value) || pc.out == Wiped)
  }

  lemma TakerAnswers<K, V>(le: (K, K) -> bool, states: seq<State<K, V>>, steps: seq<(Tid, Action<K, V>)>,
                           m: nat, ins: Ins<K, V>, n: nat, fate: Fate)
    requires Run(le, states, steps) && PublishesAt(states, steps, m, ins)
    requires EndsAt(states, steps, n, ins.version, fate) && !fate.ReplacedBy? && m < n
    ensures TakesAt(states, steps, n, ins)
  {
    StaysPublished(le, states, steps, m, n, ins);
    HistoryHolds(le, states, steps, n);
    var s, log := states[n], History(states, steps, n);
    var i := s.pcs[steps[n].0].i;
    assert SlotInv(s.slots[i], i, log) && ThreadInv(s, log, steps[n].0);
  }

  /** An entry is published before it is taken. */
  lemma TakenLater<K, V>(le: (K, K) -> bool, states: seq<State<K, V>>, steps: seq<(Tid, Action<K, V>)>,
                         m: nat, ins: Ins<K, V>, n: nat, fate: Fate)
    requires Run(le, states, steps) && PublishesAt(states, steps, m, ins)
    requires EndsAt(states, steps, n, ins.version, fate)
    ensures m < n
  {
    EndsFresh(le, states, steps, n, ins.version, fate);
    PublishesFresh(le, states, steps, m, ins);
    FatesAreFinal(le, states, steps);
    if n < m {
      GoneForGood(Histories(states, steps), n + 1, m, ins.version);
    }
  }

  /** EXACTLY ONE PLACE: with pairwise distinct keys and fewer than 2^32 insertions, at every
      point after its publication an entry is, unchanged, in exactly one slot, or was taken,
      by exactly one pop that answered with it or by a clear. */
  lemma ExactlyOnePlace<K, V>(le: (K, K) -> bool, states: seq<State<K, V>>, steps: seq<(Tid, Action<K, V>)>,
                              m: nat, ins: Ins<K, V>, k: nat)
    requires Run(le, states, steps) && DistinctInserts(steps) && PublishesAt(states, steps, m, ins)
    requires m < k <= |steps| && states[k].nextVersion <= VERSIONS
    ensures (exists i: nat :: OnlyIn(states[k], i, ins)) <==>
            !(exists n: nat :: n < k && TakesAt(states, steps, n, ins))
    ensures forall n: nat, n': nat :: TakesAt(states, steps, n, ins) && TakesAt(states, steps, n', ins) ==> n == n'
  {
    var log, v := History(states, steps, k), ins.version;
    StaysPublished(le, states, steps, m, k, ins);
    Conservation(le, states, steps, k, v);
    forall n: nat, n': nat | TakesAt(states, steps, n, ins) && TakesAt(states, steps, n', ins) ensures n == n' {
      LeavesOnce(le, states, steps, n, n', v, TakerFate(states, steps, n), TakerFate(states, steps, n'));
    }
    if v in log.gone {
      var n := FateHasCause(le, states, steps, k, v);
      VersionsBelow(le, states, steps, n, k);
      NeverReplaced(le, states, steps, n, v, log.gone[v]);
      TakenLater(le, states, steps, m, ins, n, log.gone[v]);
      TakerAnswers(le, states, steps, m, ins, n, log.gone[v]);
    } else {
      forall n: nat | n < k ensures !TakesAt(states, steps, n, ins) {
        if TakesAt(states, steps, n, ins) {
          TakenIsGone(le, states, steps, n, k, ins);
          assert false;
        }
      }
      var i: nat :| Carries(states[k], i, v) && states[k].slots[i].entry == Some(log.published[v])
        && forall j: nat :: Carries(states[k], j, v) ==> j == i;
      assert OnlyIn(states[k], i, ins);
    }
  }

  function TakerFate<K, V>(states: seq<State<K, V>>, steps: seq<(Tid, Action<K, V>)>, n: nat): Fate
    requires n < |steps| < |states| && steps[n].0 < |states[n].pcs| && states[n].pcs[steps[n].0].Vacate?
  {
    if states[n].pcs[steps[n].0].out.Popped? then PoppedBy(steps[n].0) else WipedBy(steps[n].0)
  }

  lemma TakerEnds<K, V>(states: seq<State<K, V>>, steps: seq<(Tid, Action<K, V>)>, n: nat, ins: Ins<K, V>)
    requires TakesAt(states, steps, n, ins)
    ensures EndsAt(states, steps, n, ins.version, TakerFate(states, steps, n))
  {
  }

  lemma TakenNext<K, V>(le: (K, K) -> bool, states: seq<State<K, V>>, steps: seq<(Tid, Action<K, V>)>,
                        n: nat, ins: Ins<K, V>)
    requires Run(le, states, steps) && n < |steps| && TakesAt(states, steps, n, ins)
    ensures ins.version in Histories(states, steps)[n + 1].gone
  {
    TakerEnds(states, steps, n, ins);
    EndsFresh(le, states, steps, n, ins.version, TakerFate(states, steps, n));
  }

  lemma TakenIsGone<K, V>(le: (K, K) -> bool, states: seq<State<K, V>>, steps: seq<(Tid, Action<K, V>)>,
                          n: nat, k: nat, ins: Ins<K, V>)
    requires Run(le, states, steps) && n < k <= |steps| && TakesAt(states, steps, n, ins)
    ensures ins.version in History(states, steps, k).gone
  {
    TakenNext(le, states, steps, n, ins);
    FatesAreFinal(le, states, steps);
    GoneForGood(Histories(states, steps), n + 1, k, ins.version);
    assert Histories(states, steps)[k] == History(states, steps, k);
  }

  lemma {:induction false} VersionsBelow<K, V>(le: (K, K) -> bool, states: seq<State<K, V>>,
                                               steps: seq<(Tid, Action<K, V>)>, n: nat, k: nat)
    requires Run(le, states, steps) && n <= k <= |steps|
    ensures states[n].nextVersion <= states[k].nextVersion
  {
    if n == k {
    } else {
      VersionsBelow(le, states, steps, n, k - 1);
      assert StepAt(le, states, steps, k - 1);
      VersionGrows(le, states[k - 1], states[k], steps[k - 1].0, steps[k - 1].1);
    }
  }

  /** Nobody is clearing the map. */
  predicate NotClearing<K, V>(pc: Pc<K, V>) {
    match pc
    case Lock(job, _) => !job.Wipe?
    case TryLock(job, _, _) => !job.Wipe?
    case Check(job, _, _) => !job.Wipe?
    case Restore(job, _, _) => !job.Wipe?
    case Vacate(out, _) => out.Popped?
    case Subtract(out, _) => out.Popped?
    case Sweep(_) => false
    case _ => true
  }

  lemma ClearingStep<K, V>(le: (K, K) -> bool, s: State<K, V>, s': State<K, V>, t: Tid, act: Action<K, V>)
    requires Step(le, s, s', t, act) && !(act.Invoke? && act.op.Clear?) && NotClearing(s.pcs[t])
    ensures t < |s'.pcs| ==> NotClearing(s'.pcs[t])
  {
  }

  ghost predicate NoClear<K, V>(steps: seq<(Tid, Action<K, V>)>) {
    forall k {:trigger steps[k]} :: 0 <= k < |steps| ==> !(steps[k].1.Invoke? && steps[k].1.op.Clear?)
  }

  lemma {:induction false} NobodyClears<K, V>(le: (K, K) -> bool, states: seq<State<K, V>>,
                                              steps: seq<(Tid, Action<K, V>)>, k: nat, t: Tid)
    requires Run(le, states, steps) && NoClear(steps) && k <= |steps| && t < |states[k].pcs|
    ensures NotClearing(states[k].pcs[t])
  {
    if k == 0 {
    } else {
      var log := History(states, steps, k - 1);
      HistoryHolds(le, states, steps, k - 1);
      HistoryStep(le, states, steps, k - 1);
      Effects(le, states[k - 1], states[k], steps[k - 1].0, steps[k - 1].1, log);
      NobodyClears(le, states, steps, k - 1, t);
      if steps[k - 1].0 == t {
        assert StepAt(le, states, steps, k - 1);
        ClearingStep(le, states[k - 1], states[k], t, steps[k - 1].1);
      }
    }
  }

  /** The step from state `n` is one in which a pop hands out the entry of `ins`. */
  ghost predicate HandsOut<K, V>(states: seq<State<K, V>>, steps: seq<(Tid, Action<K, V>)>, n: nat, ins: Ins<K, V>) {
    && PopsAt(states, steps, n, ins.version)
    && states[n].pcs[steps[n].0].out == Popped(ins.key, ins.value)
  }

  /** SLOT OR POP: if moreover nobody clears the map, an entry is in exactly one slot or was
      handed out by exactly one pop; none is lost and none is handed out twice. */
  lemma SlotOrPop<K, V>(le: (K, K) -> bool, states: seq<State<K, V>>, steps: seq<(Tid, Action<K, V>)>,
                        m: nat, ins: Ins<K, V>, k: nat)
    requires Run(le, states, steps) && DistinctInserts(steps) && NoClear(steps) && PublishesAt(states, steps, m, ins)
    requires m < k <= |steps| && states[k].nextVersion <= VERSIONS
    ensures (exists i: nat :: OnlyIn(states[k], i, ins)) <==>
            !(exists n: nat :: n < k && HandsOut(states, steps, n, ins))
    ensures forall n: nat, n': nat :: HandsOut(states, steps, n, ins) && HandsOut(states, steps, n', ins) ==> n == n'
  {
    ExactlyOnePlace(le, states, steps, m, ins, k);
    forall n: nat ensures TakesAt(states, steps, n, ins) <==> HandsOut(states, steps, n, ins) {
      if TakesAt(states, steps, n, ins) {
        NobodyClears(le, states, steps, n, steps[n].0);
      }
    }
  }

  /** With distinct keys the table at rest is one that stands for a map: each slot is free or
      holds an entry, and no two hold the same key. */
  lemma RestingGood<K, V>(le: (K, K) -> bool, states: seq<State<K, V>>, steps: seq<(Tid, Action<K, V>)>, k: nat)
    requires Run(le, states, steps) && DistinctInserts(steps) && k <= |steps| && states[k].nextVersion <= VERSIONS
    requires forall t :: 0 <= t < |states[k].pcs| ==> states[k].pcs[t].Idle?
    ensures SlotTable.Good(states[k].slots)
  {
    var s, log := states[k], History(states, steps, k);
    OwnedThroughout(le, states, steps, k);
    HistoryHolds(le, states, steps, k);
    KeysThroughout(le, states, steps, k);
    forall i | 0 <= i < |s.slots| ensures SlotTable.Free(s.slots[i]) || SlotTable.Holds(s.slots[i]) {
      assert SlotInv(s.slots[i], i, log);
      assert forall t :: !OwnedBy(s, i, t);
    }
    forall i, j | 0 <= i < j < |s.slots| && SlotTable.Holds(s.slots[i]) && SlotTable.Holds(s.slots[j])
      ensures SlotTable.KeyOf(s.slots[i]) != SlotTable.KeyOf(s.slots[j])
    {
      HeldDiffer(s, log, UsedKeys(steps, k), i, j);
    }
  }

  lemma HeldDiffer<K, V>(s: State<K, V>, log: Log<K, V>, used: set<K>, i: nat, j: nat)
    requires Inv(s, log) && KeysInv(s.pcs, log.published, used)
    requires i < j < |s.slots| && SlotTable.Holds(s.slots[i]) && SlotTable.Holds(s.slots[j])
    ensures SlotTable.KeyOf(s.slots[i]) != SlotTable.KeyOf(s.slots[j])
  {
    assert SlotInv(s.slots[i], i, log) && SlotInv(s.slots[j], j, log);
  }
}
