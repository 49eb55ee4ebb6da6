/** The version guard: as long as versions do not repeat, a slot locked with the
    version seen before still has the entry seen before. */
module MapVersions {
  import opened Ordering
  import opened MapMachine
  import opened MapConservation
  import opened MapEffects

  /** The version belongs to a published entry whose slot word has shown it already,
      so no slot will show it anew. */
  ghost predicate Settled<K, V>(s: State<K, V>, log: Log<K, V>, v: nat) {
    && v in log.published
    && forall u :: 0 <= u < |s.pcs| && s.pcs[u].Republish? ==> s.pcs[u].ins.version != v
  }

  /** If the candidate's slot still has the entry seen, the candidate is a true copy. */
  ghost predicate CandInv<K, V>(s: State<K, V>, log: Log<K, V>, c: Candidate<K, V>) {
    && c.index < |s.slots| && Settled(s, log, c.slotVersion)
    && (Intact(s.slots[c.index], c.slotVersion) ==>
          var e := s.slots[c.index].entry.value;
          e.key == c.key && e.insertVersion == c.insertVersion)
  }

  ghost predicate JobInv<K, V>(s: State<K, V>, log: Log<K, V>, job: Job<K, V>, i: nat) {
    match job
    case Update(ins, _, seen) =>
      && i < |s.slots| && Settled(s, log, seen)
      && (Intact(s.slots[i], seen) ==> s.slots[i].entry.value.key == ins.key)
    case Remove(c, _) => i == c.index && CandInv(s, log, c)
    case Wipe(_) => true
  }

  ghost predicate CandsInv<K, V>(s: State<K, V>, log: Log<K, V>, cs: seq<Candidate<K, V>>) {
    forall k :: 0 <= k < |cs| ==> CandInv(s, log, cs[k])
  }

  /** What a thread has seen is still so unless the slot has moved on. */
  ghost predicate SeenInv<K, V>(s: State<K, V>, log: Log<K, V>, pc: Pc<K, V>) {
    match pc
    case Compare(_, _, i, seen) => i < |s.slots| && Settled(s, log, seen)
    case Lock(job, i) => JobInv(s, log, job, i)
    case TryLock(job, i, _) => JobInv(s, log, job, i)
    case Check(job, i, _) => JobInv(s, log, job, i)
    case Scan(_, _, cs, _) => CandsInv(s, log, cs)
    case Verify(_, _, cs, i, seen) => CandsInv(s, log, cs) && Settled(s, log, seen)
    case Reload(_, _, cs, i, seen) => CandsInv(s, log, cs) && Settled(s, log, seen)
    case Copy(_, _, cs, i, seen) => CandsInv(s, log, cs) && Settled(s, log, seen)
    case _ => true
  }

  ghost predicate GuardInv<K, V>(s: State<K, V>, log: Log<K, V>) {
    forall u :: 0 <= u < |s.pcs| ==> SeenInv(s, log, s.pcs[u])
  }

  /** Published versions are below the bound, so they are their own low 32 bits. */
  lemma SmallVersions<K, V>(s: State<K, V>, log: Log<K, V>, v: nat)
    requires Inv(s, log) && s.nextVersion <= VERSIONS && v in log.published
    ensures v % VERSIONS == v && log.published[v].slotVersion == v
  {
  }

  /** The version a slot's valid word shows is settled. */
  lemma ShownIsSettled<K, V>(s: State<K, V>, log: Log<K, V>, i: nat)
    requires Inv(s, log) && s.nextVersion <= VERSIONS && i < |s.slots| && s.slots[i].word.state == VALID
    ensures Settled(s, log, s.slots[i].word.version) && Intact(s.slots[i], s.slots[i].word.version)
    ensures s.slots[i].entry.value.insertVersion == s.slots[i].word.version
  {
    var v := s.slots[i].entry.value.insertVersion;
    assert SlotInv(s.slots[i], i, log);
    SmallVersions(s, log, v);
    forall u | 0 <= u < |s.pcs| && s.pcs[u].Republish? ensures s.pcs[u].ins.version != v {
      assert ThreadInv(s, log, u);
      assert SlotInv(s.slots[s.pcs[u].i], s.pcs[u].i, log);
    }
  }

  /** A settled version stays settled: an insertion only ever brings its own. */
  lemma SettledStays<K, V>(le: (K, K) -> bool, s: State<K, V>, s': State<K, V>, t: Tid, act: Action<K, V>,
                           log: Log<K, V>, v: nat)
    requires Inv(s, log) && Step(le, s, s', t, act) && RecordReady(s, t) && Settled(s, log, v)
    ensures Settled(s', Record(s, t, log), v)
  {
    assert ThreadInv(s, log, t);
    Effects(le, s, s', t, act, log);
    OwnRecord(s, log, t);
    RepublishesItsOwn(le, s, s', t, act);
  }

  lemma RepublishesItsOwn<K, V>(le: (K, K) -> bool, s: State<K, V>, s': State<K, V>, t: Tid, act: Action<K, V>)
    requires Step(le, s, s', t, act)
    ensures t < |s'.pcs| && s'.pcs[t].Republish? ==>
              Pending(s.pcs[t]).Some? && s'.pcs[t].ins == Pending(s.pcs[t]).value
  {
  }

  /** No slot comes to show a settled version anew, or changes its entry under it. */
  lemma IntactStays<K, V>(le: (K, K) -> bool, s: State<K, V>, s': State<K, V>, t: Tid, act: Action<K, V>,
                          log: Log<K, V>, v: nat)
    requires Inv(s, log) && Step(le, s, s', t, act) && Settled(s, log, v)
    requires s.nextVersion <= VERSIONS && s'.nextVersion <= VERSIONS
    ensures |s'.slots| == |s.slots|
    ensures forall i :: 0 <= i < |s.slots| && Intact(s'.slots[i], v) ==>
              Intact(s.slots[i], v) && s'.slots[i].entry == s.slots[i].entry
  {
    Effects(le, s, s', t, act, log);
    SmallVersions(s, log, v);
    var pc, e := s.pcs[t], EffectOf(s.pcs[t], s'.pcs[t]);
    if e != Untouched && Intact(s'.slots[pc.i], v) {
      assert ThreadInv(s, log, t);
      assert SlotInv(s.slots[pc.i], pc.i, log);
      if e == Replacing || e == Publishing {
        PendingIsSmall(s, log, t);
      } else if e == Republishing {
        PublishedIsSmall(s, log, t);
      }
    }
  }

  lemma PendingIsSmall<K, V>(s: State<K, V>, log: Log<K, V>, t: Tid)
    requires Inv(s, log) && t < |s.pcs| && s.nextVersion <= VERSIONS
    ensures Pending(s.pcs[t]).Some? ==>
              var v := Pending(s.pcs[t]).value.version; v % VERSIONS == v && v !in log.published
  {
    assert ThreadInv(s, log, t);
  }

  lemma PublishedIsSmall<K, V>(s: State<K, V>, log: Log<K, V>, t: Tid)
    requires Inv(s, log) && t < |s.pcs| && s.nextVersion <= VERSIONS && s.pcs[t].Republish?
    ensures s.pcs[t].ins.version % VERSIONS == s.pcs[t].ins.version
  {
    assert ThreadInv(s, log, t);
    assert SlotInv(s.slots[s.pcs[t].i], s.pcs[t].i, log);
  }

  /** What another thread has seen stays as good as it was. */
  lemma SeenStays<K, V>(le: (K, K) -> bool, s: State<K, V>, s': State<K, V>, t: Tid, act: Action<K, V>,
                        log: Log<K, V>, pc: Pc<K, V>)
    requires Inv(s, log) && Step(le, s, s', t, act) && RecordReady(s, t) && SeenInv(s, log, pc)
    requires s.nextVersion <= VERSIONS && s'.nextVersion <= VERSIONS
    ensures SeenInv(s', Record(s, t, log), pc)
  {
    forall v | Settled(s, log, v)
      ensures Settled(s', Record(s, t, log), v)
      ensures |s'.slots| == |s.slots|
      ensures forall i :: 0 <= i < |s.slots| && Intact(s'.slots[i], v) ==>
                Intact(s.slots[i], v) && s'.slots[i].entry == s.slots[i].entry
    {
      SettledStays(le, s, s', t, act, log, v);
      IntactStays(le, s, s', t, act, log, v);
    }
    Transfer(s, s', log, Record(s, t, log), pc);
  }

  lemma Transfer<K, V>(s: State<K, V>, s': State<K, V>, log: Log<K, V>, log': Log<K, V>, pc: Pc<K, V>)
    requires SeenInv(s, log, pc) && |s'.slots| == |s.slots|
    requires forall v :: Settled(s, log, v) ==> Settled(s', log', v)
    requires forall v, i :: Settled(s, log, v) && 0 <= i < |s.slots| && Intact(s'.slots[i], v) ==>
               Intact(s.slots[i], v) && s'.slots[i].entry == s.slots[i].entry
    ensures SeenInv(s', log', pc)
  {
    forall c | CandInv(s, log, c) ensures CandInv(s', log', c) {}
  }

  /** A look at slot `i`: the version its valid word shows, or the entry under it. */
  lemma LookSees<K, V>(le: (K, K) -> bool, s: State<K, V>, s': State<K, V>, t: Tid, act: Action<K, V>, log: Log<K, V>)
    requires Inv(s, log) && Step(le, s, s', t, act) && s.nextVersion <= VERSIONS
    requires SeenInv(s, log, s.pcs[t])
    requires var pc := s.pcs[t];
             pc.Seek? || pc.Compare? || pc.Scan? || pc.Verify? || pc.Reload? || pc.Copy? || pc.Sweep?
    ensures SeenInv(s, log, s'.pcs[t]) && s'.slots == s.slots
  {
    var pc := s.pcs[t];
    if !pc.Compare? && pc.i < |s.slots| && s.slots[pc.i].word.state == VALID {
      ShownIsSettled(s, log, pc.i);
    }
  }

  /** Every step keeps the guard. */
  lemma GuardKeeps<K, V>(le: (K, K) -> bool, s: State<K, V>, s': State<K, V>, t: Tid, act: Action<K, V>, log: Log<K, V>)
    requires Inv(s, log) && GuardInv(s, log) && Step(le, s, s', t, act)
    requires s.nextVersion <= VERSIONS && s'.nextVersion <= VERSIONS
    ensures RecordReady(s, t) && GuardInv(s', Record(s, t, log))
  {
    StepKeeps(le, s, s', t, act, log);
    Effects(le, s, s', t, act, log);
    forall u | 0 <= u < |s'.pcs| ensures SeenInv(s', Record(s, t, log), s'.pcs[u]) {
      assert SeenInv(s, log, s.pcs[u]);
      if u != t {
        SeenStays(le, s, s', t, act, log, s.pcs[u]);
      } else {
        OwnSeen(le, s, s', t, act, log);
      }
    }
  }

  lemma OwnSeen<K, V>(le: (K, K) -> bool, s: State<K, V>, s': State<K, V>, t: Tid, act: Action<K, V>, log: Log<K, V>)
    requires Inv(s, log) && Step(le, s, s', t, act) && RecordReady(s, t) && SeenInv(s, log, s.pcs[t])
    requires s.nextVersion <= VERSIONS && s'.nextVersion <= VERSIONS && t < |s'.pcs|
    ensures SeenInv(s', Record(s, t, log), s'.pcs[t])
  {
    var pc := s.pcs[t];
    if pc.Seek? || pc.Compare? || pc.Scan? || pc.Verify? || pc.Reload? || pc.Copy? || pc.Sweep? {
      LookSees(le, s, s', t, act, log);
      SeenStays(le, s, s', t, act, log, s'.pcs[t]);
    } else {
      SeenStays(le, s, s', t, act, log, pc);
      StepSeen(le, s, s', t, act, Record(s, t, log));
    }
  }

  /** The other steps learn nothing about slots that the thread did not know. */
  lemma StepSeen<K, V>(le: (K, K) -> bool, s: State<K, V>, s': State<K, V>, t: Tid, act: Action<K, V>, log': Log<K, V>)
    requires Step(le, s, s', t, act) && t < |s'.pcs| && SeenInv(s', log', s.pcs[t])
    requires var pc := s.pcs[t];
             !(pc.Seek? || pc.Compare? || pc.Scan? || pc.Verify? || pc.Reload? || pc.Copy? || pc.Sweep?)
    ensures SeenInv(s', log', s'.pcs[t])
  {
  }

  lemma {:induction false} GuardThroughout<K, V>(le: (K, K) -> bool, states: seq<State<K, V>>,
                                                 steps: seq<(Tid, Action<K, V>)>, k: nat)
    requires Run(le, states, steps) && k <= |steps| && states[k].nextVersion <= VERSIONS
    ensures GuardInv(states[k], History(states, steps, k))
  {
    if k == 0 {
    } else {
      var before := History(states, steps, k - 1);
      assert StepAt(le, states, steps, k - 1);
      VersionGrows(le, states[k - 1], states[k], steps[k - 1].0, steps[k - 1].1);
      GuardThroughout(le, states, steps, k - 1);
      HistoryHolds(le, states, steps, k - 1);
      HistoryStep(le, states, steps, k - 1);
      GuardKeeps(le, states[k - 1], states[k], steps[k - 1].0, steps[k - 1].1, before);
    }
  }

  lemma VersionGrows<K, V>(le: (K, K) -> bool, s: State<K, V>, s': State<K, V>, t: Tid, act: Action<K, V>)
    requires Step(le, s, s', t, act)
    ensures s.nextVersion <= s'.nextVersion
  {
  }

  /** VERSION GUARD: in any run with fewer than 2^32 insertions, a thread that holds
      the lock with the version it saw before finds the entry it saw before: the
      recheck of a pop always succeeds, and an update hits the key it compared. */
  lemma VersionGuard<K, V>(le: (K, K) -> bool, states: seq<State<K, V>>, steps: seq<(Tid, Action<K, V>)>, k: nat,
                           t: Tid)
    requires Run(le, states, steps) && k <= |steps| && states[k].nextVersion <= VERSIONS
    requires t < |states[k].pcs| && states[k].pcs[t].Check?
    ensures var s, pc := states[k], states[k].pcs[t];
            && pc.i < |s.slots| && s.slots[pc.i].entry.Some?
            && (pc.job.Remove? && pc.locked == pc.job.cand.slotVersion ==>
                  Passes(pc.job, s.slots[pc.i].entry.value, pc.locked))
            && (pc.job.Update? && pc.locked == pc.job.seen ==>
                  s.slots[pc.i].entry.value.key == pc.job.ins.key)
  {
    GuardThroughout(le, states, steps, k);
    HistoryHolds(le, states, steps, k);
    var s, log := states[k], History(states, steps, k);
    assert ThreadInv(s, log, t) && SeenInv(s, log, s.pcs[t]);
  }
}
