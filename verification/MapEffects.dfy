/** What one step may do to a slot. */
module MapEffects {
  import opened Wrappers
  import opened MapMachine
  import opened MapConservation

  datatype Effect = Untouched | Locking | Filling | Releasing | Replacing | Publishing | Republishing | Vacating

  /** The effect of a step by a thread at `pc` on slot `i`, going from `slot` to `slot'`. */
  ghost predicate HasEffect<K, V>(pc: Pc<K, V>, i: nat, slot: Slot<K, V>, slot': Slot<K, V>, e: Effect) {
    match e
    case Untouched => slot' == slot
    case Locking =>
      && pc.TryLock? && pc.i == i && slot.word == Word(VALID, pc.locked)
      && slot' == slot.(word := Word(DELETING, pc.locked))
    case Filling => !Occupied(slot.word) && !Occupied(slot'.word)
    case Releasing =>
      && pc.Restore? && pc.i == i && slot.word == Word(DELETING, pc.locked)
      && slot' == slot.(word := Word(VALID, pc.locked))
    case Replacing =>
      && pc.Check? && pc.i == i && pc.job.Update? && slot.word == Word(DELETING, pc.locked)
      && slot' == slot.(entry := Some(EntryOf(pc.job.ins)))
    case Publishing =>
      && pc.Publish? && pc.i == i && slot.word.state == WRITING
      && slot' == Slot(Word(VALID, pc.ins.version % VERSIONS), Some(EntryOf(pc.ins)))
    case Republishing =>
      && pc.Republish? && pc.i == i && slot.word.state == DELETING
      && slot' == Slot(Word(VALID, pc.ins.version % VERSIONS), Some(EntryOf(pc.ins)))
    case Vacating =>
      pc.Vacate? && pc.i == i && slot.word.state == DELETING && slot' == slot.(word := Word(EMPTY, 0))
  }

  /** The effect that a step has on the slot its thread works on. */
  function EffectOf<K, V>(pc: Pc<K, V>, pc': Pc<K, V>): Effect {
    match pc
    case Find(_, _, _) => if pc'.Write? then Filling else Untouched
    case Write(_, _) => Filling
    case Publish(_, _) => Publishing
    case TryLock(_, _, _) => if pc'.Check? then Locking else Untouched
    case Check(_, _, _) => if pc'.Republish? then Replacing else Untouched
    case Restore(_, _, _) => Releasing
    case Republish(_, _) => Republishing
    case Vacate(_, _) => Vacating
    case _ => Untouched
  }

  /** Thread `t` moves, and the slot it works on changes as its place in the code says. */
  ghost predicate OneSlot<K, V>(s: State<K, V>, s': State<K, V>, t: Tid) {
    && |s'.slots| == |s.slots| && t < |s'.pcs| == |s.pcs| && s'.pcs == s.pcs[t := s'.pcs[t]]
    && var e := EffectOf(s.pcs[t], s'.pcs[t]);
       if e == Untouched then s'.slots == s.slots
       else
         var i := s.pcs[t].i;
         && i < |s.slots| && s'.slots == s.slots[i := s'.slots[i]]
         && HasEffect(s.pcs[t], i, s.slots[i], s'.slots[i], e)
  }

  /** A step changes at most one slot, and that as its place in the code says. */
  lemma Effects<K, V>(le: (K, K) -> bool, s: State<K, V>, s': State<K, V>, t: Tid, act: Action<K, V>, log: Log<K, V>)
    requires Inv(s, log) && Step(le, s, s', t, act)
    ensures OneSlot(s, s', t)
  {
    assert ThreadInv(s, log, t);
    if Holds(s.pcs[t]) {
      OwnerEffects(le, s, s', t, act, log);
    }
  }

  lemma OwnerEffects<K, V>(le: (K, K) -> bool, s: State<K, V>, s': State<K, V>, t: Tid, act: Action<K, V>,
                           log: Log<K, V>)
    requires Inv(s, log) && Step(le, s, s', t, act) && Holds(s.pcs[t])
    ensures OneSlot(s, s', t)
  {
    assert ThreadInv(s, log, t);
  }

  ghost predicate OwnedBy<K, V>(s: State<K, V>, i: nat, t: Tid) {
    t < |s.pcs| && Holds(s.pcs[t]) && s.pcs[t].i == i
  }

  /** Every slot being written or deleted is so by some thread. */
  ghost predicate Owned<K, V>(s: State<K, V>) {
    forall i :: 0 <= i < |s.slots| && s.slots[i].word.state in {WRITING, DELETING} ==> exists t :: OwnedBy(s, i, t)
  }

  lemma OwnedKeeps<K, V>(le: (K, K) -> bool, s: State<K, V>, s': State<K, V>, t: Tid, act: Action<K, V>, log: Log<K, V>)
    requires Inv(s, log) && Owned(s) && Step(le, s, s', t, act)
    ensures Owned(s')
  {
    Effects(le, s, s', t, act, log);
    HandsOver(le, s, s', t, act, log);
    forall i | 0 <= i < |s'.slots| && s'.slots[i].word.state in {WRITING, DELETING}
      ensures exists u :: OwnedBy(s', i, u)
    {
      if Holds(s'.pcs[t]) && s'.pcs[t].i == i {
        assert OwnedBy(s', i, t);
      } else {
        var u :| OwnedBy(s, i, u);
        assert u != t;
        assert OwnedBy(s', i, u);
      }
    }
  }

  /** A thread that changes a slot owns it afterwards or leaves it free; it gives up a
      slot only by leaving it free. */
  lemma HandsOver<K, V>(le: (K, K) -> bool, s: State<K, V>, s': State<K, V>, t: Tid, act: Action<K, V>, log: Log<K, V>)
    requires Inv(s, log) && Step(le, s, s', t, act)
    ensures |s'.slots| == |s.slots| && t < |s'.pcs|
    ensures forall i :: 0 <= i < |s.slots| && !(Holds(s'.pcs[t]) && s'.pcs[t].i == i) ==>
              || s'.slots[i].word.state in {EMPTY, VALID}
              || (s'.slots[i] == s.slots[i] && !(Holds(s.pcs[t]) && s.pcs[t].i == i))
  {
    Effects(le, s, s', t, act, log);
    assert ThreadInv(s, log, t);
  }

  lemma {:induction false} OwnedThroughout<K, V>(le: (K, K) -> bool, states: seq<State<K, V>>,
                                                 steps: seq<(Tid, Action<K, V>)>, k: nat)
    requires Run(le, states, steps) && k <= |steps|
    ensures Owned(states[k])
  {
    if k == 0 {
    } else {
      OwnedThroughout(le, states, steps, k - 1);
      HistoryHolds(le, states, steps, k - 1);
      HistoryStep(le, states, steps, k - 1);
      OwnedKeeps(le, states[k - 1], states[k], steps[k - 1].0, steps[k - 1].1, History(states, steps, k - 1));
    }
  }
}
