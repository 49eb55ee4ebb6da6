/** The lock-free ordered map as a step system: any number of threads, one step per
    atomic access. A read of an entry that may race with a writer, because the slot
    no longer carries the entry seen before, may return anything. */
module MapMachine {
  import opened Wrappers
  import opened Ordering

  type Tid = nat

  /** Slot versions are the low 32 bits of insert versions. */
  const VERSIONS: nat := 0x1_0000_0000

  /** The counter `len` is a machine word. */
  const WORD: nat := 0x1_0000_0000_0000_0000

  const MAX_RETRIES: nat := 16

  datatype SlotState = EMPTY | WRITING | VALID | DELETING

  /** A slot's atomic word: state and version change together. */
  datatype Word = Word(state: SlotState, version: nat)

  datatype Entry<K, V> = Entry(key: K, value: V, insertVersion: nat, slotVersion: nat)

  datatype Slot<K, V> = Slot(word: Word, entry: Option<Entry<K, V>>)

  /** An insertion under way. */
  datatype Ins<K, V> = Ins(key: K, value: V, version: nat)

  /** What a thread locks a slot for, and what it saw there before. */
  datatype Job<K, V> =
    | Update(ins: Ins<K, V>, retry: nat, seen: nat)
    | Remove(cand: Candidate<K, V>, retry: nat)
    | Wipe(seen: nat)

  datatype Out<K, V> = Popped(key: K, value: V) | Wiped

  datatype Op<K, V> = Insert(key: K, value: V) | First | PopFirst | Clear

  datatype Pc<K, V> =
    | Idle
    | Start(key: K, value: V)
    | Seek(ins: Ins<K, V>, retry: nat, i: nat)                  // insert, phase 1: load word i
    | Compare(ins: Ins<K, V>, retry: nat, i: nat, seen: nat)    // compare the entry's key and version
    | Find(ins: Ins<K, V>, retry: nat, i: nat)                  // insert, phase 2: claim slot i if empty
    | Write(ins: Ins<K, V>, i: nat)
    | Publish(ins: Ins<K, V>, i: nat)
    | Add
    | Lock(job: Job<K, V>, i: nat)                              // load for the delete lock
    | TryLock(job: Job<K, V>, i: nat, locked: nat)              // compare-and-swap of the delete lock
    | Check(job: Job<K, V>, i: nat, locked: nat)                // slot locked
    | Restore(job: Job<K, V>, i: nat, locked: nat)
    | Republish(ins: Ins<K, V>, i: nat)
    | Vacate(out: Out<K, V>, i: nat)
    | Subtract(out: Out<K, V>, i: nat)
    | Scan(pop: bool, retry: nat, cands: seq<Candidate<K, V>>, i: nat)
    | Verify(pop: bool, retry: nat, cands: seq<Candidate<K, V>>, i: nat, seen: nat)
    | Reload(pop: bool, retry: nat, cands: seq<Candidate<K, V>>, i: nat, seen: nat)
    | Copy(pop: bool, retry: nat, cands: seq<Candidate<K, V>>, i: nat, seen: nat)
    | Peeked(cand: Candidate<K, V>)                             // first_key_value has its answer
    | Sweep(i: nat)

  datatype State<K, V> = State(slots: seq<Slot<K, V>>, len: nat, nextVersion: nat, pcs: seq<Pc<K, V>>)

  /** The choices of a step: the operation invoked, and what a racing read yields. */
  datatype Action<K, V> =
    | Invoke(op: Op<K, V>)
    | Go
    | Raced(same: bool)
    | Torn(got: Entry<K, V>)

  /** The slot still has the entry it had when its word showed version `seen`. */
  predicate Intact<K, V>(slot: Slot<K, V>, seen: nat) {
    && (slot.word.state == VALID || slot.word.state == DELETING) && slot.word.version == seen
    && slot.entry.Some? && slot.entry.value.slotVersion == seen
  }

  function Goto<K, V>(s: State<K, V>, t: Tid, pc: Pc<K, V>): State<K, V>
    requires t < |s.pcs|
  {
    s.(pcs := s.pcs[t := pc])
  }

  function SetWord<K, V>(s: State<K, V>, i: nat, word: Word): State<K, V>
    requires i < |s.slots|
  {
    s.(slots := s.slots[i := s.slots[i].(word := word)])
  }

  function SetEntry<K, V>(s: State<K, V>, i: nat, entry: Entry<K, V>): State<K, V>
    requires i < |s.slots|
  {
    s.(slots := s.slots[i := s.slots[i].(entry := Some(entry))])
  }

  function EntryOf<K, V>(ins: Ins<K, V>): Entry<K, V> {
    Entry(ins.key, ins.value, ins.version, ins.version % VERSIONS)
  }

  /** An insertion goes on with its next round, or gives up after one per slot. */
  function NextRound<K, V>(ins: Ins<K, V>, retry: nat, cap: nat): Pc<K, V> {
    if retry + 1 < cap then Seek(ins, retry + 1, 0) else Idle
  }

  /** A pop scans again, or gives up after the last retry. */
  function Rescan<K, V>(retry: nat): Pc<K, V> {
    if retry + 1 < MAX_RETRIES then Scan(true, retry + 1, [], 0) else Idle
  }

  /** Where a thread goes on when the lock was not to be had. */
  function Unlocked<K, V>(job: Job<K, V>, i: nat): Pc<K, V> {
    match job
    case Update(ins, retry, _) => Seek(ins, retry, i + 1)
    case Remove(_, retry) => Rescan(retry)
    case Wipe(_) => Sweep(i + 1)
  }

  /** Where a thread goes on after restoring a slot that failed its check. An update
      leaves its search and goes on to look for an empty slot. */
  function Restored<K, V>(job: Job<K, V>, i: nat): Pc<K, V> {
    match job
    case Update(ins, retry, _) => Find(ins, retry, 0)
    case Remove(_, retry) => Rescan(retry)
    case Wipe(_) => Sweep(i + 1)
  }

  /** The check under the lock. */
  predicate Passes<K(==), V>(job: Job<K, V>, entry: Entry<K, V>, locked: nat) {
    match job
    case Update(_, _, seen) => locked == seen
    case Remove(c, _) =>
      && locked == c.slotVersion
      && entry.key == c.key && entry.insertVersion == c.insertVersion && entry.slotVersion == locked
    case Wipe(seen) => locked == seen
  }

  ghost predicate Init<K, V>(s: State<K, V>) {
    && s.len == 0 && s.nextVersion == 1
    && (forall i :: 0 <= i < |s.slots| ==> s.slots[i] == Slot(Word(EMPTY, 0), None))
    && (forall t :: 0 <= t < |s.pcs| ==> s.pcs[t] == Idle)
  }

  /** One step of thread `t`. */
  ghost predicate Step<K, V>(le: (K, K) -> bool, s: State<K, V>, s': State<K, V>, t: Tid, act: Action<K, V>) {
    && t < |s.pcs|
    && match s.pcs[t]
       case Idle => act.Invoke? && s' == Goto(s, t, match act.op
                                                    case Insert(k, v) => Start(k, v)
                                                    case First => Scan(false, 0, [], 0)
                                                    case PopFirst => Scan(true, 0, [], 0)
                                                    case Clear => Sweep(0))
       case Start(_, _) => act == Go && InsertStep(s, s', t, act)
       case Seek(_, _, _) => act == Go && InsertStep(s, s', t, act)
       case Compare(_, _, _, _) => InsertStep(s, s', t, act)
       case Find(_, _, _) => act == Go && InsertStep(s, s', t, act)
       case Write(_, _) => act == Go && InsertStep(s, s', t, act)
       case Publish(_, _) => act == Go && InsertStep(s, s', t, act)
       case Add => act == Go && InsertStep(s, s', t, act)
       case Lock(job, i) => act == Go && LockStep(s, s', t, job, i)
       case TryLock(job, i, locked) => act == Go && TryLockStep(s, s', t, job, i, locked)
       case Check(job, i, locked) => act == Go && CheckStep(s, s', t, job, i, locked)
       case Restore(job, i, locked) =>
         act == Go && i < |s.slots| && s' == Goto(SetWord(s, i, Word(VALID, locked)), t, Restored(job, i))
       case Republish(ins, i) =>
         act == Go && i < |s.slots| && s' == Goto(SetWord(s, i, Word(VALID, ins.version % VERSIONS)), t, Idle)
       case Vacate(out, i) =>
         act == Go && i < |s.slots| && s' == Goto(SetWord(s, i, Word(EMPTY, 0)), t, Subtract(out, i))
       case Subtract(out, i) =>
         act == Go && s' == Goto(s.(len := (s.len + WORD - 1) % WORD), t, if out.Popped? then Idle else Sweep(i + 1))
       case Peeked(_) => act == Go && s' == Goto(s, t, Idle)
       case Sweep(i) => act == Go && SweepStep(s, s', t, i)
       case _ => ScanStep(le, s, s', t, act)
  }

  ghost predicate InsertStep<K, V>(s: State<K, V>, s': State<K, V>, t: Tid, act: Action<K, V>)
    requires t < |s.pcs|
  {
    match s.pcs[t]
    case Start(k, v) =>
      s' == Goto(s.(nextVersion := s.nextVersion + 1), t,
                 if |s.slots| == 0 then Idle else Seek(Ins(k, v, s.nextVersion), 0, 0))
    case Seek(ins, retry, i) =>
      s' == Goto(s, t, if i >= |s.slots| then Find(ins, retry, 0)
                       else if s.slots[i].word.state == VALID then Compare(ins, retry, i, s.slots[i].word.version)
                       else Seek(ins, retry, i + 1))
    case Compare(ins, retry, i, seen) =>
      && act.Raced? && i < |s.slots|
      && (Intact(s.slots[i], seen) ==> act.same == (s.slots[i].entry.value.key == ins.key))
      && s' == Goto(s, t, if act.same then Lock(Update(ins, retry, seen), i) else Seek(ins, retry, i + 1))
    case Find(ins, retry, i) =>
      if i >= |s.slots| then s' == Goto(s, t, NextRound(ins, retry, |s.slots|))
      else if s.slots[i].word == Word(EMPTY, 0) then
        s' == Goto(SetWord(s, i, Word(WRITING, ins.version % VERSIONS)), t, Write(ins, i))
      else s' == Goto(s, t, Find(ins, retry, i + 1))
    case Write(ins, i) => i < |s.slots| && s' == Goto(SetEntry(s, i, EntryOf(ins)), t, Publish(ins, i))
    case Publish(ins, i) =>
      i < |s.slots| && s' == Goto(SetWord(s, i, Word(VALID, ins.version % VERSIONS)), t, Add)
    case Add => s' == Goto(s.(len := (s.len + 1) % WORD), t, Idle)
    case _ => false
  }

  ghost predicate LockStep<K, V>(s: State<K, V>, s': State<K, V>, t: Tid, job: Job<K, V>, i: nat)
    requires t < |s.pcs|
  {
    && i < |s.slots|
    && var word := s.slots[i].word;
       s' == Goto(s, t, if word.state == VALID then TryLock(job, i, word.version) else Unlocked(job, i))
  }

  ghost predicate TryLockStep<K, V>(s: State<K, V>, s': State<K, V>, t: Tid, job: Job<K, V>, i: nat, locked: nat)
    requires t < |s.pcs|
  {
    && i < |s.slots|
    && if s.slots[i].word == Word(VALID, locked) then
         s' == Goto(SetWord(s, i, Word(DELETING, locked)), t, Check(job, i, locked))
       else s' == Goto(s, t, Unlocked(job, i))
  }

  ghost predicate CheckStep<K, V>(s: State<K, V>, s': State<K, V>, t: Tid, job: Job<K, V>, i: nat, locked: nat)
    requires t < |s.pcs|
  {
    && i < |s.slots| && s.slots[i].entry.Some?
    && var entry := s.slots[i].entry.value;
       if !Passes(job, entry, locked) then s' == Goto(s, t, Restore(job, i, locked))
       else match job
            case Update(ins, _, _) => s' == Goto(SetEntry(s, i, EntryOf(ins)), t, Republish(ins, i))
            case Remove(_, _) => s' == Goto(s, t, Vacate(Popped(entry.key, entry.value), i))
            case Wipe(_) => s' == Goto(s, t, Vacate(Wiped, i))
  }

  ghost predicate SweepStep<K, V>(s: State<K, V>, s': State<K, V>, t: Tid, i: nat)
    requires t < |s.pcs|
  {
    s' == Goto(s, t, if i >= |s.slots| then Idle
                     else if s.slots[i].word.state == VALID then Lock(Wipe(s.slots[i].word.version), i)
                     else Sweep(i + 1))
  }

  /** Collecting candidates slot by slot, and choosing the least at the end. */
  ghost predicate ScanStep<K, V>(le: (K, K) -> bool, s: State<K, V>, s': State<K, V>, t: Tid, act: Action<K, V>)
    requires t < |s.pcs|
  {
    match s.pcs[t]
    case Scan(pop, retry, cands, i) =>
      && act == Go
      && s' == Goto(s, t,
           if i < |s.slots| then
             if s.slots[i].word.state == VALID then Verify(pop, retry, cands, i, s.slots[i].word.version)
             else Scan(pop, retry, cands, i + 1)
           else if cands == [] then Idle
           else
             var c := cands[MinIndex(le, cands)];
             if pop then Lock(Remove(c, retry), c.index) else Peeked(c))
    case Verify(pop, retry, cands, i, seen) =>
      && act.Raced? && i < |s.slots|
      && (Intact(s.slots[i], seen) ==> act.same)
      && s' == Goto(s, t, if act.same then Reload(pop, retry, cands, i, seen) else Scan(pop, retry, cands, i + 1))
    case Reload(pop, retry, cands, i, seen) =>
      && act == Go && i < |s.slots|
      && s' == Goto(s, t, if s.slots[i].word == Word(VALID, seen) then Copy(pop, retry, cands, i, seen)
                          else Scan(pop, retry, cands, i + 1))
    case Copy(pop, retry, cands, i, seen) =>
      && act.Torn? && i < |s.slots|
      && (Intact(s.slots[i], seen) ==> s.slots[i].entry == Some(act.got))
      && s' == Goto(s, t, Scan(pop, retry,
                               cands + [Candidate(act.got.key, act.got.value, act.got.insertVersion, i, seen)], i + 1))
    case _ => false
  }

  /** The number of valid slots, counted one by one. */
  function ValidCount<K, V>(slots: seq<Slot<K, V>>): (n: nat)
    ensures n <= |slots|
  {
    if slots == [] then 0 else
      var n := |slots| - 1;
      ValidCount(slots[..n]) + if slots[n].word.state == VALID then 1 else 0
  }

  /** The k-th step, taken by thread `steps[k].0`, leads from state `k` to the next. */
  ghost predicate StepAt<K, V>(le: (K, K) -> bool, states: seq<State<K, V>>, steps: seq<(Tid, Action<K, V>)>, k: nat) {
    k < |steps| < |states| && Step(le, states[k], states[k + 1], steps[k].0, steps[k].1)
  }

  ghost predicate Run<K, V>(le: (K, K) -> bool, states: seq<State<K, V>>, steps: seq<(Tid, Action<K, V>)>) {
    && |states| == |steps| + 1
    && Init(states[0])
    && forall k :: 0 <= k < |steps| ==> StepAt(le, states, steps, k)
  }
}
