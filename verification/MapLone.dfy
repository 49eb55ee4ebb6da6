/** What the ordered map does for an operation that no other thread's step interrupts: exactly
    what a finite map does, failures included. */
module MapLone {
  import opened Wrappers
  import opened Ordering
  import opened MapMachine
  import opened SlotTable

  /** Slot `i` has another word now. */
  function Marked<K, V>(slots: seq<Slot<K, V>>, i: nat, word: Word): seq<Slot<K, V>>
    requires i < |slots|
  {
    slots[i := slots[i].(word := word)]
  }

  /** A table that stands for the map `d`. */
  ghost predicate Stands<K, V>(slots: seq<Slot<K, V>>, cap: nat, d: map<K, V>) {
    Good(slots) && |slots| == cap && Dict(slots) == d
  }

  function NewSlot<K, V>(ins: Ins<K, V>): Slot<K, V> {
    Slot(Word(VALID, ins.version % VERSIONS), Some(EntryOf(ins)))
  }

  /** The slot of key `key` shows version `seen`. */
  ghost predicate Found<K, V>(slots: seq<Slot<K, V>>, i: nat, key: K, seen: nat) {
    At(slots, i, key) && slots[i].word == Word(VALID, seen)
  }

  ghost predicate Absent<K, V>(slots: seq<Slot<K, V>>, key: K, n: nat) {
    forall j :: 0 <= j < n && j < |slots| ==> !At(slots, j, key)
  }

  /** How far an insertion has got alone on the table `slots`. */
  ghost predicate Inserting<K, V>(pc: Pc<K, V>, now: seq<Slot<K, V>>, slots: seq<Slot<K, V>>, key: K, value: V) {
    match pc
    case Start(k, v) => k == key && v == value && now == slots
    case Seek(ins, _, i) => ins.key == key && ins.value == value && now == slots && Absent(slots, key, i)
    case Compare(ins, _, i, seen) =>
      && ins.key == key && ins.value == value && now == slots && Absent(slots, key, i)
      && i < |slots| && slots[i].word == Word(VALID, seen)
    case Lock(job, i) =>
      && job.Update? && job.ins.key == key && job.ins.value == value && now == slots
      && Found(slots, i, key, job.seen)
    case TryLock(job, i, locked) =>
      && job.Update? && job.ins.key == key && job.ins.value == value && now == slots
      && Found(slots, i, key, job.seen) && locked == job.seen
    case Check(job, i, locked) =>
      && job.Update? && job.ins.key == key && job.ins.value == value
      && Found(slots, i, key, job.seen) && locked == job.seen && now == Marked(slots, i, Word(DELETING, locked))
    case Republish(ins, i) =>
      && ins.key == key && ins.value == value && At(slots, i, key)
      && now == slots[i := Slot(Word(DELETING, slots[i].word.version), Some(EntryOf(ins)))]
    case Find(ins, _, i) =>
      && ins.key == key && ins.value == value && now == slots && Absent(slots, key, |slots|)
      && (forall j :: 0 <= j < i && j < |slots| ==> !Free(slots[j]))
    case Write(ins, i) =>
      && ins.key == key && ins.value == value && Absent(slots, key, |slots|)
      && i < |slots| && Free(slots[i]) && now == Marked(slots, i, Word(WRITING, ins.version % VERSIONS))
    case Publish(ins, i) =>
      && ins.key == key && ins.value == value && Absent(slots, key, |slots|)
      && i < |slots| && Free(slots[i])
      && now == slots[i := Slot(Word(WRITING, ins.version % VERSIONS), Some(EntryOf(ins)))]
    case Add =>
      && key !in Dict(slots) && |Dict(slots)| < |slots|
      && Stands(now, |slots|, Dict(slots)[key := value])
    case _ => false
  }

  /** The map after a lone insertion: a new key needs a free slot. */
  ghost function Inserted<K, V>(d: map<K, V>, cap: nat, key: K, value: V): map<K, V> {
    if key in d || |d| < cap then d[key := value] else d
  }

  lemma AbsentMeans<K, V>(slots: seq<Slot<K, V>>, key: K)
    requires Good(slots) && Absent(slots, key, |slots|)
    ensures key !in Dict(slots)
  {
    if key in Dict(slots) {
      var i := DictHas(slots, key);
      assert false;
    }
  }

  lemma InsertMoves<K, V>(s: State<K, V>, s': State<K, V>, t: Tid, act: Action<K, V>,
                          slots: seq<Slot<K, V>>, key: K, value: V)
    requires Good(slots) && t < |s.pcs| && Inserting(s.pcs[t], s.slots, slots, key, value)
    requires InsertStep(s, s', t, act) && !s.pcs[t].Publish? && !s.pcs[t].Find? && !s.pcs[t].Add?
    ensures t < |s'.pcs|
    ensures if s'.pcs[t].Idle? then s'.slots == slots && |slots| == 0
            else Inserting(s'.pcs[t], s'.slots, slots, key, value)
  {
  }

  /** A table without the key and without a free slot. */
  lemma FullWithout<K, V>(slots: seq<Slot<K, V>>, key: K)
    requires Good(slots) && Absent(slots, key, |slots|)
    ensures key !in Dict(slots)
    ensures (forall j :: 0 <= j < |slots| ==> !Free(slots[j])) ==> |Dict(slots)| == |slots|
  {
    AbsentMeans(slots, key);
    FullWhen(slots);
    DictSize(slots);
  }

  lemma FindMoves<K, V>(s: State<K, V>, s': State<K, V>, t: Tid, act: Action<K, V>,
                        slots: seq<Slot<K, V>>, key: K, value: V)
    requires Good(slots) && t < |s.pcs| && Inserting(s.pcs[t], s.slots, slots, key, value)
    requires InsertStep(s, s', t, act) && s.pcs[t].Find?
    ensures t < |s'.pcs|
    ensures !s'.pcs[t].Idle? ==> Inserting(s'.pcs[t], s'.slots, slots, key, value)
    ensures s'.pcs[t].Idle? ==> s'.slots == slots && s.pcs[t].i >= |slots|
  {
  }

  lemma PublishMoves<K, V>(s: State<K, V>, s': State<K, V>, t: Tid, act: Action<K, V>,
                           slots: seq<Slot<K, V>>, key: K, value: V)
    requires Good(slots) && t < |s.pcs| && Inserting(s.pcs[t], s.slots, slots, key, value)
    requires InsertStep(s, s', t, act) && s.pcs[t].Publish?
    ensures t < |s'.pcs| && s'.pcs[t].Add? && Inserting(s'.pcs[t], s'.slots, slots, key, value)
  {
    var pc := s.pcs[t];
    AbsentMeans(slots, key);
    Stored(slots, pc.i, NewSlot(pc.ins));
    assert s'.slots == slots[pc.i := NewSlot(pc.ins)];
    FullWhen(slots);
    DictSize(slots);
  }

  lemma UpdateMoves<K, V>(le: (K, K) -> bool, s: State<K, V>, s': State<K, V>, t: Tid, act: Action<K, V>,
                          slots: seq<Slot<K, V>>, key: K, value: V)
    requires Good(slots) && t < |s.pcs| && Inserting(s.pcs[t], s.slots, slots, key, value)
    requires Step(le, s, s', t, act) && (s.pcs[t].Lock? || s.pcs[t].TryLock? || s.pcs[t].Check?)
    ensures t < |s'.pcs| && !s'.pcs[t].Idle? && Inserting(s'.pcs[t], s'.slots, slots, key, value)
  {
  }

  lemma RepublishMoves<K, V>(le: (K, K) -> bool, s: State<K, V>, s': State<K, V>, t: Tid, act: Action<K, V>,
                             slots: seq<Slot<K, V>>, key: K, value: V)
    requires Good(slots) && t < |s.pcs| && Inserting(s.pcs[t], s.slots, slots, key, value)
    requires Step(le, s, s', t, act) && s.pcs[t].Republish?
    ensures t < |s'.pcs| && s'.pcs[t].Idle? && s'.slots == slots[s.pcs[t].i := NewSlot(s.pcs[t].ins)]
  {
  }

  lemma Replaced<K, V>(slots: seq<Slot<K, V>>, i: nat, ins: Ins<K, V>)
    requires Good(slots) && At(slots, i, ins.key)
    ensures ins.key in Dict(slots) && Stands(slots[i := NewSlot(ins)], |slots|, Dict(slots)[ins.key := ins.value])
  {
    DictAt(slots, i);
    Stored(slots, i, NewSlot(ins));
  }

  lemma RepublishLone<K, V>(le: (K, K) -> bool, s: State<K, V>, s': State<K, V>, t: Tid, act: Action<K, V>,
                            slots: seq<Slot<K, V>>, key: K, value: V)
    requires Good(slots) && t < |s.pcs| && Inserting(s.pcs[t], s.slots, slots, key, value)
    requires Step(le, s, s', t, act) && s.pcs[t].Republish?
    ensures t < |s'.pcs| && s'.pcs[t].Idle?
    ensures Stands(s'.slots, |slots|, Inserted(Dict(slots), |slots|, key, value))
  {
    RepublishMoves(le, s, s', t, act, slots, key, value);
    Replaced(slots, s.pcs[t].i, s.pcs[t].ins);
  }

  /** One step of a lone insertion. */
  lemma InsertLone<K, V>(le: (K, K) -> bool, s: State<K, V>, s': State<K, V>, t: Tid, act: Action<K, V>,
                         slots: seq<Slot<K, V>>, key: K, value: V)
    requires Good(slots) && t < |s.pcs| && Inserting(s.pcs[t], s.slots, slots, key, value)
    requires Step(le, s, s', t, act)
    ensures t < |s'.pcs|
    ensures !s'.pcs[t].Idle? ==> Inserting(s'.pcs[t], s'.slots, slots, key, value)
    ensures s'.pcs[t].Idle? ==> Stands(s'.slots, |slots|, Inserted(Dict(slots), |slots|, key, value))
  {
    var pc := s.pcs[t];
    if pc.Lock? || pc.TryLock? || pc.Check? {
      UpdateMoves(le, s, s', t, act, slots, key, value);
    } else if pc.Republish? {
      RepublishLone(le, s, s', t, act, slots, key, value);
    } else if pc.Publish? {
      PublishMoves(s, s', t, act, slots, key, value);
    } else if pc.Find? {
      FindMoves(s, s', t, act, slots, key, value);
      FullWithout(slots, key);
    } else if !pc.Add? {
      InsertMoves(s, s', t, act, slots, key, value);
    }
  }

  /** What a lone scan has collected before slot `i`. */
  ghost predicate Collected<K, V>(cs: seq<Candidate<K, V>>, slots: seq<Slot<K, V>>, i: nat) {
    cs == Snapshot(if i <= |slots| then slots[..i] else slots)
  }

  /** The candidate that a lone scan settles on. */
  ghost predicate Settled<K, V>(le: (K, K) -> bool, c: Candidate<K, V>, slots: seq<Slot<K, V>>) {
    && c.index < |slots| && SlotTable.Holds(slots[c.index]) && c == CandidateOf(slots, c.index)
    && IsLeastEntry(le, Dict(slots), c.key, c.value)
  }

  /** `value` belongs to the least key of the map. */
  ghost predicate IsLeastEntry<K, V>(le: (K, K) -> bool, d: map<K, V>, key: K, value: V) {
    key in d && d[key] == value && forall k :: k in d ==> le(key, k)
  }

  /** How far a pop or a peek has got alone on the table `slots`. */
  ghost predicate Taking<K, V>(le: (K, K) -> bool, pc: Pc<K, V>, now: seq<Slot<K, V>>, slots: seq<Slot<K, V>>,
                               pops: bool) {
    match pc
    case Scan(pop, _, cs, i) => pop == pops && now == slots && Collected(cs, slots, i)
    case Verify(pop, _, cs, i, seen) =>
      pop == pops && now == slots && Collected(cs, slots, i) && i < |slots| && slots[i].word == Word(VALID, seen)
    case Reload(pop, _, cs, i, seen) =>
      pop == pops && now == slots && Collected(cs, slots, i) && i < |slots| && slots[i].word == Word(VALID, seen)
    case Copy(pop, _, cs, i, seen) =>
      pop == pops && now == slots && Collected(cs, slots, i) && i < |slots| && slots[i].word == Word(VALID, seen)
    case Peeked(c) => !pops && now == slots && Settled(le, c, slots)
    case Lock(job, i) => pops && job.Remove? && now == slots && Settled(le, job.cand, slots) && i == job.cand.index
    case TryLock(job, i, locked) =>
      && pops && job.Remove? && now == slots && Settled(le, job.cand, slots) && i == job.cand.index
      && locked == job.cand.slotVersion
    case Check(job, i, locked) =>
      && pops && job.Remove? && Settled(le, job.cand, slots) && i == job.cand.index
      && locked == job.cand.slotVersion && now == Marked(slots, i, Word(DELETING, locked))
    case Vacate(out, i) =>
      && pops && out.Popped? && At(slots, i, out.key) && IsLeastEntry(le, Dict(slots), out.key, out.value)
      && now == Marked(slots, i, Word(DELETING, slots[i].word.version))
    case Subtract(out, i) =>
      && pops && out.Popped? && IsLeastEntry(le, Dict(slots), out.key, out.value)
      && Stands(now, |slots|, Dict(slots) - {out.key})
    case _ => false
  }

  /** The places at which a lone pop or peek, on a table that stands for `d`, returns: with the
      least entry, or with nothing from an empty map. */
  ghost predicate TakesLeast<K, V>(le: (K, K) -> bool, last: Pc<K, V>, d: map<K, V>, pops: bool) {
    if d == map[] then last.Scan?
    else if pops then last.Subtract? && last.out.Popped? && IsLeastEntry(le, d, last.out.key, last.out.value)
    else last.Peeked? && IsLeastEntry(le, d, last.cand.key, last.cand.value)
  }

  /** The map after a lone pop or peek. */
  ghost function Taken<K, V>(last: Pc<K, V>, d: map<K, V>): map<K, V> {
    if last.Subtract? && last.out.Popped? then d - {last.out.key} else d
  }

  lemma ScanEnds<K(!new), V>(le: (K, K) -> bool, slots: seq<Slot<K, V>>, cs: seq<Candidate<K, V>>, i: nat)
    requires TotalOrder(le) && Good(slots) && Collected(cs, slots, i) && |slots| <= i
    ensures cs == [] <==> Dict(slots) == map[]
    ensures cs != [] ==> Settled(le, cs[MinIndex(le, cs)], slots)
  {
    assert slots[..|slots|] == slots;
    SnapshotLeast(le, slots);
  }

  lemma ScanMoves<K(!new), V>(le: (K, K) -> bool, s: State<K, V>, s': State<K, V>, t: Tid, act: Action<K, V>,
                              slots: seq<Slot<K, V>>, pops: bool)
    requires TotalOrder(le) && Good(slots) && t < |s.pcs| && Taking(le, s.pcs[t], s.slots, slots, pops)
    requires ScanStep(le, s, s', t, act) && s.pcs[t].Scan?
    ensures t < |s'.pcs|
    ensures !s'.pcs[t].Idle? ==> Taking(le, s'.pcs[t], s'.slots, slots, pops)
    ensures s'.pcs[t].Idle? ==> s'.slots == slots && Dict(slots) == map[]
  {
    var pc := s.pcs[t];
    if pc.i < |slots| {
      CollectsOne(slots, pc.i);
    } else {
      ScanEnds(le, slots, pc.cands, pc.i);
    }
  }

  /** What one more slot adds to what is collected. */
  lemma CollectsOne<K, V>(slots: seq<Slot<K, V>>, i: nat)
    requires i < |slots|
    ensures Snapshot(slots[..i + 1]) ==
            Snapshot(slots[..i]) + if SlotTable.Holds(slots[i]) then [CandidateOf(slots, i)] else []
  {
    assert slots[..i + 1][..i] == slots[..i] && slots[..i + 1][i] == slots[i];
  }

  lemma CopyMoves<K, V>(le: (K, K) -> bool, s: State<K, V>, s': State<K, V>, t: Tid, act: Action<K, V>,
                        slots: seq<Slot<K, V>>, pops: bool)
    requires Good(slots) && t < |s.pcs| && Taking(le, s.pcs[t], s.slots, slots, pops)
    requires ScanStep(le, s, s', t, act) && !s.pcs[t].Scan?
    ensures t < |s'.pcs| && Taking(le, s'.pcs[t], s'.slots, slots, pops)
  {
    CollectsOne(slots, s.pcs[t].i);
  }

  lemma TakeMoves<K, V>(le: (K, K) -> bool, s: State<K, V>, s': State<K, V>, t: Tid, act: Action<K, V>,
                        slots: seq<Slot<K, V>>, pops: bool)
    requires Good(slots) && t < |s.pcs| && Taking(le, s.pcs[t], s.slots, slots, pops)
    requires Step(le, s, s', t, act) && (s.pcs[t].Lock? || s.pcs[t].TryLock? || s.pcs[t].Check?)
    ensures t < |s'.pcs| && Taking(le, s'.pcs[t], s'.slots, slots, pops)
  {
  }

  lemma VacateMoves<K, V>(le: (K, K) -> bool, s: State<K, V>, s': State<K, V>, t: Tid, act: Action<K, V>,
                          slots: seq<Slot<K, V>>, pops: bool)
    requires Good(slots) && t < |s.pcs| && Taking(le, s.pcs[t], s.slots, slots, pops)
    requires Step(le, s, s', t, act) && s.pcs[t].Vacate?
    ensures t < |s'.pcs| && Taking(le, s'.pcs[t], s'.slots, slots, pops)
  {
    var i := s.pcs[t].i;
    var slot := slots[i].(word := Word(EMPTY, 0));
    Cleared(slots, i, slot);
    assert s'.slots == slots[i := slot];
  }

  /** One step of a lone pop or peek. */
  lemma TakeLone<K(!new), V>(le: (K, K) -> bool, s: State<K, V>, s': State<K, V>, t: Tid, act: Action<K, V>,
                             slots: seq<Slot<K, V>>, pops: bool)
    requires TotalOrder(le) && Good(slots) && t < |s.pcs| && Taking(le, s.pcs[t], s.slots, slots, pops)
    requires Step(le, s, s', t, act)
    ensures t < |s'.pcs|
    ensures !s'.pcs[t].Idle? ==> Taking(le, s'.pcs[t], s'.slots, slots, pops)
    ensures s'.pcs[t].Idle? ==> TakesLeast(le, s.pcs[t], Dict(slots), pops)
    ensures s'.pcs[t].Idle? ==> Stands(s'.slots, |slots|, Taken(s.pcs[t], Dict(slots)))
  {
    var pc := s.pcs[t];
    if pc.Scan? {
      ScanMoves(le, s, s', t, act, slots, pops);
    } else if pc.Verify? || pc.Reload? || pc.Copy? {
      CopyMoves(le, s, s', t, act, slots, pops);
    } else if pc.Lock? || pc.TryLock? || pc.Check? {
      TakeMoves(le, s, s', t, act, slots, pops);
    } else if pc.Vacate? {
      VacateMoves(le, s, s', t, act, slots, pops);
    }
  }

  /** All slots before `i` are free, and the others as in `slots`. */
  ghost predicate Swept<K, V>(now: seq<Slot<K, V>>, slots: seq<Slot<K, V>>, i: nat) {
    && |now| == |slots|
    && (forall j :: 0 <= j < i && j < |now| ==> Free(now[j]))
    && (forall j :: i <= j < |now| ==> now[j] == slots[j])
  }

  /** Slot `i` shows `word` for a moment. */
  ghost predicate SweptBut<K, V>(now: seq<Slot<K, V>>, slots: seq<Slot<K, V>>, i: nat, word: Word) {
    && i < |slots| == |now|
    && Swept(now[i := slots[i]], slots, i) && now[i] == slots[i].(word := word)
  }

  /** How far a clear has got alone on the table `slots`. */
  ghost predicate Wiping<K, V>(pc: Pc<K, V>, now: seq<Slot<K, V>>, slots: seq<Slot<K, V>>) {
    match pc
    case Sweep(i) => Swept(now, slots, i)
    case Lock(job, i) =>
      job.Wipe? && Swept(now, slots, i) && i < |slots| && slots[i].word == Word(VALID, job.seen)
    case TryLock(job, i, locked) =>
      job.Wipe? && Swept(now, slots, i) && i < |slots| && slots[i].word == Word(VALID, job.seen) && locked == job.seen
    case Check(job, i, locked) =>
      && job.Wipe? && SweptBut(now, slots, i, Word(DELETING, locked)) && locked == job.seen
      && slots[i].word == Word(VALID, locked)
    case Vacate(out, i) => out.Wiped? && i < |slots| && SweptBut(now, slots, i, Word(DELETING, slots[i].word.version))
    case Subtract(out, i) => out.Wiped? && Swept(now, slots, i + 1)
    case _ => false
  }

  lemma SweptOne<K, V>(now: seq<Slot<K, V>>, slots: seq<Slot<K, V>>, i: nat, word: Word)
    requires SweptBut(now, slots, i, word)
    ensures Swept(now[i := now[i].(word := Word(EMPTY, 0))], slots, i + 1)
  {
    var now' := now[i := now[i].(word := Word(EMPTY, 0))];
    var before := now[i := slots[i]];
    forall j | 0 <= j < |now| && j != i ensures now'[j] == before[j] {
    }
  }

  lemma SweepMoves<K, V>(le: (K, K) -> bool, s: State<K, V>, s': State<K, V>, t: Tid, act: Action<K, V>,
                         slots: seq<Slot<K, V>>)
    requires Good(slots) && t < |s.pcs| && Wiping(s.pcs[t], s.slots, slots) && Step(le, s, s', t, act)
    requires !s.pcs[t].Vacate? && !s.pcs[t].TryLock?
    ensures t < |s'.pcs|
    ensures !s'.pcs[t].Idle? ==> Wiping(s'.pcs[t], s'.slots, slots)
    ensures s'.pcs[t].Idle? ==> Swept(s'.slots, slots, |slots|)
  {
  }

  lemma LockToWipe<K, V>(le: (K, K) -> bool, s: State<K, V>, s': State<K, V>, t: Tid, act: Action<K, V>,
                         slots: seq<Slot<K, V>>)
    requires Good(slots) && t < |s.pcs| && Wiping(s.pcs[t], s.slots, slots) && Step(le, s, s', t, act)
    requires s.pcs[t].TryLock?
    ensures t < |s'.pcs| && Wiping(s'.pcs[t], s'.slots, slots)
  {
    assert s'.slots[s.pcs[t].i := slots[s.pcs[t].i]] == s.slots;
  }

  lemma VacateToWipe<K, V>(le: (K, K) -> bool, s: State<K, V>, s': State<K, V>, t: Tid, act: Action<K, V>,
                           slots: seq<Slot<K, V>>)
    requires Good(slots) && t < |s.pcs| && Wiping(s.pcs[t], s.slots, slots) && Step(le, s, s', t, act)
    requires s.pcs[t].Vacate?
    ensures t < |s'.pcs| && Wiping(s'.pcs[t], s'.slots, slots)
  {
    var i := s.pcs[t].i;
    SweptOne(s.slots, slots, i, Word(DELETING, slots[i].word.version));
  }

  /** One step of a lone clear. */
  lemma WipeLone<K, V>(le: (K, K) -> bool, s: State<K, V>, s': State<K, V>, t: Tid, act: Action<K, V>,
                       slots: seq<Slot<K, V>>)
    requires Good(slots) && t < |s.pcs| && Wiping(s.pcs[t], s.slots, slots) && Step(le, s, s', t, act)
    ensures t < |s'.pcs|
    ensures !s'.pcs[t].Idle? ==> Wiping(s'.pcs[t], s'.slots, slots)
    ensures s'.pcs[t].Idle? ==> Stands(s'.slots, |slots|, map[])
  {
    if s.pcs[t].Vacate? {
      VacateToWipe(le, s, s', t, act, slots);
    } else if s.pcs[t].TryLock? {
      LockToWipe(le, s, s', t, act, slots);
    } else {
      SweepMoves(le, s, s', t, act, slots);
      if s'.pcs[t].Idle? {
        SweptIsEmpty(s'.slots, slots);
      }
    }
  }

  lemma SweptIsEmpty<K, V>(now: seq<Slot<K, V>>, slots: seq<Slot<K, V>>)
    requires Swept(now, slots, |slots|)
    ensures Stands(now, |slots|, map[])
  {
    if k :| k in Dict(now) {
      var i := DictHas(now, k);
      assert false;
    }
  }

  /** How far the operation `op` has got alone on the table `slots`. */
  ghost predicate Alone<K, V>(le: (K, K) -> bool, pc: Pc<K, V>, now: seq<Slot<K, V>>, slots: seq<Slot<K, V>>,
                              op: Op<K, V>) {
    match op
    case Insert(key, value) => Inserting(pc, now, slots, key, value)
    case First => Taking(le, pc, now, slots, false)
    case PopFirst => Taking(le, pc, now, slots, true)
    case Clear => Wiping(pc, now, slots)
  }

  /** What a finite map does: an insertion of a new key needs room, a pop takes the least entry, a
      peek answers with it, and both answer with nothing exactly for the empty map; a clear
      empties it. `last` is the place the operation returns from. */
  ghost predicate DoesAsMap<K, V>(le: (K, K) -> bool, last: Pc<K, V>, now: seq<Slot<K, V>>, cap: nat, d: map<K, V>,
                                  op: Op<K, V>) {
    match op
    case Insert(key, value) => Stands(now, cap, if key in d || |d| < cap then d[key := value] else d)
    case First => TakesLeast(le, last, d, false) && Stands(now, cap, d)
    case PopFirst =>
      TakesLeast(le, last, d, true) && Stands(now, cap, if d == map[] then d else d - {last.out.key})
    case Clear => Stands(now, cap, map[])
  }

  lemma AloneStep<K(!new), V>(le: (K, K) -> bool, s: State<K, V>, s': State<K, V>, t: Tid, act: Action<K, V>,
                              slots: seq<Slot<K, V>>, op: Op<K, V>)
    requires TotalOrder(le) && Good(slots) && t < |s.pcs| && Alone(le, s.pcs[t], s.slots, slots, op)
    requires Step(le, s, s', t, act)
    ensures t < |s'.pcs|
    ensures !s'.pcs[t].Idle? ==> Alone(le, s'.pcs[t], s'.slots, slots, op)
    ensures s'.pcs[t].Idle? ==> DoesAsMap(le, s.pcs[t], s'.slots, |slots|, Dict(slots), op)
  {
    match op
    case Insert(key, value) => InsertLone(le, s, s', t, act, slots, key, value);
    case First => TakeLone(le, s, s', t, act, slots, false);
    case PopFirst => TakeLone(le, s, s', t, act, slots, true);
    case Clear => WipeLone(le, s, s', t, act, slots);
  }

  lemma AloneStarts<K, V>(le: (K, K) -> bool, s: State<K, V>, s': State<K, V>, t: Tid, op: Op<K, V>)
    requires Step(le, s, s', t, Invoke(op)) && s.pcs[t].Idle?
    ensures t < |s'.pcs| && s'.slots == s.slots && Alone(le, s'.pcs[t], s'.slots, s.slots, op)
  {
  }

  /** Between the points `i` and `j` only thread `t` steps, and it does not return. */
  ghost predicate Lone<K, V>(states: seq<State<K, V>>, steps: seq<(Tid, Action<K, V>)>, i: nat, j: nat, t: Tid) {
    && i <= j <= |steps| < |states|
    && (forall k :: i <= k < j ==> steps[k].0 == t)
    && (forall k :: i < k <= j ==> t < |states[k].pcs| && !states[k].pcs[t].Idle?)
  }

  lemma {:induction false} AloneThroughout<K(!new), V>(le: (K, K) -> bool, states: seq<State<K, V>>,
                                                       steps: seq<(Tid, Action<K, V>)>, i: nat, j: nat, t: Tid,
                                                       op: Op<K, V>)
    requires TotalOrder(le) && Run(le, states, steps) && i < j && Lone(states, steps, i, j, t)
    requires steps[i] == (t, Invoke(op)) && t < |states[i].pcs| && states[i].pcs[t].Idle? && Good(states[i].slots)
    ensures Alone(le, states[j].pcs[t], states[j].slots, states[i].slots, op)
    decreases j
  {
    if j == i + 1 {
      assert StepAt(le, states, steps, i);
      AloneStarts(le, states[i], states[j], t, op);
    } else {
      AloneThroughout(le, states, steps, i, j - 1, t, op);
      assert StepAt(le, states, steps, j - 1);
      AloneStep(le, states[j - 1], states[j], t, steps[j - 1].1, states[i].slots, op);
    }
  }

  /** LONE OPERATIONS ARE EXACT: on a table at rest, an operation that no step of another thread
      interrupts does what it does on a finite map, failures included. */
  lemma LoneExact<K(!new), V>(le: (K, K) -> bool, states: seq<State<K, V>>, steps: seq<(Tid, Action<K, V>)>,
                              i: nat, j: nat, t: Tid, op: Op<K, V>)
    requires TotalOrder(le) && Run(le, states, steps) && i < j < |steps| && Lone(states, steps, i, j, t)
    requires steps[i] == (t, Invoke(op)) && t < |states[i].pcs| && states[i].pcs[t].Idle? && Good(states[i].slots)
    requires steps[j].0 == t && t < |states[j + 1].pcs| && states[j + 1].pcs[t].Idle?
    ensures DoesAsMap(le, states[j].pcs[t], states[j + 1].slots, |states[i].slots|, Dict(states[i].slots), op)
  {
    AloneThroughout(le, states, steps, i, j, t, op);
    assert StepAt(le, states, steps, j);
    AloneStep(le, states[j], states[j + 1], t, steps[j].1, states[i].slots, op);
  }
}
