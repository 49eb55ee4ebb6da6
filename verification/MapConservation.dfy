/** Slot ownership and the fate of every published entry. */
module MapConservation {
  import opened Wrappers
  import opened MapMachine

  /** How a published entry left the map. */
  datatype Fate = PoppedBy(t: Tid) | ReplacedBy(t: Tid) | WipedBy(t: Tid)

  /** The history beside a run: every entry published, by its insert version; the slot
      of each that is still there; and the fate of each that is not. */
  datatype Log<K, V> = Log(published: map<nat, Entry<K, V>>, at: map<nat, nat>, gone: map<nat, Fate>)

  predicate Occupied(word: Word) { word.state == VALID || word.state == DELETING }

  /** The thread owns slot `pc.i`. */
  predicate Holds<K, V>(pc: Pc<K, V>) {
    pc.Write? || pc.Publish? || pc.Check? || pc.Restore? || pc.Republish? || pc.Vacate?
  }

  /** The insertion whose entry is not published yet. */
  function Pending<K, V>(pc: Pc<K, V>): Option<Ins<K, V>> {
    match pc
    case Seek(ins, _, _) => Some(ins)
    case Compare(ins, _, _, _) => Some(ins)
    case Find(ins, _, _) => Some(ins)
    case Write(ins, _) => Some(ins)
    case Publish(ins, _) => Some(ins)
    case Lock(job, _) => if job.Update? then Some(job.ins) else None
    case TryLock(job, _, _) => if job.Update? then Some(job.ins) else None
    case Check(job, _, _) => if job.Update? then Some(job.ins) else None
    case Restore(job, _, _) => if job.Update? then Some(job.ins) else None
    case _ => None
  }

  function Published<K, V>(log: Log<K, V>, ins: Ins<K, V>, i: nat): Log<K, V> {
    log.(published := log.published[ins.version := EntryOf(ins)], at := log.at[ins.version := i])
  }

  function Removed<K, V>(log: Log<K, V>, v: nat, fate: Fate): Log<K, V> {
    log.(at := log.at - {v}, gone := log.gone[v := fate])
  }

  /** What the step of thread `t` from `s` adds to the history: a publication when a
      new entry becomes valid or replaces an old one under the lock, a removal when
      an old entry is replaced or its slot emptied. */
  function Record<K(==), V>(s: State<K, V>, t: Tid, log: Log<K, V>): Log<K, V>
    requires RecordReady(s, t)
  {
    match s.pcs[t]
    case Publish(ins, i) => Published(log, ins, i)
    case Check(job, i, locked) =>
      var entry := s.slots[i].entry.value;
      if job.Update? && Passes(job, entry, locked) then
        Published(Removed(log, entry.insertVersion, ReplacedBy(t)), job.ins, i)
      else log
    case Vacate(out, i) =>
      Removed(log, s.slots[i].entry.value.insertVersion, if out.Popped? then PoppedBy(t) else WipedBy(t))
    case _ => log
  }

  predicate RecordReady<K, V>(s: State<K, V>, t: Tid) {
    && t < |s.pcs|
    && match s.pcs[t]
       case Check(_, i, _) => i < |s.slots| && s.slots[i].entry.Some?
       case Vacate(_, i) => i < |s.slots| && s.slots[i].entry.Some?
       case _ => true
  }

  ghost predicate SlotInv<K, V>(slot: Slot<K, V>, i: nat, log: Log<K, V>) {
    && (Occupied(slot.word) ==>
          && slot.entry.Some?
          && slot.entry.value.insertVersion in log.at && log.at[slot.entry.value.insertVersion] == i)
    && (slot.word.state == VALID ==> slot.entry.value.slotVersion == slot.word.version)
    && (slot.word.state == EMPTY ==> slot.word.version == 0)
  }

  ghost predicate LogInv<K, V>(slots: seq<Slot<K, V>>, next: nat, log: Log<K, V>) {
    && log.published.Keys == log.at.Keys + log.gone.Keys
    && log.at.Keys !! log.gone.Keys
    && (forall v :: v in log.published ==>
          && v < next
          && log.published[v].insertVersion == v && log.published[v].slotVersion == v % VERSIONS)
    && (forall v :: v in log.at ==>
          && log.at[v] < |slots| && Occupied(slots[log.at[v]].word)
          && slots[log.at[v]].entry == Some(log.published[v]))
  }

  /** What a thread knows about the slot it owns. */
  ghost predicate OwnerInv<K, V>(pc: Pc<K, V>, slot: Slot<K, V>)
    requires Holds(pc)
  {
    match pc
    case Write(ins, _) => slot.word == Word(WRITING, ins.version % VERSIONS)
    case Publish(ins, _) => slot.word == Word(WRITING, ins.version % VERSIONS) && slot.entry == Some(EntryOf(ins))
    case Check(_, _, locked) =>
      slot.word == Word(DELETING, locked) && slot.entry.Some? && slot.entry.value.slotVersion == locked
    case Restore(_, _, locked) =>
      slot.word == Word(DELETING, locked) && slot.entry.Some? && slot.entry.value.slotVersion == locked
    case Republish(ins, _) => slot.word.state == DELETING && slot.entry == Some(EntryOf(ins))
    case Vacate(out, _) =>
      && slot.word.state == DELETING && slot.entry.Some?
      && (out.Popped? ==> slot.entry.value.key == out.key && slot.entry.value.value == out.value)
  }

  ghost predicate ThreadInv<K, V>(s: State<K, V>, log: Log<K, V>, t: Tid)
    requires t < |s.pcs|
  {
    var pc := s.pcs[t];
    && (Holds(pc) ==> pc.i < |s.slots| && OwnerInv(pc, s.slots[pc.i]))
    && (Pending(pc).Some? ==>
          Pending(pc).value.version < s.nextVersion && Pending(pc).value.version !in log.published)
  }

  /** Two threads neither own the same slot nor carry the same insert version. */
  ghost predicate Apart<K, V>(pc: Pc<K, V>, pc': Pc<K, V>) {
    && (Holds(pc) && Holds(pc') ==> pc.i != pc'.i)
    && (Pending(pc).Some? && Pending(pc').Some? ==> Pending(pc).value.version != Pending(pc').value.version)
  }

  ghost predicate Inv<K, V>(s: State<K, V>, log: Log<K, V>) {
    && LogInv(s.slots, s.nextVersion, log)
    && (forall i :: 0 <= i < |s.slots| ==> SlotInv(s.slots[i], i, log))
    && (forall t :: 0 <= t < |s.pcs| ==> ThreadInv(s, log, t))
    && (forall t, u :: 0 <= t < u < |s.pcs| ==> Apart(s.pcs[t], s.pcs[u]))
  }

  /** Thread `t` touched no slot but `i`, which no other thread owns; nothing published
      was forgotten, and nothing was published but what `t` carried. */
  lemma Keep<K, V>(s: State<K, V>, log: Log<K, V>, s': State<K, V>, log': Log<K, V>, t: Tid, i: nat)
    requires Inv(s, log) && t < |s.pcs| && |s'.pcs| == |s.pcs| && s'.pcs == s.pcs[t := s'.pcs[t]]
    requires |s'.slots| == |s.slots|
    requires s.nextVersion <= s'.nextVersion
    requires forall j :: 0 <= j < |s.slots| && j != i ==>
               s'.slots[j] == s.slots[j] && SlotInv(s'.slots[j], j, log')
    requires i < |s.slots| ==> SlotInv(s'.slots[i], i, log')
    requires forall u :: 0 <= u < |s.pcs| && u != t && Holds(s.pcs[u]) ==> s.pcs[u].i != i
    requires forall v :: v in log'.published && v !in log.published ==>
               Pending(s.pcs[t]).Some? && v == Pending(s.pcs[t]).value.version
    requires ThreadInv(s', log', t) && LogInv(s'.slots, s'.nextVersion, log')
    requires forall u :: 0 <= u < |s.pcs| && u != t ==> Apart(s.pcs[u], s'.pcs[t])
    ensures Inv(s', log')
  {
    forall u | 0 <= u < |s'.pcs| ensures ThreadInv(s', log', u) {
      assert ThreadInv(s, log, u);
      if u != t {
        assert if u < t then Apart(s.pcs[u], s.pcs[t]) else Apart(s.pcs[t], s.pcs[u]);
      }
    }
    forall u, w | 0 <= u < w < |s'.pcs| ensures Apart(s'.pcs[u], s'.pcs[w]) {
      assert Apart(s.pcs[u], s.pcs[w]);
    }
  }

  lemma ApartFrom<K, V>(s: State<K, V>, log: Log<K, V>, t: Tid, u: Tid)
    requires Inv(s, log) && t < |s.pcs| && u < |s.pcs| && u != t
    ensures Apart(s.pcs[u], s.pcs[t]) && ThreadInv(s, log, u)
  {
    assert if u < t then Apart(s.pcs[u], s.pcs[t]) else Apart(s.pcs[t], s.pcs[u]);
  }

  /** A slot in a state no thread owns is not owned. */
  lemma Unowned<K, V>(s: State<K, V>, log: Log<K, V>, i: nat, u: Tid)
    requires Inv(s, log) && i < |s.slots| && u < |s.pcs| && s.slots[i].word.state in {EMPTY, VALID}
    ensures ThreadInv(s, log, u) && (Holds(s.pcs[u]) ==> s.pcs[u].i != i)
  {
    assert ThreadInv(s, log, u);
  }

  /** Steps that change only the thread's own place and perhaps the length counter. */
  lemma LocalKeeps<K, V>(s: State<K, V>, s': State<K, V>, log: Log<K, V>, t: Tid)
    requires Inv(s, log) && t < |s.pcs| == |s'.pcs| && !Holds(s.pcs[t]) && !Holds(s'.pcs[t])
    requires s'.pcs == s.pcs[t := s'.pcs[t]] && s'.slots == s.slots && s'.nextVersion == s.nextVersion
    requires Pending(s'.pcs[t]) == Pending(s.pcs[t]) || Pending(s'.pcs[t]) == None
    ensures Inv(s', log)
  {
    assert ThreadInv(s, log, t);
    forall u | 0 <= u < |s.pcs| && u != t
      ensures Apart(s.pcs[u], s'.pcs[t]) && (Holds(s.pcs[u]) ==> s.pcs[u].i != |s.slots|)
    {
      ApartFrom(s, log, t, u);
    }
    forall j | 0 <= j < |s.slots| ensures SlotInv(s'.slots[j], j, log) {
      assert SlotInv(s.slots[j], j, log);
    }
    Keep(s, log, s', log, t, |s.slots|);
  }

  lemma StartKeeps<K, V>(s: State<K, V>, s': State<K, V>, log: Log<K, V>, t: Tid)
    requires Inv(s, log) && t < |s.pcs| && s.pcs[t].Start? && InsertStep(s, s', t, Go)
    ensures Inv(s', log)
  {
    forall u | 0 <= u < |s.pcs| && u != t
      ensures Apart(s.pcs[u], s'.pcs[t]) && (Holds(s.pcs[u]) ==> s.pcs[u].i != |s.slots|)
    {
      ApartFrom(s, log, t, u);
    }
    forall j | 0 <= j < |s.slots| ensures SlotInv(s'.slots[j], j, log) {
      assert SlotInv(s.slots[j], j, log);
    }
    Keep(s, log, s', log, t, |s.slots|);
  }

  /** Claiming slot `i`, empty for writing or valid for deletion. */
  lemma ClaimKeeps<K, V>(s: State<K, V>, s': State<K, V>, log: Log<K, V>, t: Tid, i: nat, word: Word)
    requires Inv(s, log) && t < |s.pcs| == |s'.pcs| && i < |s.slots| && !Holds(s.pcs[t])
    requires s' == Goto(SetWord(s, i, word), t, s'.pcs[t])
    requires Holds(s'.pcs[t]) && s'.pcs[t].i == i && OwnerInv(s'.pcs[t], s'.slots[i])
    requires Pending(s'.pcs[t]) == Pending(s.pcs[t])
    requires (s.slots[i].word.state == EMPTY && word.state == WRITING)
          || (s.slots[i].word.state == VALID && word.state == DELETING)
    ensures Inv(s', log)
  {
    assert ThreadInv(s, log, t);
    forall u | 0 <= u < |s.pcs| && u != t
      ensures Apart(s.pcs[u], s'.pcs[t]) && (Holds(s.pcs[u]) ==> s.pcs[u].i != i)
    {
      ApartFrom(s, log, t, u);
      Unowned(s, log, i, u);
    }
    forall j | 0 <= j < |s.slots| ensures SlotInv(s'.slots[j], j, log) {
      assert SlotInv(s.slots[j], j, log);
    }
    Keep(s, log, s', log, t, i);
  }

  /** The owner of slot `i` works on it. */
  lemma OwnerKeeps<K, V>(s: State<K, V>, s': State<K, V>, log: Log<K, V>, log': Log<K, V>, t: Tid, i: nat)
    requires Inv(s, log) && t < |s.pcs| == |s'.pcs| && i < |s.slots| == |s'.slots|
    requires Holds(s.pcs[t]) && s.pcs[t].i == i && (Holds(s'.pcs[t]) ==> s'.pcs[t].i == i)
    requires s'.pcs == s.pcs[t := s'.pcs[t]] && s'.slots == s.slots[i := s'.slots[i]] && s'.nextVersion == s.nextVersion
    requires Pending(s'.pcs[t]) == Pending(s.pcs[t]) || Pending(s'.pcs[t]) == None
    requires ThreadInv(s', log', t) && LogInv(s'.slots, s'.nextVersion, log') && SlotInv(s'.slots[i], i, log')
    requires forall v :: v in log.at && log.at[v] != i ==> v in log'.at && log'.at[v] == log.at[v]
    requires forall v :: v in log'.published && v !in log.published ==>
               Pending(s.pcs[t]).Some? && v == Pending(s.pcs[t]).value.version
    ensures Inv(s', log')
  {
    forall u | 0 <= u < |s.pcs| && u != t
      ensures Apart(s.pcs[u], s'.pcs[t]) && (Holds(s.pcs[u]) ==> s.pcs[u].i != i)
    {
      ApartFrom(s, log, t, u);
    }
    forall j | 0 <= j < |s.slots| ensures SlotInv(s'.slots[j], j, log') {
      assert SlotInv(s.slots[j], j, log);
    }
    Keep(s, log, s', log', t, i);
  }

  lemma PublishLog<K, V>(slots: seq<Slot<K, V>>, next: nat, log: Log<K, V>, ins: Ins<K, V>, i: nat, word: Word)
    requires LogInv(slots, next, log) && i < |slots| && ins.version < next && ins.version !in log.published
    requires forall v :: v in log.at ==> log.at[v] != i
    requires slots[i].entry == Some(EntryOf(ins)) && Occupied(word)
    ensures LogInv(slots[i := slots[i].(word := word)], next, Published(log, ins, i))
  {
  }

  lemma RemoveLog<K, V>(slots: seq<Slot<K, V>>, next: nat, log: Log<K, V>, v: nat, i: nat, slot: Slot<K, V>, fate: Fate)
    requires LogInv(slots, next, log) && i < |slots| && v in log.at && log.at[v] == i
    requires forall j :: 0 <= j < |slots| ==> SlotInv(slots[j], j, log)
    ensures v !in log.gone && LogInv(slots[i := slot], next, Removed(log, v, fate))
    ensures forall w :: w in Removed(log, v, fate).at ==> Removed(log, v, fate).at[w] != i
  {
    assert SlotInv(slots[i], i, log);
  }

  lemma PublishKeeps<K, V>(s: State<K, V>, s': State<K, V>, log: Log<K, V>, t: Tid, ins: Ins<K, V>, i: nat)
    requires Inv(s, log) && t < |s.pcs| && s.pcs[t] == Publish(ins, i) && i < |s.slots|
    requires s' == Goto(SetWord(s, i, Word(VALID, ins.version % VERSIONS)), t, Add)
    ensures Inv(s', Published(log, ins, i))
  {
    assert ThreadInv(s, log, t) && SlotInv(s.slots[i], i, log);
    PublishLog(s.slots, s.nextVersion, log, ins, i, Word(VALID, ins.version % VERSIONS));
    OwnerKeeps(s, s', log, Published(log, ins, i), t, i);
  }

  lemma ReplaceLog<K, V>(slots: seq<Slot<K, V>>, next: nat, log: Log<K, V>, v: nat, ins: Ins<K, V>, i: nat, fate: Fate)
    requires LogInv(slots, next, log) && i < |slots| && v in log.at && log.at[v] == i && Occupied(slots[i].word)
    requires forall j :: 0 <= j < |slots| ==> SlotInv(slots[j], j, log)
    requires ins.version < next && ins.version !in log.published
    ensures v !in log.gone
    ensures LogInv(slots[i := slots[i].(entry := Some(EntryOf(ins)))], next, Published(Removed(log, v, fate), ins, i))
  {
    var slot := slots[i].(entry := Some(EntryOf(ins)));
    RemoveLog(slots, next, log, v, i, slot, fate);
    PublishLog(slots[i := slot], next, Removed(log, v, fate), ins, i, slot.word);
    assert slots[i := slot][i := slot] == slots[i := slot];
  }

  /** What a replacement leaves alone in the history. */
  lemma ReplaceFrame<K, V>(log: Log<K, V>, v: nat, ins: Ins<K, V>, i: nat, fate: Fate)
    requires v in log.at && log.at[v] == i && ins.version !in log.at
    ensures var log' := Published(Removed(log, v, fate), ins, i);
            && (forall w :: w in log.at && log.at[w] != i ==> w in log'.at && log'.at[w] == log.at[w])
            && (forall w :: w in log'.published && w !in log.published ==> w == ins.version)
  {
  }

  /** What a replacement means for the thread, the slot and the history. */
  lemma ReplaceLocal<K, V>(s: State<K, V>, s': State<K, V>, log: Log<K, V>, t: Tid, ins: Ins<K, V>, i: nat, fate: Fate)
    requires Inv(s, log) && t < |s.pcs| && s.pcs[t].Check? && s.pcs[t].i == i && s.pcs[t].job.Update?
    requires s.pcs[t].job.ins == ins
    requires i < |s.slots| && s.slots[i].entry.Some?
    requires s' == Goto(SetEntry(s, i, EntryOf(ins)), t, Republish(ins, i))
    ensures var v := s.slots[i].entry.value.insertVersion;
            var log' := Published(Removed(log, v, fate), ins, i);
            && v !in log.gone && v in log.at && log.at[v] == i && ins.version !in log.at
            && ThreadInv(s', log', t) && LogInv(s'.slots, s'.nextVersion, log') && SlotInv(s'.slots[i], i, log')
            && Pending(s.pcs[t]) == Some(ins) && Pending(s'.pcs[t]) == None
  {
    assert ThreadInv(s, log, t) && SlotInv(s.slots[i], i, log);
    ReplaceLog(s.slots, s.nextVersion, log, s.slots[i].entry.value.insertVersion, ins, i, fate);
    assert s'.slots == s.slots[i := s.slots[i].(entry := Some(EntryOf(ins)))];
    assert s'.pcs[t] == Republish(ins, i);
  }

  lemma ReplaceKeeps<K, V>(s: State<K, V>, s': State<K, V>, log: Log<K, V>, t: Tid, ins: Ins<K, V>, i: nat, fate: Fate)
    requires Inv(s, log) && t < |s.pcs| && s.pcs[t].Check? && s.pcs[t].i == i && s.pcs[t].job.Update?
    requires s.pcs[t].job.ins == ins
    requires i < |s.slots| && s.slots[i].entry.Some?
    requires s' == Goto(SetEntry(s, i, EntryOf(ins)), t, Republish(ins, i))
    ensures var v := s.slots[i].entry.value.insertVersion;
            v !in log.gone && Inv(s', Published(Removed(log, v, fate), ins, i))
  {
    var v := s.slots[i].entry.value.insertVersion;
    ReplaceLocal(s, s', log, t, ins, i, fate);
    ReplaceFrame(log, v, ins, i, fate);
    OwnerKeeps(s, s', log, Published(Removed(log, v, fate), ins, i), t, i);
  }

  lemma CheckKeeps<K, V>(s: State<K, V>, s': State<K, V>, log: Log<K, V>, t: Tid, job: Job<K, V>, i: nat, locked: nat)
    requires Inv(s, log) && t < |s.pcs| && s.pcs[t] == Check(job, i, locked) && CheckStep(s, s', t, job, i, locked)
    requires !s'.pcs[t].Republish?
    ensures Inv(s', log)
  {
    assert ThreadInv(s, log, t) && SlotInv(s.slots[i], i, log);
    OwnerKeeps(s, s', log, log, t, i);
  }

  lemma VacateKeeps<K, V>(s: State<K, V>, s': State<K, V>, log: Log<K, V>, t: Tid, out: Out<K, V>, i: nat, fate: Fate)
    requires Inv(s, log) && t < |s.pcs| && s.pcs[t] == Vacate(out, i) && i < |s.slots|
    requires s' == Goto(SetWord(s, i, Word(EMPTY, 0)), t, Subtract(out, i))
    ensures s.slots[i].entry.Some?
    ensures var v := s.slots[i].entry.value.insertVersion;
            v !in log.gone && Inv(s', Removed(log, v, fate))
  {
    assert ThreadInv(s, log, t) && SlotInv(s.slots[i], i, log);
    var v := s.slots[i].entry.value.insertVersion;
    RemoveLog(s.slots, s.nextVersion, log, v, i, s'.slots[i], fate);
    OwnerKeeps(s, s', log, Removed(log, v, fate), t, i);
  }

  lemma WriteKeeps<K, V>(s: State<K, V>, s': State<K, V>, log: Log<K, V>, t: Tid, ins: Ins<K, V>, i: nat)
    requires Inv(s, log) && t < |s.pcs| && s.pcs[t] == Write(ins, i) && i < |s.slots|
    requires s' == Goto(SetEntry(s, i, EntryOf(ins)), t, Publish(ins, i))
    ensures Inv(s', log)
  {
    assert ThreadInv(s, log, t) && SlotInv(s.slots[i], i, log);
    OwnerKeeps(s, s', log, log, t, i);
  }

  /** Making a locked slot valid again, with its old entry or its new one. */
  lemma ReleaseKeeps<K, V>(s: State<K, V>, s': State<K, V>, log: Log<K, V>, t: Tid, i: nat, version: nat)
    requires Inv(s, log) && t < |s.pcs| == |s'.pcs| && i < |s.slots|
    requires match s.pcs[t]
             case Restore(_, j, locked) => i == j && version == locked
             case Republish(ins, j) => i == j && version == ins.version % VERSIONS
             case _ => false
    requires s' == Goto(SetWord(s, i, Word(VALID, version)), t, s'.pcs[t]) && !Holds(s'.pcs[t])
    requires Pending(s'.pcs[t]) == Pending(s.pcs[t]) || Pending(s'.pcs[t]) == None
    ensures Inv(s', log)
  {
    assert ThreadInv(s, log, t) && SlotInv(s.slots[i], i, log);
    OwnerKeeps(s, s', log, log, t, i);
  }

  lemma FindKeeps<K, V>(s: State<K, V>, s': State<K, V>, t: Tid, act: Action<K, V>, log: Log<K, V>)
    requires Inv(s, log) && t < |s.pcs| && s.pcs[t].Find? && InsertStep(s, s', t, act)
    ensures Inv(s', log)
  {
    if s'.pcs[t].Write? {
      ClaimKeeps(s, s', log, t, s.pcs[t].i, Word(WRITING, s.pcs[t].ins.version % VERSIONS));
    } else {
      LocalKeeps(s, s', log, t);
    }
  }

  lemma InsertKeeps<K, V>(s: State<K, V>, s': State<K, V>, t: Tid, act: Action<K, V>, log: Log<K, V>)
    requires Inv(s, log) && t < |s.pcs| && InsertStep(s, s', t, act)
    ensures RecordReady(s, t) && Inv(s', Record(s, t, log))
  {
    match s.pcs[t]
    case Start(_, _) => StartKeeps(s, s', log, t);
    case Find(_, _, _) => FindKeeps(s, s', t, act, log);
    case Write(ins, i) => WriteKeeps(s, s', log, t, ins, i);
    case Publish(ins, i) => PublishKeeps(s, s', log, t, ins, i);
    case _ => LocalKeeps(s, s', log, t);
  }

  lemma TryLockKeeps<K, V>(s: State<K, V>, s': State<K, V>, log: Log<K, V>, t: Tid, job: Job<K, V>, i: nat, locked: nat)
    requires Inv(s, log) && t < |s.pcs| && s.pcs[t] == TryLock(job, i, locked) && TryLockStep(s, s', t, job, i, locked)
    ensures Inv(s', log)
  {
    assert SlotInv(s.slots[i], i, log);
    if s'.pcs[t].Check? {
      ClaimKeeps(s, s', log, t, i, Word(DELETING, locked));
    } else {
      LocalKeeps(s, s', log, t);
    }
  }

  /** The steps of a thread that owns a slot it means to delete or update. */
  lemma HolderKeeps<K, V>(le: (K, K) -> bool, s: State<K, V>, s': State<K, V>, t: Tid, act: Action<K, V>,
                          log: Log<K, V>)
    requires Inv(s, log) && Step(le, s, s', t, act)
    requires var pc := s.pcs[t]; pc.Check? || pc.Restore? || pc.Republish? || pc.Vacate?
    ensures RecordReady(s, t) && Inv(s', Record(s, t, log))
  {
    match s.pcs[t]
    case Check(job, i, locked) =>
      if s'.pcs[t].Republish? {
        ReplaceKeeps(s, s', log, t, job.ins, i, ReplacedBy(t));
      } else {
        CheckKeeps(s, s', log, t, job, i, locked);
      }
    case Restore(_, i, locked) => ReleaseKeeps(s, s', log, t, i, locked);
    case Republish(ins, i) => ReleaseKeeps(s, s', log, t, i, ins.version % VERSIONS);
    case Vacate(out, i) => VacateKeeps(s, s', log, t, out, i, if out.Popped? then PoppedBy(t) else WipedBy(t));
  }

  lemma ScanKeeps<K, V>(le: (K, K) -> bool, s: State<K, V>, s': State<K, V>, t: Tid, act: Action<K, V>, log: Log<K, V>)
    requires Inv(s, log) && t < |s.pcs| && ScanStep(le, s, s', t, act)
    ensures RecordReady(s, t) && Record(s, t, log) == log && Inv(s', log)
  {
    LocalKeeps(s, s', log, t);
  }

  /** Every step keeps the invariant, with its history record. */
  lemma StepKeeps<K, V>(le: (K, K) -> bool, s: State<K, V>, s': State<K, V>, t: Tid, act: Action<K, V>, log: Log<K, V>)
    requires Inv(s, log) && Step(le, s, s', t, act)
    ensures RecordReady(s, t) && Inv(s', Record(s, t, log))
  {
    var pc := s.pcs[t];
    if pc.Check? || pc.Restore? || pc.Republish? || pc.Vacate? {
      HolderKeeps(le, s, s', t, act, log);
    } else if pc.TryLock? {
      TryLockKeeps(s, s', log, t, pc.job, pc.i, pc.locked);
    } else if pc.Scan? || pc.Verify? || pc.Reload? || pc.Copy? {
      ScanKeeps(le, s, s', t, act, log);
    } else if pc.Idle? || pc.Lock? || pc.Subtract? || pc.Peeked? || pc.Sweep? {
      LocalKeeps(s, s', log, t);
    } else {
      InsertKeeps(s, s', t, act, log);
    }
  }

  lemma InitHolds<K, V>(s: State<K, V>)
    requires Init(s)
    ensures Inv(s, Log(map[], map[], map[]))
  {
  }

  /** The history of a run after its first `k` steps. */
  ghost function History<K, V>(states: seq<State<K, V>>, steps: seq<(Tid, Action<K, V>)>, k: nat): Log<K, V>
    requires k <= |steps| < |states|
  {
    if k == 0 then Log(map[], map[], map[])
    else
      var before := History(states, steps, k - 1);
      if RecordReady(states[k - 1], steps[k - 1].0) then Record(states[k - 1], steps[k - 1].0, before) else before
  }

  /** In every state of every run the invariant holds of the history so far. */
  lemma {:induction false} HistoryHolds<K, V>(le: (K, K) -> bool, states: seq<State<K, V>>,
                                              steps: seq<(Tid, Action<K, V>)>, k: nat)
    requires Run(le, states, steps) && k <= |steps|
    ensures Inv(states[k], History(states, steps, k))
  {
    if k == 0 {
      InitHolds(states[0]);
    } else {
      HistoryHolds(le, states, steps, k - 1);
      HistoryStep(le, states, steps, k - 1);
    }
  }

  /** One step of a run, and what it adds to the history. */
  lemma HistoryStep<K, V>(le: (K, K) -> bool, states: seq<State<K, V>>, steps: seq<(Tid, Action<K, V>)>, k: nat)
    requires Run(le, states, steps) && k < |steps| && Inv(states[k], History(states, steps, k))
    ensures RecordReady(states[k], steps[k].0) && Step(le, states[k], states[k + 1], steps[k].0, steps[k].1)
    ensures History(states, steps, k + 1) == Record(states[k], steps[k].0, History(states, steps, k))
    ensures Inv(states[k + 1], History(states, steps, k + 1))
  {
    assert StepAt(le, states, steps, k);
    StepKeeps(le, states[k], states[k + 1], steps[k].0, steps[k].1, History(states, steps, k));
  }

  /** Slot `i` holds the entry with insert version `v`. */
  predicate Carries<K, V>(s: State<K, V>, i: nat, v: nat) {
    i < |s.slots| && Occupied(s.slots[i].word) && s.slots[i].entry.Some? && s.slots[i].entry.value.insertVersion == v
  }

  /** CONSERVATION: at any moment of any run, a published entry is, unchanged, in
      exactly one slot and has no fate, or it has a fate and is in no slot. */
  lemma Conservation<K, V>(le: (K, K) -> bool, states: seq<State<K, V>>, steps: seq<(Tid, Action<K, V>)>, k: nat,
                           v: nat)
    requires Run(le, states, steps) && k <= |steps|
    requires v in History(states, steps, k).published
    ensures var log := History(states, steps, k);
            if v in log.gone then forall i: nat :: !Carries(states[k], i, v)
            else exists i: nat :: Carries(states[k], i, v) && states[k].slots[i].entry == Some(log.published[v])
                   && forall j: nat :: Carries(states[k], j, v) ==> j == i
  {
    HistoryHolds(le, states, steps, k);
    var log, s := History(states, steps, k), states[k];
    forall i: nat | Carries(s, i, v) ensures v in log.at && log.at[v] == i {
      assert SlotInv(s.slots[i], i, log);
    }
    if v !in log.gone {
      assert Carries(s, log.at[v], v);
    }
  }

  /** A fate is final, an entry is published once and for all, and a pop, a
      replacement or a wipe takes an entry that had no fate: never twice. */
  lemma FateOnce<K, V>(le: (K, K) -> bool, s: State<K, V>, s': State<K, V>, t: Tid, act: Action<K, V>, log: Log<K, V>)
    requires Inv(s, log) && Step(le, s, s', t, act)
    ensures RecordReady(s, t)
    ensures var log' := Record(s, t, log);
            && (forall v :: v in log.gone ==> v in log'.gone && log'.gone[v] == log.gone[v])
            && (forall v :: v in log.published ==> v in log'.published && log'.published[v] == log.published[v])
    ensures s.pcs[t].Vacate? && s.pcs[t].out.Popped? ==>
              var e := s.slots[s.pcs[t].i].entry.value;
              && e.insertVersion in log.published && log.published[e.insertVersion] == e && e.insertVersion !in log.gone
              && (e.key, e.value) == (s.pcs[t].out.key, s.pcs[t].out.value)
              && Record(s, t, log).gone[e.insertVersion] == PoppedBy(t)
  {
    StepKeeps(le, s, s', t, act, log);
    OwnRecord(s, log, t);
  }

  /** What the history gains when thread `t` takes its next step. */
  lemma OwnRecord<K, V>(s: State<K, V>, log: Log<K, V>, t: Tid)
    requires Inv(s, log) && RecordReady(s, t)
    ensures var log' := Record(s, t, log);
            && (forall v :: v in log.gone ==> v in log'.gone && log'.gone[v] == log.gone[v])
            && (forall v :: v in log.published ==> v in log'.published && log'.published[v] == log.published[v])
    ensures s.pcs[t].Vacate? && s.pcs[t].out.Popped? ==>
              var e := s.slots[s.pcs[t].i].entry.value;
              && e.insertVersion in log.published && log.published[e.insertVersion] == e && e.insertVersion !in log.gone
              && (e.key, e.value) == (s.pcs[t].out.key, s.pcs[t].out.value)
              && Record(s, t, log).gone[e.insertVersion] == PoppedBy(t)
  {
    assert ThreadInv(s, log, t);
    if Holds(s.pcs[t]) {
      assert SlotInv(s.slots[s.pcs[t].i], s.pcs[t].i, log);
    }
  }

  /** The step from state `k` is the one in which a pop empties its slot; the insert version
      of the entry it takes. */
  predicate PopsAt<K, V>(states: seq<State<K, V>>, steps: seq<(Tid, Action<K, V>)>, k: nat, v: nat) {
    && k < |steps| < |states| && steps[k].0 < |states[k].pcs|
    && var pc := states[k].pcs[steps[k].0];
       pc.Vacate? && pc.out.Popped? && Carries(states[k], pc.i, v)
  }

  ghost predicate FatesFinal<K, V>(logs: seq<Log<K, V>>) {
    forall i {:trigger logs[i]} :: 0 < i < |logs| ==> logs[i - 1].gone.Keys <= logs[i].gone.Keys
  }

  lemma {:induction false} GoneForGood<K, V>(logs: seq<Log<K, V>>, k: nat, m: nat, v: nat)
    requires FatesFinal(logs) && k <= m < |logs| && v in logs[k].gone
    ensures v in logs[m].gone
  {
    if k == m {
    } else {
      GoneForGood(logs, k, m - 1, v);
    }
  }

  lemma GoneStep<K, V>(le: (K, K) -> bool, states: seq<State<K, V>>, steps: seq<(Tid, Action<K, V>)>, k: nat)
    requires Run(le, states, steps) && k < |steps|
    ensures forall v :: v in History(states, steps, k).gone ==> v in History(states, steps, k + 1).gone
  {
    HistoryHolds(le, states, steps, k);
    HistoryStep(le, states, steps, k);
    FateOnce(le, states[k], states[k + 1], steps[k].0, steps[k].1, History(states, steps, k));
  }

  /** The histories of all prefixes of a run. */
  ghost function Histories<K, V>(states: seq<State<K, V>>, steps: seq<(Tid, Action<K, V>)>): (logs: seq<Log<K, V>>)
    requires |steps| < |states|
    ensures |logs| == |steps| + 1
  {
    seq(|steps| + 1, k requires 0 <= k <= |steps| => History(states, steps, k))
  }

  lemma FatesAreFinal<K, V>(le: (K, K) -> bool, states: seq<State<K, V>>, steps: seq<(Tid, Action<K, V>)>)
    requires Run(le, states, steps)
    ensures FatesFinal(Histories(states, steps))
  {
    var logs := Histories(states, steps);
    forall i {:trigger logs[i]} | 0 < i < |logs| ensures logs[i - 1].gone.Keys <= logs[i].gone.Keys {
      GoneStep(le, states, steps, i - 1);
    }
  }

  lemma PopEnds<K, V>(le: (K, K) -> bool, states: seq<State<K, V>>, steps: seq<(Tid, Action<K, V>)>, k: nat, v: nat)
    requires Run(le, states, steps) && PopsAt(states, steps, k, v)
    ensures var logs := Histories(states, steps);
            k < |steps| && v !in logs[k].gone && v in logs[k + 1].gone
  {
    HistoryHolds(le, states, steps, k);
    HistoryStep(le, states, steps, k);
    FateOnce(le, states[k], states[k + 1], steps[k].0, steps[k].1, History(states, steps, k));
  }

  lemma EndsOnce<K, V>(logs: seq<Log<K, V>>, k: nat, m: nat, v: nat)
    requires FatesFinal(logs) && k + 1 < |logs| && m + 1 < |logs|
    requires v !in logs[k].gone && v in logs[k + 1].gone && v !in logs[m].gone && v in logs[m + 1].gone
    ensures k == m
  {
    if k < m {
      GoneForGood(logs, k + 1, m, v);
    } else if m < k {
      GoneForGood(logs, m + 1, k, v);
    }
  }

  /** NEVER TWICE: in no run do two pops return the same published entry. */
  lemma PoppedOnce<K, V>(le: (K, K) -> bool, states: seq<State<K, V>>, steps: seq<(Tid, Action<K, V>)>,
                         k: nat, m: nat, v: nat)
    requires Run(le, states, steps) && PopsAt(states, steps, k, v) && PopsAt(states, steps, m, v)
    ensures k == m
  {
    PopEnds(le, states, steps, k, v);
    PopEnds(le, states, steps, m, v);
    FatesAreFinal(le, states, steps);
    EndsOnce(Histories(states, steps), k, m, v);
  }
}
