/** Every run of the lock-free deque is a run of the atomic deque. */
module DequeLinearizability {
  import opened Wrappers
  import opened Ring
  import opened DequeSpec
  import opened DequeMachine

  /** The thread owns the slot its operation works on. */
  predicate Holds<T>(pc: Pc<T>) {
    pc.Claimed? || pc.Rollback? || pc.Committed? || pc.Finishing?
  }

  function HeldSlot<T>(pc: Pc<T>, cap: nat): (i: nat)
    requires Holds(pc) && pc.own < cap
    ensures i < cap
  {
    Target(pc.op, pc.own, cap)
  }

  /** Head, tail and length agree, and the capacity is not exceeded. */
  ghost predicate IndexInv<T>(s: State<T>, q: seq<T>) {
    && WellFormed(s)
    && |q| <= s.cap
    && s.tail == At(s.head, |q|, s.cap)
  }

  /** Slots in the circular range hold the items of the sequence in order unless a
      push still has to fill them; slots outside carry nothing a pop may claim. */
  ghost predicate SlotInv<T>(slot: Slot<T>, o: nat, q: seq<T>) {
    && (o < |q| ==> slot.state != EMPTY)
    && (o < |q| && slot.state != WRITING ==> slot.data == Some(q[o]))
    && (o >= |q| ==> slot.state != READY)
    && (slot.state == EMPTY ==> slot.data == None)
  }

  /** What a thread that owns a slot knows about it. */
  ghost predicate OwnerInv<T>(pc: Pc<T>, slot: Slot<T>, o: nat, q: seq<T>)
    requires Holds(pc)
  {
    && slot.state == Held(pc.op)
    && match pc
       case Claimed(op, _) => if op.IsPush() then o >= |q| && slot.data == None else o < |q|
       case Rollback(op, _) => if op.IsPush() then o >= |q| && slot.data == None else o < |q|
       case Committed(op, _) =>
         if op.IsPush() then o < |q| && q[o] == op.item && slot.data == None
         else o >= |q| && slot.data.Some?
       case Finishing(op, _, res) =>
         if op.IsPush() then o < |q| && slot.data == Some(q[o]) && res == Pushed
         else o >= |q| && slot.data == None && res.Popped? && res.got.Some?
  }

  ghost predicate Inv<T>(s: State<T>, q: seq<T>) {
    && IndexInv(s, q)
    && (forall i :: 0 <= i < s.cap ==> SlotInv(s.slots[i], Offset(i, s.head, s.cap), q))
    && (forall t :: t in s.pcs && Holds(s.pcs[t]) ==> ThreadInv(s, q, t))
    && Exclusive(s)
  }

  ghost predicate ThreadInv<T>(s: State<T>, q: seq<T>, t: Tid)
    requires IndexInv(s, q) && t in s.pcs && Holds(s.pcs[t])
  {
    var i := HeldSlot(s.pcs[t], s.cap);
    OwnerInv(s.pcs[t], s.slots[i], Offset(i, s.head, s.cap), q)
  }

  /** No slot is owned by two threads. */
  ghost predicate Exclusive<T>(s: State<T>)
    requires WellFormed(s)
  {
    forall t, u :: t in s.pcs && u in s.pcs && t != u && Holds(s.pcs[t]) && Holds(s.pcs[u]) ==>
      HeldSlot(s.pcs[t], s.cap) != HeldSlot(s.pcs[u], s.cap)
  }

  /** The phase in the atomic deque that a thread's place in the code stands for. */
  function PhaseOf<T>(s: State<T>, t: Tid): Phase<T>
    requires WellFormed(s) && t in s.pcs
  {
    match s.pcs[t]
    case Idle => Free
    case Loop(op) => Pending(op)
    case GotOwn(op, _) => Pending(op)
    case GotBoth(op, _, _) => Pending(op)
    case Claim(op, _) => Pending(op)
    case Claimed(op, _) => Pending(op)
    case Rollback(op, _) => Pending(op)
    case Committed(op, own) =>
      Answered(op, if op.IsPush() then Pushed else Popped(s.slots[Target(op, own, s.cap)].data))
    case Finishing(op, _, res) => Answered(op, res)
  }

  /** The refinement relation. */
  ghost predicate Refines<T>(s: State<T>, a: Spec<T>) {
    && Inv(s, a.q)
    && a.phases.Keys == s.pcs.Keys
    && forall t :: t in s.pcs ==> a.phases[t] == PhaseOf(s, t)
  }

  lemma ShiftRange<T>(s: State<T>, q: seq<T>, op: Op<T>, own: nat)
    requires IndexInv(s, q) && own == Own(s, op)
    requires op.IsPush() <==> Offset(Target(op, own, s.cap), s.head, s.cap) >= |q|
    ensures Apply(q, op).Some?
    ensures var (q', _) := Apply(q, op).value;
            var s' := SetOwn(s, op, Moved(op, own, s.cap));
            && IndexInv(s', q')
            && forall i :: 0 <= i < s.cap && i != Target(op, own, s.cap) ==>
                 SameItem(Offset(i, s.head, s.cap), q, Offset(i, s'.head, s.cap), q')
  {
    SuccCases(own, s.cap);
  }

  lemma ShiftItem<T>(s: State<T>, q: seq<T>, op: Op<T>, own: nat)
    requires IndexInv(s, q) && own == Own(s, op)
    requires op.IsPush() <==> Offset(Target(op, own, s.cap), s.head, s.cap) >= |q|
    ensures Apply(q, op).Some?
    ensures var (q', res) := Apply(q, op).value;
            var i := Target(op, own, s.cap);
            var o := Offset(i, s.head, s.cap);
            var o' := Offset(i, SetOwn(s, op, Moved(op, own, s.cap)).head, s.cap);
            if op.IsPush() then o' < |q'| && q'[o'] == op.item && res == Pushed
            else o' >= |q'| && res == Popped(Some(q[o]))
  {
    SuccCases(own, s.cap);
  }

  /** A successful index compare-and-swap shifts the range by exactly the claimed
      slot: every other slot keeps its item or stays outside. */
  lemma CommitShift<T>(s: State<T>, q: seq<T>, op: Op<T>, own: nat)
    requires IndexInv(s, q) && own == Own(s, op)
    requires op.IsPush() ==> Offset(Target(op, own, s.cap), s.head, s.cap) >= |q|
    requires !op.IsPush() ==> Offset(Target(op, own, s.cap), s.head, s.cap) < |q|
    ensures Apply(q, op).Some?
    ensures var (q', _) := Apply(q, op).value;
            var s' := SetOwn(s, op, Moved(op, own, s.cap));
            && IndexInv(s', q')
            && forall i :: 0 <= i < s.cap && i != Target(op, own, s.cap) ==>
                 SameItem(Offset(i, s.head, s.cap), q, Offset(i, s'.head, s.cap), q')
    ensures var (q', res) := Apply(q, op).value;
            var i := Target(op, own, s.cap);
            var o := Offset(i, s.head, s.cap);
            var o' := Offset(i, SetOwn(s, op, Moved(op, own, s.cap)).head, s.cap);
            if op.IsPush() then o' < |q'| && q'[o'] == op.item && res == Pushed
            else o' >= |q'| && res == Popped(Some(q[o]))
  {
    ShiftRange(s, q, op, own);
    ShiftItem(s, q, op, own);
  }

  /** Thread `t` touched no slot but `i`, which no other thread owns, and the range
      moved at most over `i`: then everything else is still in order. */
  lemma Keep<T>(s: State<T>, q: seq<T>, s': State<T>, q': seq<T>, t: Tid, i: nat)
    requires Inv(s, q) && IndexInv(s', q') && s'.cap == s.cap && i < s.cap
    requires t in s.pcs && t in s'.pcs && s'.pcs == s.pcs[t := s'.pcs[t]]
    requires forall j :: 0 <= j < s.cap && j != i ==>
               && s'.slots[j] == s.slots[j]
               && SameItem(Offset(j, s.head, s.cap), q, Offset(j, s'.head, s.cap), q')
    requires forall u :: u in s.pcs && u != t && Holds(s.pcs[u]) ==> HeldSlot(s.pcs[u], s.cap) != i
    requires SlotInv(s'.slots[i], Offset(i, s'.head, s.cap), q')
    requires Holds(s'.pcs[t]) ==> HeldSlot(s'.pcs[t], s.cap) == i && ThreadInv(s', q', t)
    ensures Inv(s', q')
    ensures forall u :: u in s.pcs && u != t ==> PhaseOf(s', u) == PhaseOf(s, u)
  {
    forall u | u in s'.pcs && Holds(s'.pcs[u])
      ensures ThreadInv(s', q', u)
    {
      if u != t {
        assert ThreadInv(s, q, u);
      }
    }
  }

  /** The position holds the same item before and after, or is outside both times. */
  ghost predicate SameItem<T>(o: nat, q: seq<T>, o': nat, q': seq<T>) {
    (o < |q| <==> o' < |q'|) && (o < |q| ==> q[o] == q'[o'])
  }

  /** A slot in a state no thread owns is not owned. */
  lemma Unowned<T>(s: State<T>, q: seq<T>, i: nat)
    requires Inv(s, q) && i < s.cap && s.slots[i].state in {EMPTY, READY}
    ensures forall u :: u in s.pcs && Holds(s.pcs[u]) ==> HeldSlot(s.pcs[u], s.cap) != i
  {
    forall u | u in s.pcs && Holds(s.pcs[u]) ensures HeldSlot(s.pcs[u], s.cap) != i {
      assert ThreadInv(s, q, u);
    }
  }

  /** Steps that read shared memory and change only the thread's own place. */
  lemma LocalStep<T>(s: State<T>, s': State<T>, a: Spec<T>, a': Spec<T>, t: Tid, pc: Pc<T>)
    requires Refines(s, a) && t in s.pcs && !Holds(s.pcs[t]) && !Holds(pc) && PcInBounds(pc, s.cap)
    requires s' == Goto(s, t, pc)
    requires a' == a.(phases := a.phases[t := PhaseOf(s', t)])
    ensures Refines(s', a')
  {
    forall u | u in s'.pcs && Holds(s'.pcs[u]) ensures ThreadInv(s', a'.q, u) {
      assert ThreadInv(s, a.q, u);
    }
  }

  lemma ClaimRefines<T>(s: State<T>, s': State<T>, ev: Event<T>, a: Spec<T>, op: Op<T>, own: nat)
    returns (a': Spec<T>)
    requires Refines(s, a) && ev.tid in s.pcs && own < s.cap && s.pcs[ev.tid] == Claim(op, own)
    requires StepClaim(s, s', ev, op, own)
    ensures SpecStep(a, a', ev) && Refines(s', a')
  {
    var i := Target(op, own, s.cap);
    if s'.pcs[ev.tid].Claimed? {
      a' := a;
      assert SlotInv(s.slots[i], Offset(i, s.head, s.cap), a.q);
      Unowned(s, a.q, i);
      Keep(s, a.q, s', a.q, ev.tid, i);
    } else {
      a' := a.(phases := a.phases[ev.tid := PhaseOf(s', ev.tid)]);
      LocalStep(s, s', a, a', ev.tid, s'.pcs[ev.tid]);
    }
  }

  /** The claimed slot after the index has moved over it. */
  lemma CommittedSlot<T>(s: State<T>, q: seq<T>, t: Tid, op: Op<T>, own: nat)
    requires Inv(s, q) && t in s.pcs && own < s.cap && s.pcs[t] == Claimed(op, own) && Own(s, op) == own
    ensures Apply(q, op).Some?
    ensures var s' := Goto(SetOwn(s, op, Moved(op, own, s.cap)), t, Committed(op, own));
            var (q', res) := Apply(q, op).value;
            var i := Target(op, own, s.cap);
            && IndexInv(s', q')
            && SlotInv(s'.slots[i], Offset(i, s'.head, s.cap), q') && ThreadInv(s', q', t)
            && PhaseOf(s', t) == Answered(op, res)
  {
    var i := Target(op, own, s.cap);
    assert ThreadInv(s, q, t);
    assert SlotInv(s.slots[i], Offset(i, s.head, s.cap), q);
    CommitShift(s, q, op, own);
  }

  lemma CommitSucceeds<T>(s: State<T>, s': State<T>, ev: Event<T>, a: Spec<T>, op: Op<T>, own: nat)
    returns (a': Spec<T>)
    requires Refines(s, a) && ev.tid in s.pcs && own < s.cap && s.pcs[ev.tid] == Claimed(op, own)
    requires ev.Linearize? && StepCommit(s, s', ev, op, own)
    ensures SpecStep(a, a', ev) && Refines(s', a')
  {
    CommittedSlot(s, a.q, ev.tid, op, own);
    CommitShift(s, a.q, op, own);
    var (q', res) := Apply(a.q, op).value;
    a' := Spec(q', a.phases[ev.tid := Answered(op, res)]);
    assert ThreadInv(s, a.q, ev.tid);
    Keep(s, a.q, s', q', ev.tid, Target(op, own, s.cap));
  }

  lemma CommitRefines<T>(s: State<T>, s': State<T>, ev: Event<T>, a: Spec<T>, op: Op<T>, own: nat)
    returns (a': Spec<T>)
    requires Refines(s, a) && ev.tid in s.pcs && own < s.cap && s.pcs[ev.tid] == Claimed(op, own)
    requires StepCommit(s, s', ev, op, own)
    ensures SpecStep(a, a', ev) && Refines(s', a')
  {
    if ev.Linearize? {
      a' := CommitSucceeds(s, s', ev, a, op, own);
    } else {
      var i := Target(op, own, s.cap);
      assert ThreadInv(s, a.q, ev.tid);
      assert SlotInv(s.slots[i], Offset(i, s.head, s.cap), a.q);
      a' := a;
      Keep(s, a.q, s', a.q, ev.tid, i);
    }
  }

  lemma RollbackRefines<T>(s: State<T>, s': State<T>, a: Spec<T>, t: Tid, op: Op<T>, own: nat)
    requires Refines(s, a) && t in s.pcs && own < s.cap && s.pcs[t] == Rollback(op, own)
    requires s' == Goto(SetSlot(s, Target(op, own, s.cap), Wanted(op)), t, Loop(op))
    ensures Refines(s', a)
  {
    var i := Target(op, own, s.cap);
    assert ThreadInv(s, a.q, t);
    assert SlotInv(s.slots[i], Offset(i, s.head, s.cap), a.q);
    Keep(s, a.q, s', a.q, t, i);
  }

  lemma TransferRefines<T>(s: State<T>, s': State<T>, ev: Event<T>, a: Spec<T>, op: Op<T>, own: nat)
    requires Refines(s, a) && ev.tid in s.pcs && own < s.cap && s.pcs[ev.tid] == Committed(op, own)
    requires StepTransfer(s, s', ev, op, own)
    ensures Refines(s', a)
  {
    var i := Target(op, own, s.cap);
    assert ThreadInv(s, a.q, ev.tid);
    assert SlotInv(s.slots[i], Offset(i, s.head, s.cap), a.q);
    assert PhaseOf(s', ev.tid) == PhaseOf(s, ev.tid);
    Keep(s, a.q, s', a.q, ev.tid, i);
  }

  lemma FinishRefines<T>(s: State<T>, s': State<T>, a: Spec<T>, a': Spec<T>, t: Tid, op: Op<T>, own: nat,
                         res: Result<T>)
    requires Refines(s, a) && t in s.pcs && own < s.cap && s.pcs[t] == Finishing(op, own, res)
    requires s' == Goto(SetSlot(s, Target(op, own, s.cap), Left(op)), t, Idle)
    requires a' == a.(phases := a.phases[t := Free])
    ensures Refines(s', a')
  {
    var i := Target(op, own, s.cap);
    assert ThreadInv(s, a.q, t);
    assert SlotInv(s.slots[i], Offset(i, s.head, s.cap), a.q);
    Keep(s, a.q, s', a.q, t, i);
  }

  /** One step of the machine is one step of the atomic deque with the same event. */
  lemma StepRefines<T>(s: State<T>, s': State<T>, ev: Event<T>, a: Spec<T>) returns (a': Spec<T>)
    requires Refines(s, a) && Step(s, s', ev)
    ensures SpecStep(a, a', ev) && Refines(s', a')
  {
    var t := ev.tid;
    assert a.phases[t] == PhaseOf(s, t);
    match s.pcs[t] {
      case Claim(op, own) => a' := ClaimRefines(s, s', ev, a, op, own);
      case Claimed(op, own) => a' := CommitRefines(s, s', ev, a, op, own);
      case Rollback(op, own) =>
        a' := a;
        RollbackRefines(s, s', a, t, op, own);
      case Committed(op, own) =>
        a' := a;
        TransferRefines(s, s', ev, a, op, own);
      case Finishing(op, own, res) =>
        a' := a.(phases := a.phases[t := Free]);
        FinishRefines(s, s', a, a', t, op, own, res);
      case _ => a' := LocalRefines(s, s', ev, a);
    }
  }

  /** Before its claim a thread writes nothing, and its invocation or giving up is one
      of the atomic deque. */
  lemma LocalEvent<T>(s: State<T>, s': State<T>, ev: Event<T>, a: Spec<T>)
    requires WellFormed(s) && Step(s, s', ev) && ev.tid in a.phases && a.phases[ev.tid] == PhaseOf(s, ev.tid)
    requires var pc := s.pcs[ev.tid]; pc.Idle? || pc.Loop? || pc.GotOwn? || pc.GotBoth?
    ensures ev.tid in s'.pcs && s' == Goto(s, ev.tid, s'.pcs[ev.tid])
    ensures !Holds(s'.pcs[ev.tid]) && PcInBounds(s'.pcs[ev.tid], s.cap) && WellFormed(s')
    ensures SpecStep(a, a.(phases := a.phases[ev.tid := PhaseOf(s', ev.tid)]), ev)
  {
    var p := s'.pcs[ev.tid];
    assert s' == Goto(s, ev.tid, p);
    if ev.Internal? {
      assert a.phases[ev.tid := PhaseOf(s', ev.tid)] == a.phases;
    }
  }

  lemma LocalRefines<T>(s: State<T>, s': State<T>, ev: Event<T>, a: Spec<T>) returns (a': Spec<T>)
    requires Refines(s, a) && Step(s, s', ev)
    requires var pc := s.pcs[ev.tid]; pc.Idle? || pc.Loop? || pc.GotOwn? || pc.GotBoth?
    ensures SpecStep(a, a', ev) && Refines(s', a')
  {
    LocalEvent(s, s', ev, a);
    a' := a.(phases := a.phases[ev.tid := PhaseOf(s', ev.tid)]);
    LocalStep(s, s', a, a', ev.tid, s'.pcs[ev.tid]);
  }

  /** LINEARIZABILITY: the events of any run are those of a run of the atomic deque,
      whose sequence and answers the concrete states agree with throughout. No bound
      on the number of threads or items is needed. */
  lemma {:induction false} Linearizable<T>(states: seq<State<T>>, events: seq<Event<T>>)
    requires Run(states, events)
    ensures exists specs :: RefiningRun(states, specs, events)
  {
    if events == [] {
      var a := Spec([], map t | t in states[0].pcs :: Free);
      InitRefines(states[0], a);
      assert RefiningRun(states, [a], events);
    } else {
      var n := |events| - 1;
      RunPrefix(states, events, n);
      Linearizable(states[..n + 1], events[..n]);
      var specs :| RefiningRun(states[..n + 1], specs, events[..n]);
      OneMore(states, events, specs);
    }
  }

  lemma OneMore<T>(states: seq<State<T>>, events: seq<Event<T>>, specs: seq<Spec<T>>)
    requires Run(states, events) && events != []
    requires RefiningRun(states[..|events|], specs, events[..|events| - 1])
    ensures exists specs' :: RefiningRun(states, specs', events)
  {
    var n := |events| - 1;
    assert states[..n + 1][n] == states[n] && Refines(states[n], specs[n]);
    var a' := StepRefines(states[n], states[n + 1], events[n], specs[n]);
    Extend(states, specs, events, a');
  }

  lemma InitRefines<T>(s: State<T>, a: Spec<T>)
    requires Init(s) && SpecInit(a) && a.phases.Keys == s.pcs.Keys
    ensures Refines(s, a)
  {
    forall i | 0 <= i < s.cap ensures SlotInv(s.slots[i], Offset(i, s.head, s.cap), a.q) {}
  }

  lemma Extend<T>(states: seq<State<T>>, specs: seq<Spec<T>>, events: seq<Event<T>>, a: Spec<T>)
    requires |events| > 0 && |states| == |events| + 1
    requires RefiningRun(states[..|events|], specs, events[..|events| - 1])
    requires SpecStep(specs[|events| - 1], a, events[|events| - 1]) && Refines(states[|events|], a)
    ensures RefiningRun(states, specs + [a], events)
  {
    var all, n := specs + [a], |events|;
    forall k | 0 <= k < n ensures SpecStep(all[k], all[k + 1], events[k]) {
      if k < n - 1 {
        assert events[..n - 1][k] == events[k];
      }
    }
    forall k | 0 <= k < |all| ensures Refines(states[k], all[k]) {
      if k < n {
        assert states[..n][k] == states[k];
      }
    }
  }

  ghost predicate RefiningRun<T>(states: seq<State<T>>, specs: seq<Spec<T>>, events: seq<Event<T>>) {
    && |states| == |specs|
    && SpecRun(specs, events)
    && forall k :: 0 <= k < |specs| ==> Refines(states[k], specs[k])
  }
}
