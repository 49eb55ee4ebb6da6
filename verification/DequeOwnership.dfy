/** Slot ownership, the shape of the resting deque, and conservation of items. */
module DequeOwnership {
  import opened Wrappers
  import opened Ring
  import opened DequeSpec
  import opened DequeMachine
  import opened DequeLinearizability

  ghost predicate OwnedBy<T>(s: State<T>, i: nat, t: Tid)
    requires WellFormed(s) && i < s.cap
  {
    t in s.pcs && Holds(s.pcs[t]) && HeldSlot(s.pcs[t], s.cap) == i
  }

  /** Every slot being written or read is so by some thread. */
  ghost predicate Owned<T>(s: State<T>)
    requires WellFormed(s)
  {
    forall i :: 0 <= i < s.cap && s.slots[i].state in {WRITING, READING} ==> exists t :: OwnedBy(s, i, t)
  }

  /** A step leaves every slot alone but the one its thread owns before or after it; a
      slot it gives up is EMPTY or READY. */
  lemma TouchesOwn<T>(s: State<T>, s': State<T>, ev: Event<T>, q: seq<T>, i: nat)
    requires Inv(s, q) && Step(s, s', ev) && WellFormed(s') && i < s'.cap == s.cap
    requires !(Holds(s'.pcs[ev.tid]) && HeldSlot(s'.pcs[ev.tid], s.cap) == i)
    ensures s'.slots[i] == s.slots[i] || s'.slots[i].state in {EMPTY, READY}
    ensures Holds(s.pcs[ev.tid]) && HeldSlot(s.pcs[ev.tid], s.cap) == i ==> s'.slots[i].state in {EMPTY, READY}
  {
    if Holds(s.pcs[ev.tid]) {
      assert ThreadInv(s, q, ev.tid);
    }
  }

  lemma OwnedStep<T>(s: State<T>, s': State<T>, ev: Event<T>, q: seq<T>)
    requires Inv(s, q) && Owned(s) && Step(s, s', ev) && WellFormed(s')
    ensures Owned(s')
  {
    var t := ev.tid;
    assert s'.cap == s.cap && s'.pcs == s.pcs[t := s'.pcs[t]];
    forall i | 0 <= i < s'.cap && s'.slots[i].state in {WRITING, READING}
      ensures exists u :: OwnedBy(s', i, u)
    {
      if Holds(s'.pcs[t]) && HeldSlot(s'.pcs[t], s.cap) == i {
        assert OwnedBy(s', i, t);
      } else {
        TouchesOwn(s, s', ev, q, i);
        var u :| OwnedBy(s, i, u);
        assert OwnedBy(s', i, u);
      }
    }
  }

  /** OWNERSHIP: in every state of every run a slot that is being written or read
      has exactly one owning thread, and its state is the one that thread's kind of
      operation holds; so the plain accesses to its cell never race. */
  lemma OwnershipThroughout<T>(states: seq<State<T>>, specs: seq<Spec<T>>, events: seq<Event<T>>, k: nat, i: nat)
    requires Run(states, events) && RefiningRun(states, specs, events)
    requires k < |states| && i < states[k].cap && i < |states[k].slots|
    requires states[k].slots[i].state in {WRITING, READING}
    ensures SoleOwner(states[k], i)
  {
    OwnedAt(states, specs, events, k);
    OwnedIsSole(states[k], specs[k].q, i);
  }

  lemma OwnedIsSole<T>(s: State<T>, q: seq<T>, i: nat)
    requires Inv(s, q) && Owned(s) && i < s.cap && s.slots[i].state in {WRITING, READING}
    ensures SoleOwner(s, i)
  {
    var t :| OwnedBy(s, i, t);
    assert ThreadInv(s, q, t);
    forall u | OwnedBy(s, i, u) ensures u == t {}
  }

  ghost predicate SoleOwner<T>(s: State<T>, i: nat) {
    && WellFormed(s) && i < s.cap
    && exists t :: OwnedBy(s, i, t)
         && s.slots[i].state == Held(s.pcs[t].op)
         && forall u :: OwnedBy(s, i, u) ==> u == t
  }

  lemma {:induction false} OwnedAt<T>(states: seq<State<T>>, specs: seq<Spec<T>>, events: seq<Event<T>>, k: nat)
    requires Run(states, events) && RefiningRun(states, specs, events) && k < |states|
    ensures Refines(states[k], specs[k]) && Owned(states[k])
  {
    assert Refines(states[k], specs[k]);
    if k == 0 {
    } else {
      OwnedAt(states, specs, events, k - 1);
      OwnedStep(states[k - 1], states[k], events[k - 1], specs[k - 1].q);
    }
  }

  /** With no operation in progress the circular range is all READY and holds the
      sequence in order, and every other slot is EMPTY and uninitialised. */
  lemma RestingRing<T>(s: State<T>, a: Spec<T>)
    requires Refines(s, a) && Owned(s) && forall t :: t in s.pcs ==> s.pcs[t] == Idle
    ensures forall i :: 0 <= i < s.cap ==>
              var o := Offset(i, s.head, s.cap);
              s.slots[i] == if o < |a.q| then Slot(READY, Some(a.q[o])) else Slot(EMPTY, None)
  {
    forall i | 0 <= i < s.cap
      ensures var o := Offset(i, s.head, s.cap);
              s.slots[i] == if o < |a.q| then Slot(READY, Some(a.q[o])) else Slot(EMPTY, None)
    {
      assert SlotInv(s.slots[i], Offset(i, s.head, s.cap), a.q);
      assert forall t :: !OwnedBy(s, i, t);
    }
  }

  /** The item that enters the deque in the step `ev` from `a`. */
  ghost function PutBy<T>(a: Spec<T>, ev: Event<T>): multiset<T> {
    if ev.Linearize? && ev.tid in a.phases && a.phases[ev.tid].Pending? && a.phases[ev.tid].op.IsPush()
    then multiset{a.phases[ev.tid].op.item} else multiset{}
  }

  /** The item that the pop taking effect in the step `ev` to `a'` answers with. */
  ghost function GotBy<T>(a': Spec<T>, ev: Event<T>): multiset<T> {
    if ev.Linearize? && ev.tid in a'.phases && a'.phases[ev.tid].Answered? &&
       a'.phases[ev.tid].res.Popped? && a'.phases[ev.tid].res.got.Some?
    then multiset{a'.phases[ev.tid].res.got.value} else multiset{}
  }

  ghost function Put<T>(specs: seq<Spec<T>>, events: seq<Event<T>>, n: nat): multiset<T>
    requires n <= |events| < |specs|
  {
    if n == 0 then multiset{} else Put(specs, events, n - 1) + PutBy(specs[n - 1], events[n - 1])
  }

  ghost function Got<T>(specs: seq<Spec<T>>, events: seq<Event<T>>, n: nat): multiset<T>
    requires n <= |events| < |specs|
  {
    if n == 0 then multiset{} else Got(specs, events, n - 1) + GotBy(specs[n], events[n - 1])
  }

  /** A push that has taken effect says so, and a pop holds an initialised item. */
  ghost predicate AnswersInitialised<T>(a: Spec<T>) {
    forall t :: t in a.phases && a.phases[t].Answered? ==>
      if a.phases[t].op.IsPush() then a.phases[t].res == Pushed
      else a.phases[t].res.Popped? && a.phases[t].res.got.Some?
  }

  lemma ApplyConserves<T>(q: seq<T>, op: Op<T>)
    requires Apply(q, op).Some?
    ensures var (q', res) := Apply(q, op).value;
            if op.IsPush() then res == Pushed && multiset(q') == multiset(q) + multiset{op.item}
            else res.Popped? && res.got.Some? && multiset(q) == multiset(q') + multiset{res.got.value}
  {
    var (q', res) := Apply(q, op).value;
    match op {
      case PushFront(x) =>
      case PushBack(x) =>
      case PopFront => assert q == [q[0]] + q';
      case PopBack => assert q == q' + [q[|q| - 1]];
    }
  }

  lemma StepConserves<T>(a: Spec<T>, a': Spec<T>, ev: Event<T>)
    requires SpecStep(a, a', ev) && AnswersInitialised(a)
    ensures PutBy(a, ev) + multiset(a.q) == GotBy(a', ev) + multiset(a'.q)
    ensures AnswersInitialised(a')
  {
    if ev.Linearize? {
      ApplyConserves(a.q, a.phases[ev.tid].op);
    }
  }

  lemma Rebalance<T>(p: multiset<T>, dp: multiset<T>, g: multiset<T>, dg: multiset<T>, q: multiset<T>, q': multiset<T>)
    requires p == g + q && dp + q == dg + q'
    ensures p + dp == (g + dg) + q'
  {
    assert p + dp == g + (dp + q);
  }

  /** CONSERVATION: after any number of steps, whatever pushes put in was got out
      once or is still stored, and every pop that has taken effect holds an
      initialised item. */
  lemma {:induction false} Conservation<T>(specs: seq<Spec<T>>, events: seq<Event<T>>, n: nat)
    requires SpecRun(specs, events) && n <= |events|
    ensures Put(specs, events, n) == Got(specs, events, n) + multiset(specs[n].q)
    ensures AnswersInitialised(specs[n])
  {
    if n == 0 {
    } else {
      Conservation(specs, events, n - 1);
      assert SpecStep(specs[n - 1], specs[n], events[n - 1]);
      StepConserves(specs[n - 1], specs[n], events[n - 1]);
      Rebalance(Put(specs, events, n - 1), PutBy(specs[n - 1], events[n - 1]),
                Got(specs, events, n - 1), GotBy(specs[n], events[n - 1]),
                multiset(specs[n - 1].q), multiset(specs[n].q));
    }
  }

  /** Thread `t` does nothing visible in the steps from `m` up to `n`. */
  ghost predicate Quiet<T>(events: seq<Event<T>>, m: nat, n: nat, t: Tid) {
    forall k :: m <= k < n && k < |events| ==> events[k].Internal? || events[k].tid != t
  }

  /** Operation `op` was called by `t` in step `m`, and nothing came of it up to step `n`. */
  ghost predicate CalledAt<T>(events: seq<Event<T>>, m: nat, n: nat, t: Tid, op: Op<T>) {
    m < n <= |events| && events[m] == Invoke(t, op) && Quiet(events, m + 1, n, t)
  }

  ghost predicate PushCalledAt<T>(events: seq<Event<T>>, m: nat, n: nat, t: Tid, x: T) {
    m < |events| && events[m].Invoke? && events[m].op.IsPush() && events[m].op.item == x
    && CalledAt(events, m, n, t, events[m].op)
  }

  /** An operation of `t` took effect in step `m` with answer `res`, not returned up to step `n`. */
  ghost predicate TookEffectAt<T>(specs: seq<Spec<T>>, events: seq<Event<T>>, m: nat, n: nat, t: Tid, res: Result<T>) {
    && m < n <= |events| < |specs| && events[m] == Linearize(t) && Quiet(events, m + 1, n, t)
    && t in specs[m + 1].phases && specs[m + 1].phases[t].Answered? && specs[m + 1].phases[t].res == res
  }

  /** A pending operation is the thread's last call; a ready answer is from where its
      operation took effect. */
  ghost predicate Traced<T>(specs: seq<Spec<T>>, events: seq<Event<T>>, n: nat, t: Tid)
    requires n < |specs| && t in specs[n].phases
  {
    match specs[n].phases[t]
    case Free => true
    case Pending(op) => exists m :: CalledAt(events, m, n, t, op)
    case Answered(_, res) => exists m :: TookEffectAt(specs, events, m, n, t, res)
  }

  lemma TraceStep<T>(specs: seq<Spec<T>>, events: seq<Event<T>>, n: nat, t: Tid)
    requires n < |events| && |specs| == |events| + 1 && SpecStep(specs[n], specs[n + 1], events[n])
    requires t in specs[n].phases && Traced(specs, events, n, t)
    ensures t in specs[n + 1].phases && Traced(specs, events, n + 1, t)
  {
    if events[n].tid == t && events[n].Invoke? {
      assert CalledAt(events, n, n + 1, t, events[n].op);
    } else if events[n].tid == t && events[n].Linearize? {
      assert TookEffectAt(specs, events, n, n + 1, t, specs[n + 1].phases[t].res);
    } else if events[n].tid != t || events[n].Internal? {
      match specs[n].phases[t]
      case Free =>
      case Pending(op) =>
        var m :| CalledAt(events, m, n, t, op);
        assert CalledAt(events, m, n + 1, t, op);
      case Answered(_, res) =>
        var m :| TookEffectAt(specs, events, m, n, t, res);
        assert TookEffectAt(specs, events, m, n + 1, t, res);
    }
  }

  lemma {:induction false} TracedThroughout<T>(specs: seq<Spec<T>>, events: seq<Event<T>>, n: nat, t: Tid)
    requires SpecRun(specs, events) && n <= |events| && t in specs[0].phases
    ensures t in specs[n].phases && Traced(specs, events, n, t)
  {
    if n == 0 {
    } else {
      TracedThroughout(specs, events, n - 1, t);
      assert SpecStep(specs[n - 1], specs[n], events[n - 1]);
      TraceStep(specs, events, n - 1, t);
    }
  }

  lemma {:induction false} SameThreads<T>(specs: seq<Spec<T>>, events: seq<Event<T>>, n: nat)
    requires SpecRun(specs, events) && n <= |events|
    ensures specs[n].phases.Keys == specs[0].phases.Keys
  {
    if n == 0 {
    } else {
      SameThreads(specs, events, n - 1);
      assert SpecStep(specs[n - 1], specs[n], events[n - 1]);
    }
  }

  /** Where items come from and go to: an item put in is that of the last call of the thread,
      a push; an item that a pop returns is one got out by that thread since its call. */
  ghost predicate ItemsTraced<T>(specs: seq<Spec<T>>, events: seq<Event<T>>, n: nat)
    requires n < |events| < |specs|
  {
    var t := events[n].tid;
    && (forall x :: x in PutBy(specs[n], events[n]) ==>
          exists m :: PushCalledAt(events, m, n, t, x))
    && (events[n].Return? && events[n].res.Popped? ==>
          events[n].res.got.Some? && exists m: nat :: GotAt(specs, events, m, n, t, events[n].res.got.value))
  }

  /** The item `x` was got out by `t` in step `m`, and nothing came of it up to step `n`. */
  ghost predicate GotAt<T>(specs: seq<Spec<T>>, events: seq<Event<T>>, m: nat, n: nat, t: Tid, x: T) {
    && TookEffectAt(specs, events, m, n, t, Popped(Some(x)))
    && GotBy(specs[m + 1], events[m]) == multiset{x}
  }

  lemma PutIsTraced<T>(specs: seq<Spec<T>>, events: seq<Event<T>>, n: nat, x: T)
    requires n < |events| < |specs| && x in PutBy(specs[n], events[n])
    requires Traced(specs, events, n, events[n].tid)
    ensures exists m :: PushCalledAt(events, m, n, events[n].tid, x)
  {
    var m: nat :| CalledAt(events, m, n, events[n].tid, specs[n].phases[events[n].tid].op);
    assert PushCalledAt(events, m, n, events[n].tid, x);
  }

  lemma ReturnIsTraced<T>(specs: seq<Spec<T>>, events: seq<Event<T>>, n: nat)
    requires n < |events| < |specs| && SpecStep(specs[n], specs[n + 1], events[n]) && AnswersInitialised(specs[n])
    requires Traced(specs, events, n, events[n].tid)
    requires events[n].Return? && events[n].res.Popped?
    requires specs[n].phases[events[n].tid].Answered? ==> !specs[n].phases[events[n].tid].op.IsPush()
    ensures events[n].res.got.Some?
    ensures exists m: nat :: GotAt(specs, events, m, n, events[n].tid, events[n].res.got.value)
  {
    var t := events[n].tid;
    var m: nat :| TookEffectAt(specs, events, m, n, t, events[n].res);
    assert GotAt(specs, events, m, n, t, events[n].res.got.value);
  }

  lemma ItemsAreTraced<T>(specs: seq<Spec<T>>, events: seq<Event<T>>, n: nat)
    requires SpecRun(specs, events) && n < |events|
    ensures ItemsTraced(specs, events, n)
  {
    var a, ev := specs[n], events[n];
    assert SpecStep(a, specs[n + 1], ev);
    SameThreads(specs, events, n);
    TracedThroughout(specs, events, n, ev.tid);
    Conservation(specs, events, n);
    forall x | x in PutBy(a, ev) ensures exists m :: PushCalledAt(events, m, n, ev.tid, x) {
      PutIsTraced(specs, events, n, x);
    }
    if ev.Return? && ev.res.Popped? {
      ReturnIsTraced(specs, events, n);
    }
  }

  /** The same of any run of the concrete deque: pushed is popped plus stored at every point,
      no pop holds or returns an uninitialised item, and every item put in or returned is
      that of the thread's own call. */
  lemma RunConserves<T>(states: seq<State<T>>, events: seq<Event<T>>)
    requires Run(states, events)
    ensures exists specs :: RefiningRun(states, specs, events) && ConservedThroughout(specs, events)
  {
    Linearizable(states, events);
    var specs: seq<Spec<T>> :| RefiningRun(states, specs, events);
    forall n {:trigger specs[n]} | 0 <= n <= |events|
      ensures Put(specs, events, n) == Got(specs, events, n) + multiset(specs[n].q)
      ensures AnswersInitialised(specs[n])
      ensures n < |events| ==> ItemsTraced(specs, events, n)
    {
      Conservation(specs, events, n);
      if n < |events| {
        ItemsAreTraced(specs, events, n);
      }
    }
    assert ConservedThroughout(specs, events);
  }

  ghost predicate ConservedThroughout<T>(specs: seq<Spec<T>>, events: seq<Event<T>>) {
    && |specs| == |events| + 1
    && forall n {:trigger specs[n]} :: 0 <= n <= |events| ==>
         && Put(specs, events, n) == Got(specs, events, n) + multiset(specs[n].q)
         && AnswersInitialised(specs[n])
         && (n < |events| ==> ItemsTraced(specs, events, n))
  }
}
