/** How many items the deque can take before it breaks: the exact bound. */
module DequeBudget {
  import opened Wrappers
  import opened Ring
  import opened DequeSpec
  import opened DequeMachine
  import opened DequeLinearizability
  import opened DequeOwnership

  /** The threads whose push has been called and has not taken effect yet. */
  ghost function InFlight<T>(a: Spec<T>): set<Tid> {
    set t | t in a.phases && a.phases[t].Pending? && a.phases[t].op.IsPush()
  }

  /** Items stored plus pushes in flight. */
  ghost function Load<T>(a: Spec<T>): nat { |a.q| + |InFlight(a)| }

  /** Callers start a push only while the load is below `budget`. */
  ghost predicate Disciplined<T>(a: Spec<T>, ev: Event<T>, budget: nat) {
    ev.Invoke? && ev.op.IsPush() ==> Load(a) < budget
  }

  /** A run of disciplined callers that ends in `s`, beside the run of the atomic
      deque with the same events, which ends in `a`. */
  ghost predicate Leads<T>(states: seq<State<T>>, specs: seq<Spec<T>>, events: seq<Event<T>>,
                           budget: nat, s: State<T>, a: Spec<T>)
  {
    && Run(states, events) && SpecRun(specs, events)
    && specs[0].phases.Keys == states[0].pcs.Keys
    && (forall k {:trigger events[k]} :: 0 <= k < |events| ==> Disciplined(specs[k], events[k], budget))
    && states[|events|] == s && specs[|events|] == a
  }

  ghost predicate Reached<T(!new)>(s: State<T>, a: Spec<T>, budget: nat) {
    exists states, specs, events :: Leads(states, specs, events, budget, s, a)
  }

  lemma Cardinality(a: set<Tid>, t: Tid)
    ensures |a + {t}| <= |a| + 1
    ensures |a - {t}| == |a| - if t in a then 1 else 0
  {
    if t in a {
      assert a + {t} == a;
    } else {
      assert a - {t} == a;
    }
  }

  lemma InFlightStep<T>(a: Spec<T>, a': Spec<T>, ev: Event<T>)
    requires SpecStep(a, a', ev)
    ensures InFlight(a') == if ev.Invoke? && ev.op.IsPush() then InFlight(a) + {ev.tid}
                            else if ev.Linearize? || ev.Return? then InFlight(a) - {ev.tid}
                            else InFlight(a)
  {
  }

  /** Callers that keep to a budget when they start a push keep it throughout. */
  lemma LoadStep<T>(a: Spec<T>, a': Spec<T>, ev: Event<T>, budget: nat)
    requires SpecStep(a, a', ev) && Disciplined(a, ev, budget) && Load(a) <= budget
    ensures Load(a') <= budget
  {
    InFlightStep(a, a', ev);
    Cardinality(InFlight(a), ev.tid);
    if ev.Linearize? {
      assert ev.tid in InFlight(a) <==> a.phases[ev.tid].op.IsPush();
    }
  }

  lemma {:induction false} LeadsRefines<T>(states: seq<State<T>>, specs: seq<Spec<T>>, events: seq<Event<T>>,
                                           budget: nat, k: nat)
    requires k <= |events| < |states| && |events| < |specs|
    requires Leads(states, specs, events, budget, states[|events|], specs[|events|])
    ensures Refines(states[k], specs[k]) && Load(specs[k]) <= budget && Owned(states[k])
  {
    if k == 0 {
      InitRefines(states[0], specs[0]);
      assert InFlight(specs[0]) == {};
    } else {
      LeadsRefines(states, specs, events, budget, k - 1);
      var ev := events[k - 1];
      var a' := StepRefines(states[k - 1], states[k], ev, specs[k - 1]);
      LoadStep(specs[k - 1], specs[k], ev, budget);
      OwnedStep(states[k - 1], states[k], ev, specs[k - 1].q);
    }
  }

  lemma ReachedRefines<T(!new)>(s: State<T>, a: Spec<T>, budget: nat)
    requires Reached(s, a, budget)
    ensures Refines(s, a) && Load(a) <= budget && Owned(s)
  {
    var states, specs, events :| Leads(states, specs, events, budget, s, a);
    LeadsRefines(states, specs, events, budget, |events|);
  }

  /** Below full capacity the two indices meet exactly when the deque is empty; at
      full capacity they meet although it is not. */
  lemma IndicesMeet<T>(s: State<T>, a: Spec<T>)
    requires Refines(s, a)
    ensures s.head == s.tail <==> a.q == [] || |a.q| == s.cap
  {
  }

  /** One more step of a run. */
  lemma Advance<T(!new)>(s: State<T>, a: Spec<T>, budget: nat, s': State<T>, a': Spec<T>, ev: Event<T>)
    requires Reached(s, a, budget) && WellFormed(s) && Step(s, s', ev)
    requires SpecStep(a, a', ev) && Disciplined(a, ev, budget)
    ensures Reached(s', a', budget)
  {
    var states, specs, events :| Leads(states, specs, events, budget, s, a);
    var states', specs', events' := states + [s'], specs + [a'], events + [ev];
    RunExtend(states, events, s', ev);
    SpecRunExtend(specs, events, a', ev);
    assert forall k :: 0 <= k < |events| ==> events'[k] == events[k];
    assert Leads(states', specs', events', budget, s', a');
  }

  /** The phase of one thread, without the rest of the invariant. */
  lemma PhaseAt<T(!new)>(s: State<T>, a: Spec<T>, budget: nat, t: Tid)
    requires Reached(s, a, budget) && WellFormed(s) && t in s.pcs
    ensures t in a.phases && a.phases[t] == PhaseOf(s, t)
  {
    ReachedRefines(s, a, budget);
  }

  /** A push by an idle thread gets as far as its claim when the deque has room. */
  lemma ReachClaim<T(!new)>(s: State<T>, a: Spec<T>, budget: nat, t: Tid, op: Op<T>)
    returns (s': State<T>, a': Spec<T>)
    requires Reached(s, a, budget) && WellFormed(s) && t in s.pcs && s.pcs[t] == Idle
    requires op.IsPush() && Load(a) < budget && !GivesUp(op, Own(s, op), Other(s, op), s.cap)
    ensures s' == Goto(s, t, Claim(op, Own(s, op)))
    ensures Reached(s', a', budget) && WellFormed(s') && a'.q == a.q && InFlight(a') == InFlight(a) + {t}
  {
    PhaseAt(s, a, budget, t);
    var a1 := a.(phases := a.phases[t := Pending(op)]);
    var s1 := Goto(s, t, Loop(op));
    Advance(s, a, budget, s1, a1, Invoke(t, op));
    var s2 := Goto(s1, t, GotOwn(op, Own(s, op)));
    Advance(s1, a1, budget, s2, a1, Internal(t));
    var s3 := Goto(s2, t, GotBoth(op, Own(s, op), Other(s, op)));
    Advance(s2, a1, budget, s3, a1, Internal(t));
    s' := Goto(s, t, Claim(op, Own(s, op)));
    assert s' == Goto(s3, t, Claim(op, Own(s, op)));
    Advance(s3, a1, budget, s', a1, Internal(t));
    a' := a1;
    assert InFlight(a') == InFlight(a) + {t};
  }

  lemma DoClaim<T(!new)>(s: State<T>, a: Spec<T>, budget: nat, t: Tid, op: Op<T>, own: nat)
    returns (s': State<T>)
    requires Reached(s, a, budget) && WellFormed(s) && t in s.pcs && own < s.cap && s.pcs[t] == Claim(op, own)
    requires op.IsPush() && s.slots[Target(op, own, s.cap)].state == EMPTY
    ensures s' == Goto(SetSlot(s, Target(op, own, s.cap), WRITING), t, Claimed(op, own))
    ensures Reached(s', a, budget) && WellFormed(s')
  {
    PhaseAt(s, a, budget, t);
    s' := Goto(SetSlot(s, Target(op, own, s.cap), WRITING), t, Claimed(op, own));
    Advance(s, a, budget, s', a, Internal(t));
  }

  lemma DoCommit<T(!new)>(s: State<T>, a: Spec<T>, budget: nat, t: Tid, op: Op<T>, own: nat)
    returns (s': State<T>, a': Spec<T>)
    requires Reached(s, a, budget) && WellFormed(s) && t in s.pcs && own < s.cap && s.pcs[t] == Claimed(op, own)
    requires op.IsPush() && Own(s, op) == own
    ensures s' == Goto(SetOwn(s, op, Moved(op, own, s.cap)), t, Committed(op, own))
    ensures Reached(s', a', budget) && WellFormed(s')
    ensures a'.q == Apply(a.q, op).value.0 && InFlight(a') == InFlight(a) - {t}
  {
    PhaseAt(s, a, budget, t);
    s' := Goto(SetOwn(s, op, Moved(op, own, s.cap)), t, Committed(op, own));
    var (q', res) := Apply(a.q, op).value;
    a' := Spec(q', a.phases[t := Answered(op, res)]);
    Advance(s, a, budget, s', a', Linearize(t));
    assert InFlight(a') == InFlight(a) - {t};
  }

  lemma DoFinish<T(!new)>(s: State<T>, a: Spec<T>, budget: nat, t: Tid, op: Op<T>, own: nat)
    returns (s': State<T>, a': Spec<T>)
    requires Reached(s, a, budget) && WellFormed(s) && t in s.pcs && own < s.cap && s.pcs[t] == Committed(op, own)
    requires op.IsPush()
    ensures s' == Goto(s.(slots := s.slots[Target(op, own, s.cap) := Slot(READY, Some(op.item))]), t, Idle)
    ensures Reached(s', a', budget) && WellFormed(s') && a'.q == a.q && InFlight(a') == InFlight(a)
  {
    PhaseAt(s, a, budget, t);
    var i := Target(op, own, s.cap);
    var s1 := Goto(s.(slots := s.slots[i := s.slots[i].(data := Some(op.item))]), t, Finishing(op, own, Pushed));
    Advance(s, a, budget, s1, a, Internal(t));
    s' := Goto(SetSlot(s1, i, READY), t, Idle);
    a' := a.(phases := a.phases[t := Free]);
    Advance(s1, a, budget, s', a', Return(t, Pushed));
    assert InFlight(a') == InFlight(a);
  }

  /** No operation is in progress. */
  ghost predicate Resting<T>(s: State<T>, a: Spec<T>) {
    (forall t :: t in s.pcs ==> s.pcs[t] == Idle) && InFlight(a) == {}
  }

  /** The slots just outside the range of a resting deque are free. */
  lemma FreeEnds<T(!new)>(s: State<T>, a: Spec<T>, budget: nat)
    requires Reached(s, a, budget) && Resting(s, a) && |a.q| < s.cap
    ensures WellFormed(s) && s.tail == At(s.head, |a.q|, s.cap) && Load(a) == |a.q|
    ensures s.slots[s.tail].state == EMPTY && s.slots[Pred(s.head, s.cap)].state == EMPTY
  {
    ReachedRefines(s, a, budget);
    RestingRing(s, a);
  }

  /** The first half of a push at the back, up to the claimed slot. */
  lemma PushClaims<T(!new)>(s: State<T>, a: Spec<T>, budget: nat, t: Tid, x: T) returns (s': State<T>, a': Spec<T>)
    requires Reached(s, a, budget) && Resting(s, a) && t in s.pcs && |a.q| < budget && |a.q| + 1 < s.cap
    ensures Reached(s', a', budget) && WellFormed(s') && a'.q == a.q && InFlight(a') == {t}
    ensures s.tail < |s.slots| && s' == Goto(SetSlot(s, s.tail, WRITING), t, Claimed(PushBack(x), s.tail))
  {
    FreeEnds(s, a, budget);
    SuccCases(s.tail, s.cap);
    var s1, a1 := ReachClaim(s, a, budget, t, PushBack(x));
    s' := DoClaim(s1, a1, budget, t, PushBack(x), s.tail);
    a' := a1;
  }

  /** One whole push at the back by thread `t`, alone. */
  lemma PushAlone<T(!new)>(s: State<T>, a: Spec<T>, budget: nat, t: Tid, x: T) returns (s': State<T>, a': Spec<T>)
    requires Reached(s, a, budget) && Resting(s, a) && t in s.pcs && |a.q| < budget && |a.q| + 1 < s.cap
    ensures Reached(s', a', budget) && Resting(s', a') && a'.q == a.q + [x]
    ensures s'.cap == s.cap && s'.pcs.Keys == s.pcs.Keys
  {
    var s2, a2 := PushClaims(s, a, budget, t, x);
    var s3, a3 := DoCommit(s2, a2, budget, t, PushBack(x), s.tail);
    s', a' := DoFinish(s3, a3, budget, t, PushBack(x), s.tail);
  }

  /** A deque whose callers may load `budget` items can be filled to any length below it. */
  lemma {:induction false} Fill<T(!new)>(cap: nat, threads: set<Tid>, budget: nat, t: Tid, x: T, n: nat)
    returns (s: State<T>, a: Spec<T>)
    requires 0 < cap && t in threads && n <= budget && n < cap
    ensures Reached(s, a, budget) && Resting(s, a) && s.cap == cap && s.pcs.Keys == threads && |a.q| == n
  {
    if n == 0 {
      s := State(cap, 0, 0, seq(cap, _ => Slot(EMPTY, None)), map u | u in threads :: Idle);
      a := Spec([], map u | u in threads :: Free);
      assert Leads([s], [a], [], budget, s, a);
    } else {
      s, a := Fill(cap, threads, budget, t, x, n - 1);
      s, a := PushAlone(s, a, budget, t, x);
    }
  }

  /** Two pushes racing for the last place, one at each end: both pass the full
      check before either takes effect. */
  lemma RaceToClaims<T(!new)>(s: State<T>, a: Spec<T>, budget: nat, t: Tid, u: Tid, x: T)
    returns (s': State<T>, a': Spec<T>)
    requires Reached(s, a, budget) && Resting(s, a) && t in s.pcs && u in s.pcs && t != u
    requires 2 <= s.cap <= budget && |a.q| == s.cap - 2
    ensures Reached(s', a', budget) && WellFormed(s') && a'.q == a.q && InFlight(a') == {t, u}
    ensures s'.cap == s.cap && s'.head == s.head && s'.tail == s.tail
    ensures s'.pcs == s.pcs[t := Claimed(PushBack(x), s.tail)][u := Claimed(PushFront(x), s.head)]
  {
    FreeEnds(s, a, budget);
    SuccCases(s.tail, s.cap);
    var s1, a1 := PushClaims(s, a, budget, t, x);
    assert |InFlight(a1)| == 1;
    var s2, a2 := ReachClaim(s1, a1, budget, u, PushFront(x));
    s' := DoClaim(s2, a2, budget, u, PushFront(x), s.head);
    a' := a2;
  }

  /** Then both take effect, and the deque holds one item per slot. */
  lemma Race<T(!new)>(s: State<T>, a: Spec<T>, budget: nat, t: Tid, u: Tid, x: T) returns (s': State<T>, a': Spec<T>)
    requires Reached(s, a, budget) && Resting(s, a) && t in s.pcs && u in s.pcs && t != u
    requires 2 <= s.cap <= budget && |a.q| == s.cap - 2
    ensures Reached(s', a', budget) && Resting(s', a')
    ensures s'.cap == s.cap == |a'.q| && s'.pcs.Keys == s.pcs.Keys
  {
    var back, front := PushBack(x), PushFront(x);
    var s4, a4 := RaceToClaims(s, a, budget, t, u, x);
    var s5, a5 := DoCommit(s4, a4, budget, t, back, s4.tail);
    var s6, a6 := DoCommit(s5, a5, budget, u, front, s4.head);
    var s7, a7 := DoFinish(s6, a6, budget, t, back, s4.tail);
    s', a' := DoFinish(s7, a7, budget, u, front, s4.head);
  }

  /** In every run with these threads, the two indices meet only on an empty deque. */
  ghost predicate MeetOnlyWhenEmpty<T(!new)>(cap: nat, threads: set<Tid>, budget: nat) {
    forall s: State<T>, a: Spec<T> ::
      Reached(s, a, budget) && s.cap == cap && s.pcs.Keys == threads && s.head == s.tail ==> a.q == []
  }

  /** THE EXACT BOUND: with any number of threads from two up and at least two slots,
      meeting indices mean an empty deque in every run exactly when callers keep stored
      items plus pushes in flight below the capacity. */
  lemma BudgetExact<T(!new)>(cap: nat, threads: set<Tid>, t: Tid, u: Tid, budget: nat, x: T)
    requires cap >= 2 && t in threads && u in threads && t != u
    ensures budget < cap <==> MeetOnlyWhenEmpty<T>(cap, threads, budget)
  {
    if budget < cap {
      forall s: State<T>, a | Reached(s, a, budget) && s.cap == cap && s.head == s.tail ensures a.q == [] {
        ReachedRefines(s, a, budget);
        IndicesMeet(s, a);
      }
    } else {
      var s, a := Fill(cap, threads, budget, t, x, cap - 2);
      var s', a' := Race(s, a, budget, t, u, x);
      ReachedRefines(s', a', budget);
      IndicesMeet(s', a');
    }
  }

  /** A full ring with no operation past its claim, and no pop that has passed its
      empty check. */
  ghost predicate Stuck<T>(s: State<T>) {
    && WellFormed(s) && s.cap >= 2 && s.head == s.tail
    && (forall i :: 0 <= i < s.cap ==> s.slots[i].state == READY)
    && forall t :: t in s.pcs ==>
         match s.pcs[t]
         case Idle | Loop(_) => true
         case GotOwn(_, own) => own == s.head
         case GotBoth(_, own, other) => own == s.head && other == s.head
         case Claim(op, own) => own == s.head && op.IsPush()
         case _ => false
  }

  /** THE DEADLOCK: once overfull and resting, the deque never changes again. No push
      ever returns, and every pop that returns reports an empty deque. */
  lemma StuckForever<T>(s: State<T>, s': State<T>, ev: Event<T>)
    requires Stuck(s) && Step(s, s', ev)
    ensures Stuck(s') && s'.slots == s.slots && s'.head == s.head
    ensures !ev.Linearize? && (ev.Return? ==> ev.res == Nothing)
  {
    SuccCases(s.head, s.cap);
    var pc := s.pcs[ev.tid];
    if pc.GotBoth? && pc.op.IsPush() {
      assert Moved(pc.op, s.head, s.cap) != s.head;
    }
  }

  /** The race above ends in that state. */
  lemma OverfullIsStuck<T>(s: State<T>, a: Spec<T>)
    requires Refines(s, a) && Owned(s) && Resting(s, a) && 2 <= s.cap == |a.q|
    ensures Stuck(s)
  {
    RestingRing(s, a);
  }

  lemma StuckIsOverfull<T>(s: State<T>, a: Spec<T>)
    requires Refines(s, a) && Stuck(s)
    ensures |a.q| == s.cap
  {
    IndicesMeet(s, a);
    assert SlotInv(s.slots[s.head], Offset(s.head, s.head, s.cap), a.q);
  }

  /** In no run with these threads does the deque get stuck. */
  ghost predicate NeverStuck<T(!new)>(cap: nat, threads: set<Tid>, budget: nat) {
    forall s: State<T>, a: Spec<T> :: Reached(s, a, budget) && s.cap == cap && s.pcs.Keys == threads ==> !Stuck(s)
  }

  /** THE EXACT BOUND AGAINST DEADLOCK: with at least two threads and two slots the deque can
      get stuck for good exactly when callers may bring stored items plus pushes in flight up
      to the capacity. */
  lemma DeadlockExact<T(!new)>(cap: nat, threads: set<Tid>, t: Tid, u: Tid, budget: nat, x: T)
    requires cap >= 2 && t in threads && u in threads && t != u
    ensures budget < cap <==> NeverStuck<T>(cap, threads, budget)
  {
    if budget < cap {
      forall s: State<T>, a | Reached(s, a, budget) && s.cap == cap ensures !Stuck(s) {
        ReachedRefines(s, a, budget);
        if Stuck(s) {
          StuckIsOverfull(s, a);
          assert false;
        }
      }
    } else {
      var s, a := Fill(cap, threads, budget, t, x, cap - 2);
      var s', a' := Race(s, a, budget, t, u, x);
      ReachedRefines(s', a', budget);
      OverfullIsStuck(s', a');
    }
  }
}
