/** What the deque answers to an operation that no other thread's step interrupts: exactly what
    the sequence answers, failures included. */
module DequeSolo {
  import opened Wrappers
  import opened Ring
  import opened DequeSpec
  import opened DequeMachine
  import opened DequeLinearizability
  import opened DequeOwnership

  /** The deque has no room for the push, or nothing for the pop. One slot always stays free. */
  predicate Impossible<T>(q: seq<T>, op: Op<T>, cap: nat) {
    if op.IsPush() then |q| + 1 == cap else q == []
  }

  /** The answer and the sequence after a lone operation. */
  function LoneAnswer<T>(q: seq<T>, op: Op<T>, cap: nat): Result<T> {
    if Impossible(q, op, cap) || Apply(q, op).None? then Failure(op) else Apply(q, op).value.1
  }

  function LoneEffect<T>(q: seq<T>, op: Op<T>, cap: nat): seq<T> {
    if Impossible(q, op, cap) || Apply(q, op).None? then q else Apply(q, op).value.0
  }

  /** The check on the two indices, while they are up to date. */
  lemma CheckExact<T>(s: State<T>, q: seq<T>, op: Op<T>)
    requires IndexInv(s, q) && |q| < s.cap
    ensures Own(s, op) < s.cap && (GivesUp(op, Own(s, op), Other(s, op), s.cap) <==> Impossible(q, op, s.cap))
  {
    SuccCases(s.head, s.cap);
    SuccCases(s.tail, s.cap);
  }

  /** Thread `t` has got so far with `op` alone, since the sequence was `q`. */
  ghost predicate Alone<T>(s: State<T>, a: Spec<T>, t: Tid, op: Op<T>, q: seq<T>) {
    && Refines(s, a) && t in s.pcs && |q| < s.cap
    && match s.pcs[t]
       case Idle => false
       case Loop(o) => o == op && a.q == q
       case GotOwn(o, own) => o == op && a.q == q && own == Own(s, op)
       case GotBoth(o, own, other) => o == op && a.q == q && own == Own(s, op) && other == Other(s, op)
       case Claim(o, own) => o == op && a.q == q && own == Own(s, op) && !Impossible(q, op, s.cap)
       case Claimed(o, own) => o == op && a.q == q && own == Own(s, op) && !Impossible(q, op, s.cap)
       case Rollback(o, own) => o == op && a.q == q
       case _ => Took(a, t, op, q, s.cap)
  }

  /** The operation has taken effect. */
  ghost predicate Took<T>(a: Spec<T>, t: Tid, op: Op<T>, q: seq<T>, cap: nat) {
    && !Impossible(q, op, cap) && Apply(q, op).Some?
    && a.q == Apply(q, op).value.0
    && t in a.phases && a.phases[t] == Answered(op, Apply(q, op).value.1)
  }

  /** The slot that a pop is about to claim is not empty. */
  lemma SomethingThere<T>(s: State<T>, q: seq<T>, op: Op<T>)
    requires Inv(s, q) && q != [] && |q| < s.cap && !op.IsPush()
    ensures var i := Target(op, Own(s, op), s.cap);
            i < |s.slots| && s.slots[i].state != EMPTY
  {
    var i := Target(op, Own(s, op), s.cap);
    assert Offset(i, s.head, s.cap) < |q|;
    assert SlotInv(s.slots[i], Offset(i, s.head, s.cap), q);
  }

  /** One step of the lone thread: it goes on, or returns the answer. */
  lemma AloneStep<T>(s: State<T>, s': State<T>, ev: Event<T>, a: Spec<T>, a': Spec<T>, t: Tid, op: Op<T>, q: seq<T>)
    requires Alone(s, a, t, op, q) && Step(s, s', ev) && ev.tid == t && SpecStep(a, a', ev) && Refines(s', a')
    ensures s'.cap == s.cap
    ensures !ev.Return? ==> Alone(s', a', t, op, q)
    ensures ev.Return? ==> ev.res == LoneAnswer(q, op, s.cap) && a'.q == LoneEffect(q, op, s.cap)
  {
    if s.pcs[t].Claimed? {
      LoneCommit(s, s', ev, a, a', t, op, q);
    } else if s.pcs[t].Claim? {
      LoneClaim(s, s', ev, a, a', t, op, q);
    } else if s.pcs[t].Committed? || s.pcs[t].Finishing? {
      LoneEnd(s, s', ev, a, a', t, op, q);
    } else {
      LoneSearch(s, s', ev, a, a', t, op, q);
    }
  }

  lemma LoneSearch<T>(s: State<T>, s': State<T>, ev: Event<T>, a: Spec<T>, a': Spec<T>, t: Tid, op: Op<T>, q: seq<T>)
    requires Alone(s, a, t, op, q) && Step(s, s', ev) && ev.tid == t && SpecStep(a, a', ev) && Refines(s', a')
    requires s.pcs[t].Loop? || s.pcs[t].GotOwn? || s.pcs[t].GotBoth? || s.pcs[t].Rollback?
    ensures s'.cap == s.cap
    ensures if ev.Return? then ev.res == Failure(op) && Impossible(q, op, s.cap) && a'.q == q
            else Alone(s', a', t, op, q)
  {
    CheckExact(s, q, op);
  }

  lemma LoneClaim<T>(s: State<T>, s': State<T>, ev: Event<T>, a: Spec<T>, a': Spec<T>, t: Tid, op: Op<T>, q: seq<T>)
    requires Alone(s, a, t, op, q) && s.pcs[t].Claim? && Step(s, s', ev) && ev.tid == t
    requires SpecStep(a, a', ev) && Refines(s', a')
    ensures s'.cap == s.cap && !ev.Return? && Alone(s', a', t, op, q)
  {
    if !op.IsPush() {
      SomethingThere(s, q, op);
    }
  }

  lemma LoneEnd<T>(s: State<T>, s': State<T>, ev: Event<T>, a: Spec<T>, a': Spec<T>, t: Tid, op: Op<T>, q: seq<T>)
    requires Alone(s, a, t, op, q) && (s.pcs[t].Committed? || s.pcs[t].Finishing?) && Step(s, s', ev) && ev.tid == t
    requires SpecStep(a, a', ev) && Refines(s', a')
    ensures s'.cap == s.cap
    ensures if ev.Return? then ev.res == LoneAnswer(q, op, s.cap) && a'.q == LoneEffect(q, op, s.cap)
            else Alone(s', a', t, op, q)
  {
  }

  lemma LoneCommit<T>(s: State<T>, s': State<T>, ev: Event<T>, a: Spec<T>, a': Spec<T>, t: Tid, op: Op<T>, q: seq<T>)
    requires Alone(s, a, t, op, q) && s.pcs[t].Claimed? && Step(s, s', ev) && ev.tid == t
    requires SpecStep(a, a', ev) && Refines(s', a')
    ensures s'.cap == s.cap && !ev.Return? && Alone(s', a', t, op, q)
  {
    assert a.phases[t] == PhaseOf(s, t);
  }

  /** The thread's steps from point `i` up to point `j` are all there are, and none returns. */
  predicate Lone<T>(events: seq<Event<T>>, i: nat, j: nat, t: Tid) {
    i <= j <= |events| && forall k :: i <= k < j ==> events[k].tid == t && !events[k].Return?
  }

  lemma {:induction false} LoneThroughout<T>(states: seq<State<T>>, events: seq<Event<T>>, i: nat, j: nat,
                                             t: Tid, op: Op<T>, a: Spec<T>) returns (a': Spec<T>)
    requires Run(states, events) && i < j && Lone(events, i, j, t) && events[i] == Invoke(t, op)
    requires Refines(states[i], a) && |a.q| < states[i].cap
    ensures states[j].cap == states[i].cap && Alone(states[j], a', t, op, a.q)
    decreases j
  {
    if j == i + 1 {
      assert Step(states[i], states[j], events[i]);
      a' := StepRefines(states[i], states[j], events[i], a);
    } else {
      var b := LoneThroughout(states, events, i, j - 1, t, op, a);
      assert Step(states[j - 1], states[j], events[j - 1]);
      a' := StepRefines(states[j - 1], states[j], events[j - 1], b);
      AloneStep(states[j - 1], states[j], events[j - 1], b, a', t, op, a.q);
    }
  }

  /** LONE OPERATIONS ARE EXACT: an operation that no step of another thread interrupts, however
      far other operations have got before it, fails exactly when the deque is full or empty.
      It then changes nothing, and otherwise it has the effect and the answer of the sequence. */
  lemma LoneExact<T>(states: seq<State<T>>, events: seq<Event<T>>, i: nat, j: nat,
                     t: Tid, op: Op<T>, res: Result<T>, a: Spec<T>) returns (a': Spec<T>)
    requires Run(states, events) && i < j < |events| && Lone(events, i, j, t)
    requires events[i] == Invoke(t, op) && events[j] == Return(t, res)
    requires Refines(states[i], a) && |a.q| < states[i].cap
    ensures res == LoneAnswer(a.q, op, states[i].cap)
    ensures Refines(states[j + 1], a') && a'.q == LoneEffect(a.q, op, states[i].cap)
    ensures res == Failure(op) <==> Impossible(a.q, op, states[i].cap)
  {
    var b := LoneThroughout(states, events, i, j, t, op, a);
    assert Step(states[j], states[j + 1], events[j]);
    a' := StepRefines(states[j], states[j + 1], events[j], b);
    AloneStep(states[j], states[j + 1], events[j], b, a', t, op, a.q);
  }

  /** Some steps in a row. */
  ghost predicate Segment<T>(states: seq<State<T>>, events: seq<Event<T>>) {
    |states| == |events| + 1 && forall k :: 0 <= k < |events| ==> SegmentStep(states, events, k)
  }

  ghost predicate SegmentStep<T>(states: seq<State<T>>, events: seq<Event<T>>, k: nat) {
    k < |events| < |states| && WellFormed(states[k]) && Step(states[k], states[k + 1], events[k])
  }

  lemma Append<T>(states: seq<State<T>>, events: seq<Event<T>>, s: State<T>, ev: Event<T>)
    requires Segment(states, events) && WellFormed(states[|events|]) && Step(states[|events|], s, ev)
    ensures Segment(states + [s], events + [ev])
  {
    var states', events' := states + [s], events + [ev];
    forall k | 0 <= k < |events'| ensures SegmentStep(states', events', k) {
      if k < |events| {
        assert SegmentStep(states, events, k);
      }
    }
  }

  /** Thread `t` calls `op` and loads both indices. */
  lemma LoneLoads<T>(s: State<T>, t: Tid, op: Op<T>) returns (states: seq<State<T>>, events: seq<Event<T>>)
    requires WellFormed(s) && t in s.pcs && s.pcs[t] == Idle
    ensures Segment(states, events) && |events| == 3 && states[0] == s && events[0] == Invoke(t, op)
    ensures Lone(events, 0, 3, t)
    ensures states[3] == Goto(s, t, GotBoth(op, Own(s, op), Other(s, op))) && WellFormed(states[3])
  {
    var s1 := Goto(s, t, Loop(op));
    var s2 := Goto(s1, t, GotOwn(op, Own(s, op)));
    var s3 := Goto(s2, t, GotBoth(op, Own(s, op), Other(s, op)));
    Append([s], [], s1, Invoke(t, op));
    Append([s, s1], [Invoke(t, op)], s2, Internal(t));
    Append([s, s1, s2], [Invoke(t, op), Internal(t)], s3, Internal(t));
    states, events := [s, s1, s2, s3], [Invoke(t, op), Internal(t), Internal(t)];
    assert s3 == Goto(s, t, GotBoth(op, Own(s, op), Other(s, op)));
  }

  /** With all threads at rest the slot an operation works on is as it wants it. */
  lemma SlotWanted<T>(s: State<T>, a: Spec<T>, op: Op<T>)
    requires Refines(s, a) && Owned(s) && (forall u :: u in s.pcs ==> s.pcs[u] == Idle) && |a.q| < s.cap
    requires !Impossible(a.q, op, s.cap)
    ensures var i := Target(op, Own(s, op), s.cap);
            i < |s.slots| && s.slots[i].state == Wanted(op)
  {
    RestingRing(s, a);
    var i := Target(op, Own(s, op), s.cap);
    assert Offset(i, s.head, s.cap) < |a.q| <==> !op.IsPush();
  }

  /** A LONE OPERATION CAN FINISH: with all threads at rest, one thread's operation returns after
      four or eight steps of its own, unless compare-and-swaps fail without a reason. */
  lemma LoneFinishes<T>(s: State<T>, a: Spec<T>, t: Tid, op: Op<T>)
    returns (states: seq<State<T>>, events: seq<Event<T>>)
    requires Refines(s, a) && Owned(s) && (forall u :: u in s.pcs ==> s.pcs[u] == Idle) && |a.q| < s.cap
    requires t in s.pcs
    ensures Segment(states, events) && states[0] == s && 4 <= |events| <= 8
    ensures Lone(events, 0, |events| - 1, t) && events[0] == Invoke(t, op)
    ensures events[|events| - 1].Return? && events[|events| - 1].tid == t
  {
    states, events := LoneLoads(s, t, op);
    CheckExact(s, a.q, op);
    var own := Own(s, op);
    if Impossible(a.q, op, s.cap) {
      var s' := Goto(states[3], t, Idle);
      Append(states, events, s', Return(t, Failure(op)));
      states, events := states + [s'], events + [Return(t, Failure(op))];
    } else {
      SlotWanted(s, a, op);
      var s4 := Goto(states[3], t, Claim(op, own));
      Append(states, events, s4, Internal(t));
      var more, rest := LoneTakes(s4, t, op, own);
      states, events := Join(states + [s4], events + [Internal(t)], more, rest, t);
    }
  }

  /** From the claim on. */
  lemma LoneTakes<T>(s: State<T>, t: Tid, op: Op<T>, own: nat) returns (states: seq<State<T>>, events: seq<Event<T>>)
    requires WellFormed(s) && t in s.pcs && own < s.cap && s.pcs[t] == Claim(op, own) && own == Own(s, op)
    requires s.slots[Target(op, own, s.cap)].state == Wanted(op)
    ensures Segment(states, events) && |events| == 4 && states[0] == s
    ensures Lone(events, 0, 3, t) && events[3].Return? && events[3].tid == t
  {
    var s1 := Goto(SetSlot(s, Target(op, own, s.cap), Held(op)), t, Claimed(op, own));
    var s2 := Goto(SetOwn(s1, op, Moved(op, own, s.cap)), t, Committed(op, own));
    Append([s], [], s1, Internal(t));
    Append([s, s1], [Internal(t)], s2, Linearize(t));
    var more, rest := LoneEnds(s2, t, op, own);
    states, events := Join([s, s1, s2], [Internal(t), Linearize(t)], more, rest, t);
  }

  /** From the effect on. */
  lemma LoneEnds<T>(s: State<T>, t: Tid, op: Op<T>, own: nat) returns (states: seq<State<T>>, events: seq<Event<T>>)
    requires WellFormed(s) && t in s.pcs && own < s.cap && s.pcs[t] == Committed(op, own)
    ensures Segment(states, events) && |events| == 2 && states[0] == s
    ensures Lone(events, 0, 1, t) && events[1].Return? && events[1].tid == t
  {
    var i := Target(op, own, s.cap);
    var res := if op.IsPush() then Pushed else Popped(s.slots[i].data);
    var data := if op.IsPush() then Some(op.item) else None;
    var s1 := Goto(s.(slots := s.slots[i := s.slots[i].(data := data)]), t, Finishing(op, own, res));
    var s2 := Goto(SetSlot(s1, i, Left(op)), t, Idle);
    Append([s], [], s1, Internal(t));
    Append([s, s1], [Internal(t)], s2, Return(t, res));
    states, events := [s, s1, s2], [Internal(t), Return(t, res)];
  }

  lemma Join<T>(a: seq<State<T>>, e: seq<Event<T>>, b: seq<State<T>>, f: seq<Event<T>>, t: Tid)
    returns (states: seq<State<T>>, events: seq<Event<T>>)
    requires Segment(a, e) && Segment(b, f) && a[|e|] == b[0] && 0 < |f|
    requires Lone(e, 0, |e|, t) && Lone(f, 0, |f| - 1, t)
    ensures Segment(states, events) && |events| == |e| + |f| && states[0] == a[0]
    ensures events == e + f && Lone(events, 0, |events| - 1, t)
  {
    states, events := a + b[1..], e + f;
    forall k | 0 <= k < |events| ensures SegmentStep(states, events, k) {
      if k < |e| {
        assert SegmentStep(a, e, k);
      } else {
        assert SegmentStep(b, f, k - |e|);
      }
    }
  }
}
