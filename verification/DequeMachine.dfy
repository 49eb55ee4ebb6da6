/** The lock-free deque as a step system: any number of threads, one step per
    atomic access, sequentially consistent memory. */
module DequeMachine {
  import opened Wrappers
  import opened Ring
  import opened DequeSpec

  datatype SlotState = EMPTY | WRITING | READY | READING

  datatype Slot<T> = Slot(state: SlotState, data: Option<T>)

  /** Where a thread stands inside an operation. `own` is the thread's copy of the
      index at its end of the deque (head or tail), `other` that of the other end. */
  datatype Pc<T> =
    | Idle
    | Loop(op: Op<T>)
    | GotOwn(op: Op<T>, own: nat)
    | GotBoth(op: Op<T>, own: nat, other: nat)
    | Claim(op: Op<T>, own: nat)
    | Claimed(op: Op<T>, own: nat)
    | Rollback(op: Op<T>, own: nat)
    | Committed(op: Op<T>, own: nat)
    | Finishing(op: Op<T>, own: nat, res: Result<T>)

  datatype State<T> = State(cap: nat, head: nat, tail: nat,
                            slots: seq<Slot<T>>, pcs: map<Tid, Pc<T>>)

  ghost predicate WellFormed<T>(s: State<T>) {
    && s.head < s.cap && s.tail < s.cap && |s.slots| == s.cap
    && forall t :: t in s.pcs ==> PcInBounds(s.pcs[t], s.cap)
  }

  predicate PcInBounds<T>(pc: Pc<T>, cap: nat) {
    match pc
    case Idle | Loop(_) => true
    case GotOwn(_, own) => own < cap
    case GotBoth(_, own, other) => own < cap && other < cap
    case Claim(_, own) => own < cap
    case Claimed(_, own) => own < cap
    case Rollback(_, own) => own < cap
    case Committed(_, own) => own < cap
    case Finishing(_, own, _) => own < cap
  }

  /** The slot an operation works on, given its copy of its own index. */
  function Target<T>(op: Op<T>, own: nat, cap: nat): (i: nat)
    requires own < cap
    ensures i < cap
  {
    if op.PushFront? || op.PopBack? then Pred(own, cap) else own
  }

  /** The value the operation moves its own index to. */
  function Moved<T>(op: Op<T>, own: nat, cap: nat): (i: nat)
    requires own < cap
    ensures i < cap
  {
    if op.PushFront? || op.PopBack? then Pred(own, cap) else Succ(own, cap)
  }

  function Own<T>(s: State<T>, op: Op<T>): nat { if op.AtFront() then s.head else s.tail }

  function Other<T>(s: State<T>, op: Op<T>): nat { if op.AtFront() then s.tail else s.head }

  /** The full check of a push and the empty check of a pop, on the thread's copies. */
  predicate GivesUp<T>(op: Op<T>, own: nat, other: nat, cap: nat)
    requires own < cap
  {
    if op.IsPush() then Moved(op, own, cap) == other else own == other
  }

  /** The slot state an operation claims, holds, and leaves behind. */
  function Wanted<T>(op: Op<T>): SlotState { if op.IsPush() then EMPTY else READY }
  function Held<T>(op: Op<T>): SlotState { if op.IsPush() then WRITING else READING }
  function Left<T>(op: Op<T>): SlotState { if op.IsPush() then READY else EMPTY }

  function Goto<T>(s: State<T>, t: Tid, pc: Pc<T>): State<T> {
    s.(pcs := s.pcs[t := pc])
  }

  function SetSlot<T>(s: State<T>, i: nat, state: SlotState): State<T>
    requires i < |s.slots|
  {
    s.(slots := s.slots[i := s.slots[i].(state := state)])
  }

  function SetOwn<T>(s: State<T>, op: Op<T>, i: nat): State<T> {
    if op.AtFront() then s.(head := i) else s.(tail := i)
  }

  ghost predicate Init<T>(s: State<T>) {
    && s.cap > 0 && s.head == s.tail == 0 && |s.slots| == s.cap
    && (forall i :: 0 <= i < s.cap ==> s.slots[i] == Slot(EMPTY, None))
    && (forall t :: t in s.pcs ==> s.pcs[t] == Idle)
  }

  /** One step of thread `ev.tid`. */
  ghost predicate Step<T>(s: State<T>, s': State<T>, ev: Event<T>)
    requires WellFormed(s)
  {
    && ev.tid in s.pcs
    && var t := ev.tid;
       match s.pcs[t]
       case Idle => ev.Invoke? && s' == Goto(s, t, Loop(ev.op))
       case Loop(op) => ev.Internal? && s' == Goto(s, t, GotOwn(op, Own(s, op)))
       case GotOwn(op, own) => ev.Internal? && s' == Goto(s, t, GotBoth(op, own, Other(s, op)))
       case GotBoth(op, own, other) => StepRecheck(s, s', ev, op, own, other)
       case Claim(op, own) => StepClaim(s, s', ev, op, own)
       case Claimed(op, own) => StepCommit(s, s', ev, op, own)
       case Rollback(op, own) =>
         ev.Internal? && s' == Goto(SetSlot(s, Target(op, own, s.cap), Wanted(op)), t, Loop(op))
       case Committed(op, own) => StepTransfer(s, s', ev, op, own)
       case Finishing(op, own, res) =>
         && ev == Return(t, res)
         && s' == Goto(SetSlot(s, Target(op, own, s.cap), Left(op)), t, Idle)
  }

  /** The own index is loaded again and must not have changed; then the full or
      empty check decides whether to give up. */
  ghost predicate StepRecheck<T>(s: State<T>, s': State<T>, ev: Event<T>, op: Op<T>, own: nat, other: nat)
    requires own < s.cap
  {
    var t := ev.tid;
    if Own(s, op) != own then ev.Internal? && s' == Goto(s, t, Loop(op))
    else if GivesUp(op, own, other, s.cap) then ev == Return(t, Failure(op)) && s' == Goto(s, t, Idle)
    else ev.Internal? && s' == Goto(s, t, Claim(op, own))
  }

  /** The weak compare-and-swap on the slot state. It may fail although the state
      is the wanted one; a pop that meets an empty slot gives up. */
  ghost predicate StepClaim<T>(s: State<T>, s': State<T>, ev: Event<T>, op: Op<T>, own: nat)
    requires WellFormed(s) && own < s.cap
  {
    var t := ev.tid;
    var i := Target(op, own, s.cap);
    || (&& s.slots[i].state == Wanted(op)
        && ev.Internal? && s' == Goto(SetSlot(s, i, Held(op)), t, Claimed(op, own)))
    || (&& (op.IsPush() || s.slots[i].state != EMPTY)
        && ev.Internal? && s' == Goto(s, t, Loop(op)))
    || (&& !op.IsPush() && s.slots[i].state == EMPTY
        && ev == Return(t, Nothing) && s' == Goto(s, t, Idle))
  }

  /** The weak compare-and-swap on the own index: success is the point where the
      operation takes effect; it may fail although the index is unchanged. */
  ghost predicate StepCommit<T>(s: State<T>, s': State<T>, ev: Event<T>, op: Op<T>, own: nat)
    requires own < s.cap
  {
    var t := ev.tid;
    || (&& Own(s, op) == own
        && ev == Linearize(t)
        && s' == Goto(SetOwn(s, op, Moved(op, own, s.cap)), t, Committed(op, own)))
    || (ev.Internal? && s' == Goto(s, t, Rollback(op, own)))
  }

  /** The plain access to the slot's cell: a push writes its item, a pop moves the
      item out and leaves the cell uninitialised. */
  ghost predicate StepTransfer<T>(s: State<T>, s': State<T>, ev: Event<T>, op: Op<T>, own: nat)
    requires WellFormed(s) && own < s.cap
  {
    var t := ev.tid;
    var i := Target(op, own, s.cap);
    && ev.Internal?
    && if op.IsPush() then
         s' == Goto(s.(slots := s.slots[i := s.slots[i].(data := Some(op.item))]),
                    t, Finishing(op, own, Pushed))
       else
         s' == Goto(s.(slots := s.slots[i := s.slots[i].(data := None)]),
                    t, Finishing(op, own, Popped(s.slots[i].data)))
  }

  ghost predicate Run<T>(states: seq<State<T>>, events: seq<Event<T>>) {
    && |states| == |events| + 1
    && Init(states[0])
    && forall k {:trigger events[k]} :: 0 <= k < |events| ==>
         WellFormed(states[k]) && Step(states[k], states[k + 1], events[k])
  }

  lemma RunExtend<T>(states: seq<State<T>>, events: seq<Event<T>>, s: State<T>, ev: Event<T>)
    requires Run(states, events) && WellFormed(states[|events|]) && Step(states[|events|], s, ev)
    ensures Run(states + [s], events + [ev])
  {
    var states', events' := states + [s], events + [ev];
    forall k | 0 <= k < |events'|
      ensures WellFormed(states'[k]) && Step(states'[k], states'[k + 1], events'[k])
    {
      if k < |events| {
        assert events'[k] == events[k];
      }
    }
  }

  lemma RunPrefix<T>(states: seq<State<T>>, events: seq<Event<T>>, n: nat)
    requires Run(states, events) && n <= |events|
    ensures Run(states[..n + 1], events[..n])
  {
    var states', events' := states[..n + 1], events[..n];
    forall k | 0 <= k < n
      ensures WellFormed(states'[k]) && Step(states'[k], states'[k + 1], events'[k])
    {
      assert events'[k] == events[k];
    }
  }
}
