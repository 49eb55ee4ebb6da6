/** The deque as a plain sequence, and the canonical atomic object that shows
    every operation as an invocation, one indivisible effect and a response. */
module DequeSpec {
  import opened Wrappers

  type Tid = nat

  datatype Op<T> =
    | PushFront(item: T)
    | PushBack(item: T)
    | PopFront
    | PopBack
  {
    predicate IsPush() { PushFront? || PushBack? }
    predicate AtFront() { PushFront? || PopFront? }
  }

  /** What an operation returns. `Popped(None)` would be an uninitialised read. */
  datatype Result<T> =
    | Pushed
    | Full(item: T)
    | Popped(got: Option<T>)
    | Nothing

  /** The answer of an operation that gave up. */
  function Failure<T>(op: Op<T>): Result<T> {
    if op.IsPush() then Full(op.item) else Nothing
  }

  /** The effect of one successful operation on the sequence and its answer. */
  function Apply<T>(q: seq<T>, op: Op<T>): Option<(seq<T>, Result<T>)> {
    match op
    case PushFront(x) => Some(([x] + q, Pushed))
    case PushBack(x) => Some((q + [x], Pushed))
    case PopFront => if q == [] then None else Some((q[1..], Popped(Some(q[0]))))
    case PopBack => if q == [] then None else Some((q[..|q| - 1], Popped(Some(q[|q| - 1]))))
  }

  /** What happens in one step of thread `tid`. `Internal` is invisible outside. */
  datatype Event<T> =
    | Internal(tid: Tid)
    | Invoke(tid: Tid, op: Op<T>)
    | Linearize(tid: Tid)
    | Return(tid: Tid, res: Result<T>)

  datatype Phase<T> = Free | Pending(op: Op<T>) | Answered(op: Op<T>, res: Result<T>)

  datatype Spec<T> = Spec(q: seq<T>, phases: map<Tid, Phase<T>>)

  ghost predicate SpecInit<T>(a: Spec<T>) {
    a.q == [] && forall t :: t in a.phases ==> a.phases[t] == Free
  }

  /** One step of the atomic deque. Only `Linearize` touches the sequence, and it
      does so by `Apply`; an operation that gives up leaves the sequence alone. */
  ghost predicate SpecStep<T>(a: Spec<T>, a': Spec<T>, ev: Event<T>) {
    && ev.tid in a.phases
    && match ev
       case Internal(_) => a' == a
       case Invoke(t, op) =>
         a.phases[t] == Free && a' == a.(phases := a.phases[t := Pending(op)])
       case Linearize(t) =>
         && a.phases[t].Pending?
         && Apply(a.q, a.phases[t].op).Some?
         && (var op := a.phases[t].op;
             var (q', res) := Apply(a.q, op).value;
             a' == Spec(q', a.phases[t := Answered(op, res)]))
       case Return(t, res) =>
         && (|| (a.phases[t].Answered? && res == a.phases[t].res)
             || (a.phases[t].Pending? && res == Failure(a.phases[t].op)))
         && a' == a.(phases := a.phases[t := Free])
  }

  ghost predicate SpecRun<T>(specs: seq<Spec<T>>, events: seq<Event<T>>) {
    && |specs| == |events| + 1
    && SpecInit(specs[0])
    && forall k {:trigger events[k]} :: 0 <= k < |events| ==> SpecStep(specs[k], specs[k + 1], events[k])
  }

  lemma SpecRunExtend<T>(specs: seq<Spec<T>>, events: seq<Event<T>>, a: Spec<T>, ev: Event<T>)
    requires SpecRun(specs, events) && SpecStep(specs[|events|], a, ev)
    ensures SpecRun(specs + [a], events + [ev])
  {
    var specs', events' := specs + [a], events + [ev];
    forall k | 0 <= k < |events'| ensures SpecStep(specs'[k], specs'[k + 1], events'[k]) {
      if k < |events| {
        assert events'[k] == events[k];
      }
    }
  }
}
