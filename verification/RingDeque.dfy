/** The deque driven by one thread at a time: the ring buffer, its slot states and its
    indices, updated in place, against the sequence they stand for. */
module RingDeque {
  import opened Wrappers
  import opened Ring
  import opened DequeSpec
  import opened DequeMachine

  /** Slots from `head` up to `tail` are READY and hold an item, all others are EMPTY. */
  ghost predicate Shape<T>(cells: seq<Option<T>>, states: seq<SlotState>, head: nat, tail: nat) {
    && |cells| == |states|
    && head < |cells| && tail < |cells|
    && forall i :: 0 <= i < |cells| ==>
         if Offset(i, head, |cells|) < Offset(tail, head, |cells|)
         then states[i] == READY && cells[i].Some?
         else states[i] == EMPTY
  }

  /** The items a well-shaped ring holds, front first. */
  ghost function Window<T>(cells: seq<Option<T>>, states: seq<SlotState>, head: nat, tail: nat): (q: seq<T>)
    requires Shape(cells, states, head, tail)
    ensures |q| == Offset(tail, head, |cells|)
  {
    var cap := |cells|;
    seq(Offset(tail, head, cap), k requires 0 <= k < Offset(tail, head, cap) => cells[At(head, k, cap)].value)
  }

  /** Filling the free slot before the front puts its item at the front. */
  lemma FillFront<T>(cells: seq<Option<T>>, states: seq<SlotState>, head: nat, tail: nat, x: T)
    requires Shape(cells, states, head, tail) && Pred(head, |cells|) != tail
    ensures var i := Pred(head, |cells|);
            && states[i] == EMPTY
            && Shape(cells[i := Some(x)], states[i := READY], i, tail)
            && Window(cells[i := Some(x)], states[i := READY], i, tail) == [x] + Window(cells, states, head, tail)
  {
  }

  lemma FillBack<T>(cells: seq<Option<T>>, states: seq<SlotState>, head: nat, tail: nat, x: T)
    requires Shape(cells, states, head, tail) && Succ(tail, |cells|) != head
    ensures var t := Succ(tail, |cells|);
            && states[tail] == EMPTY
            && Shape(cells[tail := Some(x)], states[tail := READY], head, t)
            && Window(cells[tail := Some(x)], states[tail := READY], head, t) == Window(cells, states, head, tail) + [x]
  {
    SuccCases(tail, |cells|);
  }

  lemma DrainFront<T>(cells: seq<Option<T>>, states: seq<SlotState>, head: nat, tail: nat)
    requires Shape(cells, states, head, tail) && head != tail
    ensures var h := Succ(head, |cells|); var q := Window(cells, states, head, tail);
            && states[head] == READY
            && cells[head] == Some(q[0])
            && Shape(cells, states[head := EMPTY], h, tail)
            && Window(cells, states[head := EMPTY], h, tail) == q[1..]
  {
    SuccCases(head, |cells|);
  }

  lemma DrainBack<T>(cells: seq<Option<T>>, states: seq<SlotState>, head: nat, tail: nat)
    requires Shape(cells, states, head, tail) && head != tail
    ensures var t := Pred(tail, |cells|); var q := Window(cells, states, head, tail);
            && states[t] == READY
            && cells[t] == Some(q[|q| - 1])
            && Shape(cells, states[t := EMPTY], head, t)
            && Window(cells, states[t := EMPTY], head, t) == q[..|q| - 1]
  {
  }

  /** Whether the `k`-th weak compare-and-swap of a call fails although it could succeed.
      Any finite pattern of failures is possible. */
  predicate Spurious(weak: seq<bool>, k: nat) {
    k < |weak| && weak[k]
  }

  class Deque<T> {
    const data: array<Option<T>>
    const states: array<SlotState>
    var head: nat
    var tail: nat

    ghost predicate Valid()
      reads this, data, states
    {
      Shape(data[..], states[..], head, tail)
    }

    /** The stored items, front first. */
    ghost function Contents(): (q: seq<T>)
      requires Valid()
      reads this, data, states
    {
      Window(data[..], states[..], head, tail)
    }

    constructor (capacity: nat)
      requires 0 < capacity
      ensures Valid() && fresh(data) && fresh(states)
      ensures data.Length == capacity && Contents() == []
    {
      data := new Option<T>[capacity](_ => None);
      states := new SlotState[capacity](_ => EMPTY);
      head, tail := 0, 0;
    }

    method PushFront(item: T, weak: seq<bool>) returns (r: Result<T>)
      requires Valid()
      modifies this, data, states
      ensures Valid()
      ensures r == if |old(Contents())| == data.Length - 1 then Full(item) else Pushed
      ensures Contents() == if r.Pushed? then [item] + old(Contents()) else old(Contents())
    {
      var k := 0;
      while true
        invariant head == old(head) && tail == old(tail)
        invariant data[..] == old(data[..]) && states[..] == old(states[..])
        decreases |weak| - k
      {
        var newHead := if head == 0 then data.Length - 1 else head - 1;
        assert newHead == Pred(head, data.Length);
        if newHead == tail {
          return Full(item);
        }
        FillFront(data[..], states[..], head, tail, item);
        if states[newHead] == EMPTY && !Spurious(weak, k) {
          states[newHead] := WRITING;
          if !Spurious(weak, k + 1) {
            var slot := newHead;
            head := newHead;
            data[slot] := Some(item);
            states[slot] := READY;
            assert data[..] == old(data[..])[slot := Some(item)];
            assert states[..] == old(states[..])[slot := READY];
            return Pushed;
          }
          states[newHead] := EMPTY;
        }
        k := k + 2;
      }
    }

    method PushBack(item: T, weak: seq<bool>) returns (r: Result<T>)
      requires Valid()
      modifies this, data, states
      ensures Valid()
      ensures r == if |old(Contents())| == data.Length - 1 then Full(item) else Pushed
      ensures Contents() == if r.Pushed? then old(Contents()) + [item] else old(Contents())
    {
      var k := 0;
      while true
        invariant head == old(head) && tail == old(tail)
        invariant data[..] == old(data[..]) && states[..] == old(states[..])
        decreases |weak| - k
      {
        var newTail := (tail + 1) % data.Length;
        SuccCases(tail, data.Length);
        if newTail == head {
          return Full(item);
        }
        FillBack(data[..], states[..], head, tail, item);
        if states[tail] == EMPTY && !Spurious(weak, k) {
          states[tail] := WRITING;
          if !Spurious(weak, k + 1) {
            var slot := tail;
            tail := newTail;
            data[slot] := Some(item);
            states[slot] := READY;
            assert data[..] == old(data[..])[slot := Some(item)];
            assert states[..] == old(states[..])[slot := READY];
            return Pushed;
          }
          states[tail] := EMPTY;
        }
        k := k + 2;
      }
    }

    /** With one thread the slot at the front of a non-empty ring is READY, so the
        early answer for an EMPTY slot never happens. */
    method PopFront(weak: seq<bool>) returns (r: Option<T>)
      requires Valid()
      modifies this, data, states
      ensures Valid()
      ensures r.None? <==> old(Contents()) == []
      ensures old(Contents()) == if r.Some? then [r.value] + Contents() else Contents()
    {
      var k := 0;
      while true
        invariant head == old(head) && tail == old(tail)
        invariant data[..] == old(data[..]) && states[..] == old(states[..])
        decreases |weak| - k
      {
        if head == tail {
          return None;
        }
        DrainFront(data[..], states[..], head, tail);
        if states[head] == READY && !Spurious(weak, k) {
          states[head] := READING;
          var newHead := (head + 1) % data.Length;
          assert newHead == Succ(head, data.Length);
          if !Spurious(weak, k + 1) {
            var slot := head;
            head := newHead;
            r := data[slot];
            states[slot] := EMPTY;
            assert states[..] == old(states[..])[slot := EMPTY];
            return;
          }
          states[head] := READY;
        }
        k := k + 2;
      }
    }

    method PopBack(weak: seq<bool>) returns (r: Option<T>)
      requires Valid()
      modifies this, data, states
      ensures Valid()
      ensures r.None? <==> old(Contents()) == []
      ensures old(Contents()) == if r.Some? then Contents() + [r.value] else Contents()
    {
      var k := 0;
      while true
        invariant head == old(head) && tail == old(tail)
        invariant data[..] == old(data[..]) && states[..] == old(states[..])
        decreases |weak| - k
      {
        if head == tail {
          return None;
        }
        var last := if tail == 0 then data.Length - 1 else tail - 1;
        DrainBack(data[..], states[..], head, tail);
        if states[last] == READY && !Spurious(weak, k) {
          states[last] := READING;
          if !Spurious(weak, k + 1) {
            tail := last;
            r := data[last];
            states[last] := EMPTY;
            assert states[..] == old(states[..])[last := EMPTY];
            return;
          }
          states[last] := READY;
        }
        k := k + 2;
      }
    }

    method Len() returns (n: nat)
      requires Valid()
      ensures n == |Contents()|
    {
      n := if tail >= head then tail - head else data.Length - head + tail;
    }

    method IsEmpty() returns (empty: bool)
      requires Valid()
      ensures empty <==> Contents() == []
    {
      empty := head == tail;
    }

    /** What dropping the deque does: every item is taken out, front first. */
    method Drop() returns (dropped: seq<T>)
      requires Valid()
      modifies this, data, states
      ensures Valid() && Contents() == []
      ensures dropped == old(Contents())
    {
      dropped := [];
      while true
        invariant Valid()
        invariant old(Contents()) == dropped + Contents()
        decreases |Contents()|
      {
        ghost var before := Contents();
        var item := PopFront([]);
        if item.None? {
          return;
        }
        assert dropped + before == (dropped + [item.value]) + Contents();
        dropped := dropped + [item.value];
      }
    }
  }
}
