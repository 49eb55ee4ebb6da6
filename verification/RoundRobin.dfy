/** The round-robin scheduler as an object over the ring deque: every method has the effect
    that the policy model gives it. Tasks are named by number. */
module RoundRobin {
  import opened Wrappers
  import opened TaskTypes
  import opened RingDeque
  import opened RoundRobinModel

  class RRScheduler {
    const maxTimeSlice: int
    const readyQueue: Deque<TaskId>
    var slices: seq<int>

    ghost predicate Valid()
      reads this, readyQueue, readyQueue.data, readyQueue.states
    {
      readyQueue.Valid()
    }

    ghost function State(): RR
      requires Valid()
      reads this, readyQueue, readyQueue.data, readyQueue.states
    {
      RR(readyQueue.data.Length, maxTimeSlice, readyQueue.Contents(), slices)
    }

    constructor (capacity: nat, maxTimeSlice: int, tasks: nat)
      requires 0 < capacity
      ensures Valid() && fresh(readyQueue) && fresh(readyQueue.data) && fresh(readyQueue.states)
      ensures State() == RR(capacity, maxTimeSlice, [], seq(tasks, _ => maxTimeSlice))
    {
      this.maxTimeSlice := maxTimeSlice;
      readyQueue := new Deque(capacity);
      slices := seq(tasks, _ => maxTimeSlice);
    }

    method AddTask(t: TaskId, weak: seq<bool>)
      requires Valid()
      modifies readyQueue, readyQueue.data, readyQueue.states
      ensures Valid() && State() == RoundRobinModel.AddTask(old(State()), t)
    {
      var _ := readyQueue.PushBack(t, weak);
    }

    method PickNextTask(weak: seq<bool>) returns (next: Option<TaskId>)
      requires Valid()
      modifies readyQueue, readyQueue.data, readyQueue.states
      ensures Valid() && (next, State()) == PickNext(old(State()))
    {
      next := readyQueue.PopFront(weak);
    }

    method PutPrevTask(t: TaskId, preempt: bool, weak: seq<bool>)
      requires Valid() && t < |slices|
      modifies this`slices, readyQueue, readyQueue.data, readyQueue.states
      ensures Valid() && State() == PutPrev(old(State()), t, preempt)
      // what is left of the slice is kept at the front; at the back a full one begins
      ensures var keeps := old(slices[t]) > 0 && preempt;
              var q := old(readyQueue.Contents());
              && slices == (if keeps then old(slices) else old(slices)[t := maxTimeSlice])
              && readyQueue.Contents() ==
                 (if |q| == readyQueue.data.Length - 1 then q else if keeps then [t] + q else q + [t])
    {
      if slices[t] > 0 && preempt {
        var _ := readyQueue.PushFront(t, weak);
      } else {
        slices := slices[t := maxTimeSlice];
        var _ := readyQueue.PushBack(t, weak);
      }
    }

    method TaskTick(t: TaskId) returns (resched: bool)
      requires Valid() && t < |slices|
      modifies this`slices
      ensures Valid() && (resched, State()) == Tick(old(State()), t)
      ensures slices == old(slices)[t := old(slices)[t] - 1] && (resched <==> slices[t] <= 0)
    {
      var oldSlice := slices[t];
      slices := slices[t := oldSlice - 1];
      return oldSlice <= 1;
    }
  }
}
