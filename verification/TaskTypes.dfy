/** What all models say about tasks. */
module TaskTypes {
  type TaskId = nat

  datatype TaskState = Running | Ready | Blocked | Exited

  /** A queue without task `t`. */
  function Without(q: seq<TaskId>, t: TaskId): seq<TaskId> {
    if q == [] then [] else (if q[0] == t then [] else [q[0]]) + Without(q[1..], t)
  }

  /** Every other task stays in the queue as often as it was, and `t` is gone. */
  lemma {:induction false} WithoutExact(q: seq<TaskId>, t: TaskId)
    ensures multiset(Without(q, t)) == multiset(q)[t := 0]
  {
    if q == [] {
    } else {
      WithoutExact(q[1..], t);
      assert q == [q[0]] + q[1..];
    }
  }

  /** Cutting a queue in two loses nothing. */
  lemma Cut(q: seq<TaskId>, n: nat)
    requires n <= |q|
    ensures multiset(q) == multiset(q[n..]) + multiset(q[..n])
  {
    assert q == q[..n] + q[n..];
  }

  lemma {:induction false} WithoutMember(q: seq<TaskId>, t: TaskId, u: TaskId)
    ensures u in Without(q, t) <==> u in q && u != t
  {
    if q == [] {
    } else {
      WithoutMember(q[1..], t, u);
    }
  }
}
