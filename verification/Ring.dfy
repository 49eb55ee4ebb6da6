/** Index arithmetic of a circular buffer with `cap` slots. */
module Ring {

  /** The index after `i`, as the ring computes it when an index moves up. */
  function Succ(i: nat, cap: nat): nat
    requires i < cap
  {
    (i + 1) % cap
  }

  /** The index before `i`, as the ring computes it when an index moves down. */
  function Pred(i: nat, cap: nat): nat
    requires i < cap
  {
    if i == 0 then cap - 1 else i - 1
  }

  /** How many steps up from `head` slot `i` lies: the position of its item in the sequence. */
  function Offset(i: nat, head: nat, cap: nat): nat
    requires i < cap && head < cap
  {
    if i >= head then i - head else i + cap - head
  }

  /** The slot that lies `k` steps up from `head`. */
  function At(head: nat, k: nat, cap: nat): nat
    requires head < cap && k <= cap
  {
    if head + k < cap then head + k else head + k - cap
  }

  /** `Succ` without the remainder, the form the proofs use. */
  lemma SuccCases(i: nat, cap: nat)
    requires i < cap
    ensures Succ(i, cap) == if i + 1 == cap then 0 else i + 1
  {
    if i + 1 < cap {
      assert (i + 1) % cap == i + 1;
    }
  }

  /** `At` and `Offset` are inverse to each other. */
  lemma AtOffset(head: nat, i: nat, k: nat, cap: nat)
    requires head < cap && i < cap && k < cap
    ensures At(head, k, cap) < cap
    ensures Offset(At(head, k, cap), head, cap) == k
    ensures At(head, Offset(i, head, cap), cap) == i
  {
  }
}
