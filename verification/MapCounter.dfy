/** The length counter beside the slots it counts. */
module MapCounter {
  import opened MapMachine
  import opened MapConservation
  import opened MapEffects

  /** The slots that hold a published entry. */
  function Full<K, V>(slots: seq<Slot<K, V>>): set<nat> {
    set i: nat | i < |slots| && Occupied(slots[i].word)
  }

  /** The inserters that have published and not yet counted up. */
  function Adders<K, V>(pcs: seq<Pc<K, V>>): set<nat> {
    set t: nat | t < |pcs| && pcs[t].Add?
  }

  /** The removers that have emptied a slot and not yet counted down. */
  function Subtracters<K, V>(pcs: seq<Pc<K, V>>): set<nat> {
    set t: nat | t < |pcs| && pcs[t].Subtract?
  }

  /** What the counter would be if every inserter and remover had counted. */
  function Balance<K, V>(s: State<K, V>): int {
    |Full(s.slots)| - |Adders(s.pcs)| + |Subtracters(s.pcs)|
  }

  ghost predicate CountInv<K, V>(s: State<K, V>) {
    s.len < WORD && s.len == Balance(s) % WORD
  }

  lemma Without(a: set<nat>, x: nat)
    ensures |a| == |a - {x}| + if x in a then 1 else 0
  {
    if x in a {
      assert a == (a - {x}) + {x};
    } else {
      assert a == a - {x};
    }
  }

  /** One thread moving changes the two sets of counting threads by itself only. */
  lemma MovedThread<K, V>(pcs: seq<Pc<K, V>>, t: nat, pc: Pc<K, V>)
    requires t < |pcs|
    ensures |Adders(pcs[t := pc])| == |Adders(pcs)| - (if pcs[t].Add? then 1 else 0) + (if pc.Add? then 1 else 0)
    ensures |Subtracters(pcs[t := pc])| ==
            |Subtracters(pcs)| - (if pcs[t].Subtract? then 1 else 0) + (if pc.Subtract? then 1 else 0)
  {
    MovedAdder(pcs, t, pc);
    MovedSubtracter(pcs, t, pc);
  }

  lemma MovedAdder<K, V>(pcs: seq<Pc<K, V>>, t: nat, pc: Pc<K, V>)
    requires t < |pcs|
    ensures |Adders(pcs[t := pc])| == |Adders(pcs)| - (if pcs[t].Add? then 1 else 0) + (if pc.Add? then 1 else 0)
  {
    var a, b := Adders(pcs), Adders(pcs[t := pc]);
    assert a - {t} == b - {t};
    Without(a, t);
    Without(b, t);
  }

  lemma MovedSubtracter<K, V>(pcs: seq<Pc<K, V>>, t: nat, pc: Pc<K, V>)
    requires t < |pcs|
    ensures |Subtracters(pcs[t := pc])| ==
            |Subtracters(pcs)| - (if pcs[t].Subtract? then 1 else 0) + (if pc.Subtract? then 1 else 0)
  {
    var a, b := Subtracters(pcs), Subtracters(pcs[t := pc]);
    assert a - {t} == b - {t};
    Without(a, t);
    Without(b, t);
  }

  lemma MovedSlot<K, V>(slots: seq<Slot<K, V>>, i: nat, slot: Slot<K, V>)
    requires i < |slots|
    ensures |Full(slots[i := slot])| ==
            |Full(slots)| - (if Occupied(slots[i].word) then 1 else 0) + (if Occupied(slot.word) then 1 else 0)
  {
    assert Full(slots) - {i} == Full(slots[i := slot]) - {i};
    Without(Full(slots), i);
    Without(Full(slots[i := slot]), i);
  }

  lemma Wrap(len: nat, balance: int, d: int)
    requires len < WORD && len == balance % WORD && -1 <= d <= 1
    ensures (len + (WORD + d)) % WORD == (balance + d) % WORD
  {
    var q := balance / WORD;
    assert balance == q * WORD + len;
    var r := len + (WORD + d);
    var m := if r >= 2 * WORD then 2 else if r >= WORD then 1 else 0;
    assert r == m * WORD + (r - m * WORD) && 0 <= r - m * WORD < WORD;
    assert balance + d == (q + m - 1) * WORD + (r - m * WORD);
    Remainder(r, m, r - m * WORD);
    Remainder(balance + d, q + m - 1, r - m * WORD);
  }

  lemma Remainder(x: int, q: int, r: int)
    requires x == q * WORD + r && 0 <= r < WORD
    ensures x % WORD == r
  {
  }

  /** How a step moves the balance: only counting itself does. */
  lemma BalanceStep<K, V>(le: (K, K) -> bool, s: State<K, V>, s': State<K, V>, t: Tid, act: Action<K, V>,
                          log: Log<K, V>)
    requires Inv(s, log) && Step(le, s, s', t, act)
    ensures Balance(s') == Balance(s) + (if s.pcs[t].Add? then 1 else if s.pcs[t].Subtract? then -1 else 0)
  {
    Effects(le, s, s', t, act, log);
    var pc, pc' := s.pcs[t], s'.pcs[t];
    MovedThread(s.pcs, t, pc');
    var e := EffectOf(pc, pc');
    if e != Untouched {
      MovedSlot(s.slots, pc.i, s'.slots[pc.i]);
    }
    Counting(le, s, s', t, act);
  }

  /** A thread is about to count up after publishing and down after vacating, only. */
  lemma Counting<K, V>(le: (K, K) -> bool, s: State<K, V>, s': State<K, V>, t: Tid, act: Action<K, V>)
    requires Step(le, s, s', t, act) && t < |s'.pcs|
    ensures s'.pcs[t].Add? <==> s.pcs[t].Publish?
    ensures s'.pcs[t].Subtract? <==> s.pcs[t].Vacate?
    ensures s'.len == if s.pcs[t].Add? then (s.len + 1) % WORD
                      else if s.pcs[t].Subtract? then (s.len + WORD - 1) % WORD else s.len
  {
  }

  lemma CountKeeps<K, V>(le: (K, K) -> bool, s: State<K, V>, s': State<K, V>, t: Tid, act: Action<K, V>, log: Log<K, V>)
    requires Inv(s, log) && CountInv(s) && Step(le, s, s', t, act)
    ensures CountInv(s')
  {
    BalanceStep(le, s, s', t, act, log);
    Effects(le, s, s', t, act, log);
    Counting(le, s, s', t, act);
    if s.pcs[t].Add? {
      Wrap(s.len, Balance(s), 1);
      assert (s.len + (WORD + 1)) % WORD == (s.len + 1) % WORD by {
        Wrap(s.len, s.len, 1);
      }
    } else if s.pcs[t].Subtract? {
      Wrap(s.len, Balance(s), -1);
    }
  }

  /** COUNTER: in every state of every run the length word is, modulo the word size,
      the occupied slots less the inserters yet to count plus the removers yet to. */
  lemma {:induction false} CounterThroughout<K, V>(le: (K, K) -> bool, states: seq<State<K, V>>,
                                                   steps: seq<(Tid, Action<K, V>)>, k: nat)
    requires Run(le, states, steps) && k <= |steps|
    ensures CountInv(states[k])
  {
    if k == 0 {
      assert Full(states[0].slots) == {} && Adders(states[0].pcs) == {} && Subtracters(states[0].pcs) == {};
    } else {
      CounterThroughout(le, states, steps, k - 1);
      HistoryHolds(le, states, steps, k - 1);
      HistoryStep(le, states, steps, k - 1);
      CountKeeps(le, states[k - 1], states[k], steps[k - 1].0, steps[k - 1].1, History(states, steps, k - 1));
    }
  }

  lemma {:induction false} ValidCounted<K, V>(slots: seq<Slot<K, V>>)
    requires forall i :: 0 <= i < |slots| ==> slots[i].word.state != DELETING
    ensures ValidCount(slots) == |Full(slots)| <= |slots|
  {
    if slots == [] {
      assert Full(slots) == {};
    } else {
      var n := |slots| - 1;
      ValidCounted(slots[..n]);
      assert Full(slots[..n]) == Full(slots) - {n};
    }
  }

  /** With all threads idle the counter is the exact count. */
  lemma CounterAtRest<K, V>(le: (K, K) -> bool, states: seq<State<K, V>>, steps: seq<(Tid, Action<K, V>)>, k: nat)
    requires Run(le, states, steps) && k <= |steps| && |states[k].slots| < WORD
    requires forall t :: 0 <= t < |states[k].pcs| ==> states[k].pcs[t] == Idle
    ensures states[k].len == ValidCount(states[k].slots)
  {
    OwnedThroughout(le, states, steps, k);
    forall i | 0 <= i < |states[k].slots| ensures states[k].slots[i].word.state != DELETING {
      assert forall t :: !OwnedBy(states[k], i, t);
    }
    CounterThroughout(le, states, steps, k);
    ValidCounted(states[k].slots);
    assert Adders(states[k].pcs) == {} && Subtracters(states[k].pcs) == {};
  }
}
