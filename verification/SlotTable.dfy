/** What an array of slots means: a finite map, when no operation is under way. */
module SlotTable {
  import opened Ordering
  import opened MapMachine

  /** The machine word that packs a slot's state and version. */
  function Pack(w: Word): nat {
    w.version * VERSIONS + (match w.state case EMPTY => 0 case WRITING => 1 case VALID => 2 case DELETING => 3)
  }

  function StateOf(n: nat): SlotState {
    var code := n % VERSIONS;
    if code == 0 then EMPTY else if code == 1 then WRITING else if code == 2 then VALID else DELETING
  }

  function VersionOf(n: nat): nat {
    (n / VERSIONS) % VERSIONS
  }

  /** Packing a 32-bit version loses nothing and fits 64 bits, so a compare-and-swap on the
      machine word is one on the pair; the all-zero word is the empty slot. */
  lemma PackRoundTrip(w: Word)
    requires w.version < VERSIONS
    ensures StateOf(Pack(w)) == w.state && VersionOf(Pack(w)) == w.version
    ensures Pack(w) < WORD
    ensures Pack(w) == 0 <==> w == Word(EMPTY, 0)
  {
    var code := Pack(w) - w.version * VERSIONS;
    assert Pack(w) / VERSIONS == w.version && Pack(w) % VERSIONS == code by {
      assert 0 <= code < VERSIONS;
    }
  }

  predicate Free<K, V>(slot: Slot<K, V>) {
    slot.word == Word(EMPTY, 0)
  }

  predicate Holds<K, V>(slot: Slot<K, V>) {
    && slot.word.state == VALID
    && slot.entry.Some?
    && slot.entry.value.slotVersion == slot.word.version
  }

  function KeyOf<K, V>(slot: Slot<K, V>): K
    requires Holds(slot)
  {
    slot.entry.value.key
  }

  /** At rest every slot is free or holds an entry, and no two hold the same key. */
  ghost predicate Good<K, V>(slots: seq<Slot<K, V>>) {
    && (forall i :: 0 <= i < |slots| ==> Free(slots[i]) || Holds(slots[i]))
    && (forall i, j :: 0 <= i < j < |slots| && Holds(slots[i]) && Holds(slots[j]) ==>
          KeyOf(slots[i]) != KeyOf(slots[j]))
  }

  /** The map an array of slots stands for. */
  ghost function Dict<K, V>(slots: seq<Slot<K, V>>): map<K, V> {
    if slots == [] then map[] else
      var n := |slots| - 1;
      var d := Dict(slots[..n]);
      if Holds(slots[n]) then d[KeyOf(slots[n]) := slots[n].entry.value.value] else d
  }

  /** Slot `i` is the one that holds key `k`. */
  ghost predicate At<K, V>(slots: seq<Slot<K, V>>, i: int, k: K) {
    0 <= i < |slots| && Holds(slots[i]) && KeyOf(slots[i]) == k
  }

  lemma {:induction false} DictAt<K, V>(slots: seq<Slot<K, V>>, i: nat)
    requires Good(slots) && i < |slots| && Holds(slots[i])
    ensures KeyOf(slots[i]) in Dict(slots) && Dict(slots)[KeyOf(slots[i])] == slots[i].entry.value.value
  {
    var n := |slots| - 1;
    if i == n {
    } else {
      DictAt(slots[..n], i);
    }
  }

  lemma {:induction false} DictHas<K, V>(slots: seq<Slot<K, V>>, k: K) returns (i: nat)
    requires k in Dict(slots)
    ensures At(slots, i, k)
  {
    var n := |slots| - 1;
    if Holds(slots[n]) && KeyOf(slots[n]) == k {
      i := n;
    } else {
      i := DictHas(slots[..n], k);
    }
  }

  /** The number of keys is the number of valid slots. */
  lemma {:induction false} DictSize<K, V>(slots: seq<Slot<K, V>>)
    requires Good(slots)
    ensures |Dict(slots)| == ValidCount(slots)
  {
    if slots == [] {
    } else {
      var n := |slots| - 1;
      DictSize(slots[..n]);
      if Holds(slots[n]) && KeyOf(slots[n]) in Dict(slots[..n]) {
        var i := DictHas(slots[..n], KeyOf(slots[n]));
        assert false;
      }
    }
  }

  lemma {:induction false} ValidCountUpdate<K, V>(slots: seq<Slot<K, V>>, i: nat, slot: Slot<K, V>)
    requires i < |slots|
    ensures ValidCount(slots[i := slot]) ==
            ValidCount(slots) + (if slot.word.state == VALID then 1 else 0)
                            - (if slots[i].word.state == VALID then 1 else 0)
  {
    var n := |slots| - 1;
    if i < n {
      ValidCountUpdate(slots[..n], i, slot);
      assert slots[i := slot][..n] == slots[..n][i := slot];
    } else {
      assert slots[i := slot][..n] == slots[..n];
    }
  }

  /** A table with no free slot is one with all slots occupied. */
  lemma {:induction false} FullWhen<K, V>(slots: seq<Slot<K, V>>)
    requires Good(slots)
    ensures ValidCount(slots) == |slots| <==> forall i :: 0 <= i < |slots| ==> !Free(slots[i])
  {
    if slots == [] {
    } else {
      var n := |slots| - 1;
      FullWhen(slots[..n]);
      assert forall i :: 0 <= i < n ==> slots[..n][i] == slots[i];
    }
  }

  /** A change to slot `i` changes the map at the keys of its old and new entry only. */
  lemma OtherKeys<K, V>(slots: seq<Slot<K, V>>, slots': seq<Slot<K, V>>, i: nat, k: K)
    requires Good(slots) && Good(slots') && |slots| == |slots'| && i < |slots|
    requires forall j :: 0 <= j < |slots| && j != i ==> slots'[j] == slots[j]
    requires k in Dict(slots) && !At(slots, i, k)
    ensures k in Dict(slots') && Dict(slots')[k] == Dict(slots)[k]
  {
    var j := DictHas(slots, k);
    DictAt(slots, j);
    DictAt(slots', j);
  }

  /** Writing an entry over a free slot, for a new key, or over that key's own slot. */
  lemma Stored<K, V>(slots: seq<Slot<K, V>>, i: nat, slot: Slot<K, V>)
    requires Good(slots) && i < |slots| && Holds(slot)
    requires if Holds(slots[i]) then KeyOf(slots[i]) == KeyOf(slot) else KeyOf(slot) !in Dict(slots)
    ensures Good(slots[i := slot])
    ensures Dict(slots[i := slot]) == Dict(slots)[KeyOf(slot) := slot.entry.value.value]
  {
    var slots' := slots[i := slot];
    forall j | 0 <= j < |slots| && j != i && Holds(slots[j]) ensures KeyOf(slots[j]) != KeyOf(slot) {
      DictAt(slots, j);
    }
    assert Good(slots');
    var d := Dict(slots)[KeyOf(slot) := slot.entry.value.value];
    DictAt(slots', i);
    forall k | k in d ensures k in Dict(slots') && Dict(slots')[k] == d[k] {
      if k != KeyOf(slot) {
        OtherKeys(slots, slots', i, k);
      }
    }
    forall k | k in Dict(slots') ensures k in d {
      if k != KeyOf(slot) {
        OtherKeys(slots', slots, i, k);
      }
    }
  }

  lemma Cleared<K, V>(slots: seq<Slot<K, V>>, i: nat, slot: Slot<K, V>)
    requires Good(slots) && i < |slots| && Holds(slots[i]) && Free(slot)
    ensures Good(slots[i := slot])
    ensures Dict(slots[i := slot]) == Dict(slots) - {KeyOf(slots[i])}
  {
    var slots' := slots[i := slot];
    assert Good(slots');
    var d := Dict(slots) - {KeyOf(slots[i])};
    forall k | k in d ensures k in Dict(slots') && Dict(slots')[k] == d[k] {
      OtherKeys(slots, slots', i, k);
    }
    forall k | k in Dict(slots') ensures k in d {
      OtherKeys(slots', slots, i, k);
      var j := DictHas(slots', k);
      assert j != i;
    }
  }

  function CandidateOf<K, V>(slots: seq<Slot<K, V>>, i: nat): Candidate<K, V>
    requires i < |slots| && Holds(slots[i])
  {
    var e := slots[i].entry.value;
    Candidate(e.key, e.value, e.insertVersion, i, slots[i].word.version)
  }

  /** What an undisturbed scan collects. */
  function Snapshot<K, V>(slots: seq<Slot<K, V>>): seq<Candidate<K, V>> {
    if slots == [] then [] else
      var n := |slots| - 1;
      Snapshot(slots[..n]) + if Holds(slots[n]) then [CandidateOf(slots, n)] else []
  }

  /** A scan collects the entries that are there, and misses none. */
  lemma {:induction false} SnapshotExact<K, V>(slots: seq<Slot<K, V>>)
    ensures forall c :: c in Snapshot(slots) ==>
              c.index < |slots| && Holds(slots[c.index]) && c == CandidateOf(slots, c.index)
    ensures forall i :: 0 <= i < |slots| && Holds(slots[i]) ==> CandidateOf(slots, i) in Snapshot(slots)
    ensures |Snapshot(slots)| <= |slots|
  {
    if slots == [] {
    } else {
      var n := |slots| - 1;
      SnapshotExact(slots[..n]);
      forall i | 0 <= i < |slots| && Holds(slots[i]) ensures CandidateOf(slots, i) in Snapshot(slots) {
        if i < n {
          assert CandidateOf(slots[..n], i) == CandidateOf(slots, i);
        }
      }
      forall c | c in Snapshot(slots)
        ensures c.index < |slots| && Holds(slots[c.index]) && c == CandidateOf(slots, c.index)
      {
        if c in Snapshot(slots[..n]) {
          assert c == CandidateOf(slots[..n], c.index);
        }
      }
    }
  }

  /** The least candidate of a scan is the entry with the least key of the map. */
  lemma SnapshotLeast<K(!new), V>(le: (K, K) -> bool, slots: seq<Slot<K, V>>)
    requires TotalOrder(le) && Good(slots)
    ensures Snapshot(slots) == [] <==> Dict(slots) == map[]
    ensures Snapshot(slots) != [] ==>
              var c := Snapshot(slots)[MinIndex(le, Snapshot(slots))];
              && c.index < |slots| && Holds(slots[c.index]) && c == CandidateOf(slots, c.index)
              && c.key in Dict(slots) && Dict(slots)[c.key] == c.value
              && forall k :: k in Dict(slots) ==> le(c.key, k)
  {
    SnapshotExact(slots);
    var cs := Snapshot(slots);
    if cs == [] {
      if k :| k in Dict(slots) {
        var i := DictHas(slots, k);
        assert false;
      }
    } else {
      var m := MinIndex(le, cs);
      var c := cs[m];
      assert c in cs;
      DictAt(slots, c.index);
      forall k | k in Dict(slots) ensures le(c.key, k) {
        var i := DictHas(slots, k);
        assert CandidateOf(slots, i) in cs;
        var j: nat :| j < |cs| && cs[j] == CandidateOf(slots, i);
        MinIndexLeast(le, cs, j);
      }
    }
  }
}
