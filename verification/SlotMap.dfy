/** The ordered map driven by one thread at a time: an unsorted array of slots, scanned
    and updated in place, that behaves as a finite sorted map. */
module SlotMap {
  import opened Wrappers
  import opened Ordering
  import opened MapMachine
  import opened SlotTable

  class SortedMap<K(==,!new), V> {
    const le: (K, K) -> bool
    const slots: array<Slot<K, V>>
    var len: nat
    var nextVersion: nat

    ghost predicate Valid()
      reads this, slots
    {
      && TotalOrder(le)
      && Good(slots[..])
      && len == ValidCount(slots[..])
    }

    ghost function Contents(): map<K, V>
      reads this, slots
    {
      Dict(slots[..])
    }

    constructor (capacity: nat, order: (K, K) -> bool)
      requires TotalOrder(order)
      ensures Valid() && fresh(slots) && le == order
      ensures slots.Length == capacity && Contents() == map[]
    {
      le := order;
      slots := new Slot<K, V>[capacity](_ => Slot(Word(EMPTY, 0), None));
      len, nextVersion := 0, 1;
      new;
      NothingHeld(slots[..]);
    }

    /** Phase 1 of an insertion: replace the entry of a key that is there. */
    method TryUpdate(key: K, value: V, insertVersion: nat) returns (r: Option<V>)
      requires Valid()
      modifies slots
      ensures Valid()
      ensures r.Some? <==> key in old(Contents())
      ensures r.Some? ==> r.value == old(Contents())[key] && Contents() == old(Contents())[key := value]
      ensures r.None? ==> slots[..] == old(slots[..])
    {
      var i := 0;
      while i < slots.Length
        invariant 0 <= i <= slots.Length
        invariant slots[..] == old(slots[..])
        invariant forall j :: 0 <= j < i ==> !At(slots[..], j, key)
      {
        var word := slots[i].word;
        if word.state == VALID {
          var entry := slots[i].entry.value;
          if entry.key == key && entry.slotVersion == word.version {
            slots[i] := slots[i].(word := Word(DELETING, word.version));
            var slotVersion := insertVersion % VERSIONS;
            var slot := Slot(Word(VALID, slotVersion), Some(Entry(key, value, insertVersion, slotVersion)));
            slots[i] := slot;
            Stored(old(slots[..]), i, slot);
            DictAt(old(slots[..]), i);
            ValidCountUpdate(old(slots[..]), i, slot);
            assert slots[..] == old(slots[..])[i := slot];
            return Some(entry.value);
          }
        }
        i := i + 1;
      }
      if key in Contents() {
        var j := DictHas(slots[..], key);
        assert false;
      }
      return None;
    }

    /** Phase 2: claim a free slot. */
    method TryAdd(key: K, value: V, insertVersion: nat) returns (added: bool)
      requires Valid() && key !in Contents()
      modifies this`len, slots
      ensures Valid()
      ensures added <==> |old(Contents())| < slots.Length
      ensures Contents() == if added then old(Contents())[key := value] else old(Contents())
      ensures !added ==> slots[..] == old(slots[..])
    {
      DictSize(slots[..]);
      FullWhen(slots[..]);
      var slotVersion := insertVersion % VERSIONS;
      var i := 0;
      while i < slots.Length
        invariant 0 <= i <= slots.Length
        invariant slots[..] == old(slots[..]) && len == old(len)
        invariant forall j :: 0 <= j < i ==> !Free(slots[j])
      {
        if slots[i].word == Word(EMPTY, 0) {
          slots[i] := slots[i].(word := Word(WRITING, slotVersion));
          slots[i] := slots[i].(entry := Some(Entry(key, value, insertVersion, slotVersion)));
          slots[i] := slots[i].(word := Word(VALID, slotVersion));
          len := len + 1;
          Stored(old(slots[..]), i, slots[i]);
          ValidCountUpdate(old(slots[..]), i, slots[i]);
          assert slots[..] == old(slots[..])[i := slots[i]];
          assert old(slots[..])[i].word.state == EMPTY;
          return true;
        }
        i := i + 1;
      }
      return false;
    }

    /** Fails exactly for a new key in a full table; an update returns the old value. */
    method Insert(key: K, value: V) returns (r: Option<Option<V>>)
      requires Valid()
      modifies this, slots
      ensures Valid()
      ensures r.None? <==> key !in old(Contents()) && |old(Contents())| == slots.Length
      ensures r.Some? ==> r.value == if key in old(Contents()) then Some(old(Contents())[key]) else None
      ensures Contents() == if r.Some? then old(Contents())[key := value] else old(Contents())
      ensures nextVersion == old(nextVersion) + 1
    {
      DictSize(slots[..]);
      var insertVersion := nextVersion;
      nextVersion := nextVersion + 1;
      var retry := 0;
      while retry < slots.Length
        invariant 0 <= retry
        invariant Valid() && slots[..] == old(slots[..]) && nextVersion == old(nextVersion) + 1
        invariant 0 < retry ==> key !in Contents() && |Contents()| == slots.Length
      {
        var updated := TryUpdate(key, value, insertVersion);
        if updated.Some? {
          return Some(updated);
        }
        var added := TryAdd(key, value, insertVersion);
        if added {
          return Some(None);
        }
        retry := retry + 1;
      }
      return None;
    }

    /** The scan that `first_key_value` and `pop_first` start with. */
    method Collect() returns (cands: seq<Candidate<K, V>>)
      requires Valid()
      ensures cands == Snapshot(slots[..])
    {
      cands := [];
      var i := 0;
      while i < slots.Length
        invariant 0 <= i <= slots.Length
        invariant cands == Snapshot(slots[..i])
      {
        var word := slots[i].word;
        assert slots[..i + 1][..i] == slots[..i];
        if word.state == VALID {
          var entry := slots[i].entry.value;
          if entry.slotVersion == word.version && slots[i].word == word {
            cands := cands + [Candidate(entry.key, entry.value, entry.insertVersion, i, word.version)];
          }
        }
        i := i + 1;
      }
      assert slots[..] == slots[..slots.Length];
    }

    method FindMinBy(cands: seq<Candidate<K, V>>) returns (c: Option<Candidate<K, V>>)
      ensures c == if cands == [] then None else Some(cands[MinIndex(le, cands)])
    {
      if cands == [] {
        return None;
      }
      var min := 0;
      var i := 1;
      while i < |cands|
        invariant 1 <= i <= |cands| && 0 <= min < i
        invariant min == MinIndex(le, cands[..i])
      {
        assert cands[..i + 1][..i] == cands[..i];
        if Before(le, cands[i], cands[min]) {
          min := i;
        }
        i := i + 1;
      }
      assert cands[..i] == cands;
      return Some(cands[min]);
    }

    method FirstKeyValue() returns (r: Option<(K, V)>)
      requires Valid()
      ensures r.None? <==> Contents() == map[]
      ensures r.Some? ==> r.value.0 in Contents() && r.value.1 == Contents()[r.value.0]
      ensures r.Some? ==> forall k :: k in Contents() ==> le(r.value.0, k)
    {
      var cands := Collect();
      var c := FindMinBy(cands);
      SnapshotLeast(le, slots[..]);
      return if c.None? then None else Some((c.value.key, c.value.value));
    }

    /** With one thread the first round succeeds: the lock and the three checks under it
        find the slot as the scan saw it. */
    method PopFirst() returns (r: Option<(K, V)>)
      requires Valid()
      modifies this`len, slots
      ensures Valid()
      ensures r.None? <==> old(Contents()) == map[]
      ensures r.Some? ==> r.value.0 in old(Contents()) && r.value.1 == old(Contents())[r.value.0]
      ensures r.Some? ==> forall k :: k in old(Contents()) ==> le(r.value.0, k)
      ensures Contents() == if r.Some? then old(Contents()) - {r.value.0} else old(Contents())
    {
      var cands := Collect();
      var c := FindMinBy(cands);
      SnapshotLeast(le, slots[..]);
      if c.None? {
        return None;
      }
      var i := c.value.index;
      var locked := slots[i].word;
      slots[i] := slots[i].(word := Word(DELETING, locked.version));
      var entry := slots[i].entry.value;
      assert locked.version == c.value.slotVersion && entry.key == c.value.key
          && entry.insertVersion == c.value.insertVersion && entry.slotVersion == locked.version;
      slots[i] := Slot(Word(EMPTY, 0), None);
      Cleared(old(slots[..]), i, slots[i]);
      ValidCountUpdate(old(slots[..]), i, slots[i]);
      assert slots[..] == old(slots[..])[i := slots[i]];
      len := len - 1;
      return Some((entry.key, entry.value));
    }

    method Len() returns (n: nat)
      requires Valid()
      ensures n == |Contents()|
    {
      DictSize(slots[..]);
      n := len;
    }

    method ExactLen() returns (n: nat)
      requires Valid()
      ensures n == |Contents()|
    {
      DictSize(slots[..]);
      n := 0;
      var i := 0;
      while i < slots.Length
        invariant 0 <= i <= slots.Length
        invariant n == ValidCount(slots[..i])
      {
        assert slots[..i + 1][..i] == slots[..i];
        if slots[i].word.state == VALID {
          n := n + 1;
        }
        i := i + 1;
      }
      assert slots[..] == slots[..slots.Length];
    }

    method Clear()
      requires Valid()
      modifies this`len, slots
      ensures Valid() && Contents() == map[] && len == 0
    {
      var i := 0;
      while i < slots.Length
        invariant 0 <= i <= slots.Length
        invariant Valid()
        invariant forall j :: 0 <= j < i ==> !Holds(slots[j])
      {
        if slots[i].word.state == VALID {
          ghost var was := slots[..];
          slots[i] := slots[i].(word := Word(DELETING, slots[i].word.version));
          slots[i] := Slot(Word(EMPTY, 0), None);
          Cleared(was, i, slots[i]);
          ValidCountUpdate(was, i, slots[i]);
          assert slots[..] == was[i := slots[i]];
          len := len - 1;
        }
        i := i + 1;
      }
      NothingHeld(slots[..]);
    }

    /** Popping until the map is empty yields its entries, keys strictly ascending. */
    method Drain() returns (out: seq<(K, V)>)
      requires Valid()
      modifies this`len, slots
      ensures Valid() && Contents() == map[]
      ensures |out| == |old(Contents())|
      ensures forall i :: 0 <= i < |out| ==> out[i].0 in old(Contents()) && out[i].1 == old(Contents())[out[i].0]
      ensures forall i, j :: 0 <= i < j < |out| ==> le(out[i].0, out[j].0) && out[i].0 != out[j].0
    {
      out := [];
      ghost var all := Contents();
      while true
        invariant Valid()
        invariant |out| + |Contents()| == |all|
        invariant forall k :: k in Contents() ==> k in all && all[k] == Contents()[k]
        invariant forall i :: 0 <= i < |out| ==> out[i].0 in all && out[i].1 == all[out[i].0]
        invariant forall i, k :: 0 <= i < |out| && k in Contents() ==> le(out[i].0, k) && out[i].0 != k
        invariant forall i, j :: 0 <= i < j < |out| ==> le(out[i].0, out[j].0) && out[i].0 != out[j].0
        decreases |Contents()|
      {
        ghost var before := Contents();
        var item := PopFirst();
        if item.None? {
          return;
        }
        assert before == Contents()[item.value.0 := item.value.1];
        out := out + [item.value];
      }
    }
  }

  lemma {:induction false} NothingHeld<K, V>(slots: seq<Slot<K, V>>)
    requires forall i :: 0 <= i < |slots| ==> !Holds(slots[i]) && slots[i].word.state != VALID
    ensures Dict(slots) == map[] && ValidCount(slots) == 0
  {
    if slots == [] {
    } else {
      NothingHeld(slots[..|slots| - 1]);
    }
  }
}
