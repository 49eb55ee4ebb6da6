/** Total orders on keys, and the least candidate of a scan. */
module Ordering {

  /** `le` is a total order. */
  ghost predicate TotalOrder<K(!new)>(le: (K, K) -> bool) {
    && (forall a, b :: le(a, b) || le(b, a))
    && (forall a, b :: le(a, b) && le(b, a) ==> a == b)
    && (forall a, b, c :: le(a, b) && le(b, c) ==> le(a, c))
  }

  /** What a scan remembers of a slot. */
  datatype Candidate<K, V> = Candidate(key: K, value: V, insertVersion: nat, index: nat, slotVersion: nat)

  /** The comparison of a scan: by key, then by insertion. */
  predicate Before<K(==), V>(le: (K, K) -> bool, a: Candidate<K, V>, b: Candidate<K, V>) {
    if a.key == b.key then a.insertVersion < b.insertVersion else le(a.key, b.key)
  }

  /** The index that the left-to-right search for the least candidate ends with. */
  function MinIndex<K(==), V>(le: (K, K) -> bool, cs: seq<Candidate<K, V>>): (m: nat)
    requires cs != []
    ensures m < |cs|
  {
    var n := |cs| - 1;
    if n == 0 then 0 else
      var m := MinIndex(le, cs[..n]);
      if Before(le, cs[n], cs[m]) then n else m
  }

  /** No candidate has a smaller key than the one found. */
  lemma {:induction false} MinIndexLeast<K(!new), V>(le: (K, K) -> bool, cs: seq<Candidate<K, V>>, i: nat)
    requires TotalOrder(le) && i < |cs|
    ensures le(cs[MinIndex(le, cs)].key, cs[i].key)
    ensures cs[i].key == cs[MinIndex(le, cs)].key ==>
              cs[MinIndex(le, cs)].insertVersion <= cs[i].insertVersion
  {
    var n := |cs| - 1;
    if n == 0 {
    } else {
      MinIndexLeast(le, cs[..n], if i < n then i else 0);
      var m := MinIndex(le, cs[..n]);
      assert cs[..n][m] == cs[m];
      if i < n {
        assert cs[..n][i] == cs[i];
      }
    }
  }
}
